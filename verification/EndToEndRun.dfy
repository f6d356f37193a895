/** A run that ends with the exit code for OK, with a declared event that was recorded. */
module EndToEndRun {
  import opened Options
  import opened Scenario
  import opened Runner
  import opened RunnerProofs
  import opened Cli
  import opened CliProofs
  import opened EndToEnd
  import Watch

  // ---- whatever held ends well ------------------------------------------------------------------

  /** What a run returns when every guardrail held. */
  function Passing(r: Rehearsal): Result {
    Result(r.name, Passed, [], [], CallsOf(r.Outcomes(), r.Count()))
  }

  lemma HeldReturns(r: Rehearsal)
    requires AllHold(r)
    ensures r.Returns(Passing(r))
  {
    forall i: nat | i < |r.steps| ensures OutcomeTells(r, i) {
      StepFacts(r, i);
    }
    OutcomesTell(r);
    VerdictMeans(r.Outcomes(), r.needs);
  }

  function PassingAll(env: Surroundings, ls: seq<Loaded>, n: nat): (ran: seq<Result>)
    requires n <= |ls|
    ensures |ran| == n
  {
    if n == 0 then [] else PassingAll(env, ls, n - 1) + [Passing(RehearsalOf(env, ls, n - 1))]
  }

  lemma {:induction false} PassingAt(env: Surroundings, ls: seq<Loaded>, n: nat, m: nat)
    requires m < n <= |ls|
    ensures PassingAll(env, ls, n)[m] == Passing(RehearsalOf(env, ls, m))
  {
    if m < n - 1 {
      PassingAt(env, ls, n - 1, m);
    }
  }

  /** What a run leaves behind when nothing was found. */
  function Clear(settings: Settings, ran: seq<Result>): Finished {
    var results := if settings.failOnSkip then PromotedAll(ran) else ran;
    Finished(ran, results, 0, 0, if settings.format.HumanFormat? then Some(SummaryOf(results)) else None, NoError)
  }

  predicate NothingFound(ran: seq<Result>) {
    forall n :: 0 <= n < |ran| ==> ran[n].status == Passed && ran[n].findings == [] && ran[n].skippedFindings == []
  }

  lemma ClearIsFinished(settings: Settings, ran: seq<Result>)
    requires !CannotBeWritten(settings) && NothingFound(ran)
    ensures FinishedWell(settings, Clear(settings, ran))
  {
    assert forall n :: 0 <= n < |ran| ==> Coherent(ran[n]);
    TotalsFollowVerdicts(ran);
  }

  /** With --fail-on-skip and an output that works, every run in which all guardrails held ends with OK. */
  lemma HeldEndsOK(settings: Settings, env: Surroundings, ls: seq<Loaded>)
    requires settings.failOnSkip && !CannotBeWritten(settings)
    requires forall n :: 0 <= n < |ls| ==> AllHold(RehearsalOf(env, ls, n))
    ensures EndedOK(settings, env, ls, Clear(settings, PassingAll(env, ls, |ls|)))
  {
    var ran := PassingAll(env, ls, |ls|);
    forall n | 0 <= n < |ls|
      ensures RehearsalOf(env, ls, n).Returns(ran[n])
      ensures ran[n].status == Passed && ran[n].findings == [] && ran[n].skippedFindings == []
    {
      PassingAt(env, ls, |ls|, n);
      HeldReturns(RehearsalOf(env, ls, n));
    }
    ClearIsFinished(settings, ran);
  }

  // ---- one step, one event ----------------------------------------------------------------------

  const SOURCE := "fuse"
  const KIND := "blocked"
  const RUN := "run"

  /** A step that expects the status 200 at its first attempt, and an event within a second. */
  function OneStep(): Step {
    Step("step", 1, Request("model", 0, [], []), None, None, Headers("", "", "", "", "", "", ""),
         Wanted(200, map[], 1, Some(EventExpect(SOURCE, KIND, Watch.SECOND)), "", None, "", false))
  }

  function OneScenario(): seq<Loaded> {
    [Loaded("scenario", "", [OneStep()])]
  }

  /** A gateway that answers so, and a watcher that sees the event. */
  function OneEnv(): Surroundings {
    Surroundings(
      Target("", "", "", "", true),
      (n: nat) => Outside((i: nat, a: nat) => Reply(200, map[], "", None, None), (i: nat, a: nat) => Seen, w => ""),
      (n: nat) => RUN)
  }

  /** The event stands in the watched file from the first read on, dated when the request was sent. */
  function OneWatching(): Watching {
    Watching(
      Watch.Library(bytes => Watch.Intact, bytes => Watch.Events([Watch.Event(SOURCE, KIND, RUN, "")]), ts => Some(0)),
      ["log"],
      (i: nat, a: nat) => Watch.World((n: nat, k: nat) => Watch.Data([]), (n: nat, k: nat) => 0, 0,
                                      (n: nat) => n * Watch.POLL_INTERVAL),
      (i: nat, a: nat) => 0)
  }

  lemma OneHolds(j: Job)
    requires j == RehearsalOf(OneEnv(), OneScenario(), 0).JobAt(0)
    ensures Holds(j)
  {
    assert KindOf(OneStep()) == KindMessages;
    assert j.ProbeAt(1) == j.ProbeMessages(Reply(200, map[], "", None, None));
    assert HoldsAt(j, 1);
  }

  lemma OneIsFound(w: Watch.Wait)
    requires w.lib == OneWatching().lib && w.paths == ["log"] && w.world == OneWatching().world(0, 0)
    requires w.q == Watch.Query(RUN, SOURCE, KIND, 0)
    ensures w.Ticks() && w.Spec().verdict.Found?
  {
    forall n: nat ensures w.Tick(n) {
    }
    var e := Watch.Event(SOURCE, KIND, RUN, "");
    assert Watch.Trusted(w.lib, w.q, 0, e);
    assert Watch.Judge(w.lib, w.q, 0, [e]).event == Some(e);
    Watch.RunUnfolds(w, 0, 0, Watch.INITIAL);
  }

  lemma OneIsHeard(a: nat)
    ensures HearsFiles(RehearsalOf(OneEnv(), OneScenario(), 0).JobAt(0), OneWatching(), a)
  {
    OneIsFound(WaitOf(RehearsalOf(OneEnv(), OneScenario(), 0).JobAt(0), OneWatching(), a));
  }

  /** This run may start, ends with OK under --fail-on-skip, and declares an event that files record. */
  lemma OneRunEndsOK(settings: Settings)
    requires settings.failOnSkip && !CannotBeWritten(settings) && settings.eventLogOpens
    ensures MayStart(settings, OneEnv(), OneScenario())
    ensures EndedOK(settings, OneEnv(), OneScenario(), Clear(settings, PassingAll(OneEnv(), OneScenario(), 1)))
    ensures AllWatchFiles(OneEnv(), OneScenario(), [OneWatching()]) && Declares(OneScenario(), 0, 0)
  {
    OneHolds(RehearsalOf(OneEnv(), OneScenario(), 0).JobAt(0));
    HeldEndsOK(settings, OneEnv(), OneScenario());
    OneIsWatched();
    OneMayStart(settings);
  }

  lemma OneIsWatched()
    ensures AllWatchFiles(OneEnv(), OneScenario(), [OneWatching()])
  {
    forall i: nat, a: nat | i < 1
      ensures HearsFiles(RehearsalOf(OneEnv(), OneScenario(), 0).JobAt(i), OneWatching(), a)
    {
      OneIsHeard(a);
    }
  }

  lemma OneMayStart(settings: Settings)
    requires settings.eventLogOpens
    ensures MayStart(settings, OneEnv(), OneScenario())
  {
    assert KindOf(OneStep()) == KindMessages;
    assert FirstOffender(OneScenario(), IsMCP, None);
  }
}
