/** What an exit code means, over all runs. */
module CliProofs {
  import opened Options
  import opened Scenario
  import Redact
  import opened Runner
  import opened RunnerProofs
  import opened RunnerReplies
  import opened Cli

  /** Findings follow the verdict, as they do in every result of a run. */
  predicate Coherent(r: Result) {
    (r.findings != [] <==> r.status == Failed) && (r.skippedFindings != [] <==> r.status == Skipped)
  }

  predicate CoherentAll(rs: seq<Result>) {
    forall k :: 0 <= k < |rs| ==> Coherent(rs[k])
  }

  lemma {:induction false} TotalIsZero(rs: seq<Result>)
    ensures TotalOf(rs) == 0 <==> forall k :: 0 <= k < |rs| ==> rs[k].findings == []
  {
    if rs != [] {
      TotalIsZero(rs[1..]);
      assert forall k :: 1 <= k < |rs| ==> rs[k] == rs[1..][k - 1];
    }
  }

  lemma RunsAreCoherent(env: Surroundings, ls: seq<Loaded>, ran: seq<Result>)
    requires RanAll(env, ls, ran)
    ensures CoherentAll(ran)
  {
    forall n | 0 <= n < |ran| ensures Coherent(ran[n]) {
      FindingsFollowVerdict(RehearsalOf(env, ls, n), ran[n]);
    }
  }

  // ---- promotion --------------------------------------------------------------------------------

  /** Findings are set aside for a skip, and for nothing else. */
  predicate SetAsideIfSkipped(rs: seq<Result>) {
    forall k :: 0 <= k < |rs| && rs[k].skippedFindings != [] ==> rs[k].status == Skipped
  }

  lemma CoherentSetAside(rs: seq<Result>)
    requires CoherentAll(rs)
    ensures SetAsideIfSkipped(rs)
  {
    forall k | 0 <= k < |rs| && rs[k].skippedFindings != [] ensures rs[k].status == Skipped {
      assert Coherent(rs[k]);
    }
  }

  /** Promotion moves findings and loses none: result by result, and in the two totals. */
  lemma {:induction false} PromotionConserves(rs: seq<Result>)
    requires SetAsideIfSkipped(rs)
    ensures var ps := PromotedAll(rs);
      && (forall k :: 0 <= k < |rs| ==>
            ps[k].status == rs[k].status && ps[k].skippedFindings == []
            && ps[k].findings == rs[k].findings + rs[k].skippedFindings)
      && TotalOf(ps) == TotalOf(rs) + SkippedTotalOf(rs)
  {
    if rs != [] {
      var tail := rs[1..];
      assert forall k :: 0 <= k < |tail| ==> tail[k] == rs[k + 1];
      PromotionConserves(tail);
      assert forall r: Result :: r.skippedFindings == [] ==> r.findings + r.skippedFindings == r.findings;
      assert PromotedAll(rs)[1..] == PromotedAll(tail);
    }
  }

  // ---- exit codes -------------------------------------------------------------------------------

  /** Without --fail-on-skip a total of nothing means no scenario failed; with it, that every one passed. */
  lemma TotalsFollowVerdicts(rs: seq<Result>)
    requires CoherentAll(rs)
    ensures TotalOf(rs) == 0 <==> forall k :: 0 <= k < |rs| ==> rs[k].status != Failed
    ensures TotalOf(PromotedAll(rs)) == 0 <==> forall k :: 0 <= k < |rs| ==> rs[k].status == Passed
  {
    TotalIsZero(rs);
    TotalIsZero(PromotedAll(rs));
    forall k | 0 <= k < |rs|
      ensures rs[k].findings == [] <==> rs[k].status != Failed
      ensures PromotedAll(rs)[k].findings == [] <==> rs[k].status == Passed
    {
      assert Coherent(rs[k]);
      PromotedIsEmpty(rs[k]);
    }
  }

  lemma PromotedIsEmpty(r: Result)
    requires Coherent(r)
    ensures Promoted(r).findings == [] <==> r.status == Passed
  {
    if r.status == Skipped {
      assert |r.findings + r.skippedFindings| > 0;
    }
  }

  /**
   The exit code of a run that started: the usage code exactly when the report cannot be printed or saved;
   else, without --fail-on-skip, OK exactly when no scenario failed, and with it exactly when every one
   passed.
   */
  lemma ExitFollowsVerdicts(settings: Settings, env: Surroundings, ls: seq<Loaded>, f: Finished)
    requires RanAll(env, ls, f.ran) && FinishedWell(settings, f)
    ensures ExitCode(f.error) == ExitUsage <==> CannotBeWritten(settings)
    ensures ExitCode(f.error) != ExitUsage ==>
      (ExitCode(f.error) == ExitOK <==>
        forall n :: 0 <= n < |ls| ==> if settings.failOnSkip then f.ran[n].status == Passed else f.ran[n].status != Failed)
  {
    RunsAreCoherent(env, ls, f.ran);
    TotalsFollowVerdicts(f.ran);
  }

  /** The same, down to the replies: with --fail-on-skip, OK means every guardrail of every scenario held. */
  lemma StrictOKMeansEverythingHeld(settings: Settings, env: Surroundings, ls: seq<Loaded>, f: Finished)
    requires RanAll(env, ls, f.ran) && FinishedWell(settings, f)
    requires settings.failOnSkip && ExitCode(f.error) != ExitUsage
    ensures ExitCode(f.error) == ExitOK <==> forall n :: 0 <= n < |ls| ==> AllHold(RehearsalOf(env, ls, n))
  {
    ExitFollowsVerdicts(settings, env, ls, f);
    forall n | 0 <= n < |ls| ensures f.ran[n].status == Passed <==> AllHold(RehearsalOf(env, ls, n)) {
      VerdictIsRight(RehearsalOf(env, ls, n), f.ran[n]);
    }
  }

  /** Every finding is accounted for: the end event counts those emitted and those promoted. */
  lemma EventsAddUp(settings: Settings, env: Surroundings, ls: seq<Loaded>, f: Finished)
    requires RanAll(env, ls, f.ran) && FinishedWell(settings, f)
    ensures f.endCount == f.emitted + if settings.failOnSkip then SkippedTotalOf(f.ran) else 0
  {
    RunsAreCoherent(env, ls, f.ran);
    CoherentSetAside(f.ran);
    PromotionConserves(f.ran);
  }

  // ---- the verdicts of the scenarios ------------------------------------------------------------

  /** Step i of scenario n, as it is run. */
  function JobOf(env: Surroundings, ls: seq<Loaded>, n: nat, i: nat): Job
    requires n < |ls| && i < |ls[n].steps|
  {
    Job(env.out(n), env.tgt, ls[n].needs, env.runID(n), i, ls[n].steps[i])
  }

  ghost predicate AllOfMet(env: Surroundings, ls: seq<Loaded>, n: nat)
    requires n < |ls|
  {
    forall i: nat :: i < |ls[n].steps| ==> Met(JobOf(env, ls, n, i))
  }

  /** Each result is that of its scenario, by the replies to its own steps and what it requires. */
  lemma ResultsAreOfScenarios(env: Surroundings, ls: seq<Loaded>, ran: seq<Result>, n: nat)
    requires RanAll(env, ls, ran) && n < |ls|
    ensures ran[n].scenario == ls[n].name
    ensures ran[n].status == Passed <==> AllOfMet(env, ls, n)
    ensures ran[n].status == Skipped <==>
      && ls[n].needs != "" && !AllOfMet(env, ls, n)
      && forall i: nat :: i < |ls[n].steps| ==> !Fails(JobOf(env, ls, n, i)) && !Announced(JobOf(env, ls, n, i))
  {
    var r := RehearsalOf(env, ls, n);
    VerdictByReplies(r, ran[n]);
    assert forall i: nat :: i < |ls[n].steps| ==> r.JobAt(i) == JobOf(env, ls, n, i);
  }

  // ---- what the totals count --------------------------------------------------------------------

  /** All the findings of these results, one list after another. */
  function AllFindings(rs: seq<Result>): seq<Redact.Finding> {
    if rs == [] then [] else rs[0].findings + AllFindings(rs[1..])
  }

  function AllSkipped(rs: seq<Result>): seq<Redact.Finding> {
    if rs == [] then [] else rs[0].skippedFindings + AllSkipped(rs[1..])
  }

  function SkippedAt(rs: seq<Result>): set<nat> {
    set k: nat | k < |rs| && rs[k].status == Skipped
  }

  lemma {:induction false} TotalsCount(rs: seq<Result>)
    ensures TotalOf(rs) == |AllFindings(rs)| && SkippedTotalOf(rs) == |AllSkipped(rs)|
  {
    if rs != [] {
      TotalsCount(rs[1..]);
    }
  }

  lemma {:induction false} SkippedAreCounted(rs: seq<Result>)
    ensures SkippedCount(rs) == |SkippedAt(rs)|
    decreases |rs|
  {
    if rs != [] {
      var front, last := rs[..|rs| - 1], [rs[|rs| - 1]];
      assert rs == front + last;
      TotalSplit(front, last);
      SkippedAreCounted(front);
      assert SkippedAt(rs) == SkippedAt(front) + if last[0].status == Skipped then {|front|} else {};
    }
  }

  /** How many gaps a run reports: its findings, and those of the skipped scenarios if they count as such. */
  function GapsOf(settings: Settings, ran: seq<Result>): nat {
    |AllFindings(ran)| + if settings.failOnSkip then |AllSkipped(ran)| else 0
  }

  lemma GapsAreCounted(settings: Settings, env: Surroundings, ls: seq<Loaded>, f: Finished)
    requires RanAll(env, ls, f.ran) && FinishedWell(settings, f)
    ensures TotalOf(f.results) == GapsOf(settings, f.ran)
  {
    RunsAreCoherent(env, ls, f.ran);
    CoherentSetAside(f.ran);
    PromotionConserves(f.ran);
    TotalsCount(f.ran);
  }

  /** The report or the saved file cannot be written. */
  predicate CannotBeWritten(settings: Settings) {
    || (match settings.format case HumanFormat => false case JSONFormat(writes) => !writes case UnknownFormat => true)
    || (settings.savePath != "" && !settings.saveWorks)
  }

  /** The error a run ends with counts the gaps, the scenarios and those that were skipped, and is there if a gap is. */
  lemma ErrorIsTrue(settings: Settings, env: Surroundings, ls: seq<Loaded>, f: Finished)
    requires RanAll(env, ls, f.ran) && FinishedWell(settings, f)
    ensures f.error ==
      if CannotBeWritten(settings) then OutputError
      else if GapsOf(settings, f.ran) == 0 then NoError
      else FindingsError(GapsOf(settings, f.ran), |ls|, if settings.failOnSkip then |SkippedAt(f.ran)| else 0)
    ensures f.emitted == |AllFindings(f.ran)| && f.endCount == GapsOf(settings, f.ran)
  {
    GapsAreCounted(settings, env, ls, f);
    TotalsCount(f.ran);
    SkippedAreCounted(f.ran);
  }

  /** A sentence of the report, and when it is true of a run. */
  predicate SaysTruly(settings: Settings, ran: seq<Result>, s: Summary) {
    match s
    case Gaps(n) => n > 0 && n == GapsOf(settings, ran)
    case NoScenarioRan => ran == []
    case EveryScenarioSkipped => ran != [] && !settings.failOnSkip && forall k :: 0 <= k < |ran| ==> ran[k].status == Skipped
    case EveryGuardrailHeld =>
      (exists k :: 0 <= k < |ran| && ran[k].status == Passed) && NoGap(settings, ran)
  }

  /** No gap: every scenario passed, or was skipped where that is none. */
  predicate NoGap(settings: Settings, ran: seq<Result>) {
    forall k :: 0 <= k < |ran| ==> ran[k].status == Passed || (ran[k].status == Skipped && !settings.failOnSkip)
  }

  lemma NoGapIff(settings: Settings, env: Surroundings, ls: seq<Loaded>, f: Finished)
    requires RanAll(env, ls, f.ran) && FinishedWell(settings, f)
    ensures TotalOf(f.results) == GapsOf(settings, f.ran) && (GapsOf(settings, f.ran) == 0 <==> NoGap(settings, f.ran))
    ensures NothingExercised(f.results) <==> NothingExercised(f.ran)
  {
    RunsAreCoherent(env, ls, f.ran);
    GapsAreCounted(settings, env, ls, f);
    TotalsFollowVerdicts(f.ran);
    StatusesStay(f.ran);
  }

  /** With nothing to report, whether anything was exercised decides the sentence. */
  lemma SentenceIs(settings: Settings, ran: seq<Result>, s: Summary)
    requires NoGap(settings, ran) && GapsOf(settings, ran) == 0
    ensures SaysTruly(settings, ran, s) <==>
      s == if ran == [] then NoScenarioRan else if NothingExercised(ran) then EveryScenarioSkipped else EveryGuardrailHeld
  {
    if ran != [] && NothingExercised(ran) {
      assert ran[0].status == Skipped;
    }
  }

  lemma GapSentence(settings: Settings, ran: seq<Result>, s: Summary)
    requires !NoGap(settings, ran) && GapsOf(settings, ran) > 0
    ensures SaysTruly(settings, ran, s) <==> s == Gaps(GapsOf(settings, ran))
  {
  }

  /** The human report ends with a sentence, and it is the one that is true; no other format has any. */
  lemma SummaryIsTrue(settings: Settings, env: Surroundings, ls: seq<Loaded>, f: Finished, s: Summary)
    requires RanAll(env, ls, f.ran) && FinishedWell(settings, f)
    ensures f.summary == Some(s) <==> settings.format.HumanFormat? && SaysTruly(settings, f.ran, s)
  {
    NoGapIff(settings, env, ls, f);
    if NoGap(settings, f.ran) {
      SentenceIs(settings, f.ran, s);
    } else {
      GapSentence(settings, f.ran, s);
    }
  }

  /** Promotion leaves it open or settled whether anything was exercised, as it was. */
  lemma StatusesStay(rs: seq<Result>)
    ensures NothingExercised(PromotedAll(rs)) == NothingExercised(rs)
  {
    var ps := PromotedAll(rs);
    assert forall k :: 0 <= k < |rs| ==> ps[k].status == rs[k].status;
  }

  // ---- the checks up front ----------------------------------------------------------------------

  predicate DeclaresEvent(s: Step) {
    s.wanted.event.Some?
  }

  /** What a step needs of the run, and lacks. */
  predicate LacksWatcher(env: Surroundings, s: Step) {
    DeclaresEvent(s) && !env.tgt.hasWatcher
  }

  predicate LacksBroker(settings: Settings, env: Surroundings, s: Step) {
    OnlyMCP(s) && (env.tgt.broker == "" || !settings.brokerAnswers)
  }

  /** A run may start exactly when its event log opens and no step of it lacks what it needs. */
  lemma MayStartIff(settings: Settings, env: Surroundings, ls: seq<Loaded>)
    ensures MayStart(settings, env, ls) <==>
      settings.eventLogOpens && forall n, i :: 0 <= n < |ls| && 0 <= i < |ls[n].steps| ==>
        !LacksWatcher(env, ls[n].steps[i]) && !LacksBroker(settings, env, ls[n].steps[i])
  {
    forall n, i | 0 <= n < |ls| && 0 <= i < |ls[n].steps|
      ensures IsMCP(ls[n].steps[i]) <==> OnlyMCP(ls[n].steps[i])
    {
      KindIs(ls[n].steps[i]);
    }
    assert forall s :: HasEvent(s) == DeclaresEvent(s);
  }

  /** Past the checks, no step is an mcp step without a broker, or waits for an event without a watcher. */
  lemma StartedRunsAreEquipped(settings: Settings, env: Surroundings, ls: seq<Loaded>, n: nat, i: nat)
    requires MayStart(settings, env, ls) && n < |ls| && i < |ls[n].steps|
    ensures var j := RehearsalOf(env, ls, n).JobAt(i);
      !j.NoBroker() && (j.step.wanted.event.Some? ==> j.tgt.hasWatcher)
  {
    KindIs(ls[n].steps[i]);
    MayStartIff(settings, env, ls);
  }

  /** The error of a refused run is true, and names the first step, in order, of which it is. */
  ghost predicate RefusedTruly(settings: Settings, env: Surroundings, ls: seq<Loaded>, e: RunError) {
    match e
    case NoWatchPaths(at) => !env.tgt.hasWatcher && FirstIs(ls, DeclaresEvent, at)
    case NoBrokerNamed(at) => env.tgt.broker == "" && FirstIs(ls, OnlyMCP, at)
    case BrokerUnreachable(at) => env.tgt.broker != "" && !settings.brokerAnswers && FirstIs(ls, OnlyMCP, at)
    case NoEventLog => !settings.eventLogOpens
    case _ => false
  }

  /** The first step, scenario by scenario, that is so is this one. */
  ghost predicate FirstIs(ls: seq<Loaded>, so: Step -> bool, at: Place) {
    exists n, i :: 0 <= n < |ls| && 0 <= i < |ls[n].steps| && FirstAt(ls, so, n, i) && at == (ls[n].name, ls[n].steps[i].name)
  }

  lemma FirstAlike(ls: seq<Loaded>, bad: Step -> bool, so: Step -> bool, at: Place)
    requires FirstOffender(ls, bad, Some(at)) && forall s :: bad(s) == so(s)
    ensures FirstIs(ls, so, at)
  {
    var n, i :| 0 <= n < |ls| && 0 <= i < |ls[n].steps| && FirstAt(ls, bad, n, i) && at == (ls[n].name, ls[n].steps[i].name);
    assert FirstAt(ls, so, n, i);
  }

  lemma RefusalIsTrue(settings: Settings, env: Surroundings, ls: seq<Loaded>, e: RunError)
    requires Refused(settings, env, ls, e)
    ensures RefusedTruly(settings, env, ls, e)
  {
    forall s ensures IsMCP(s) == OnlyMCP(s) {
      KindIs(s);
    }
    match e
    case NoWatchPaths(at) => FirstAlike(ls, HasEvent, DeclaresEvent, at);
    case NoBrokerNamed(at) => FirstAlike(ls, IsMCP, OnlyMCP, at);
    case BrokerUnreachable(at) => FirstAlike(ls, IsMCP, OnlyMCP, at);
    case NoEventLog =>
  }

  /** A run may start exactly when each of its scenarios might alone, and the event log opens. */
  lemma StartsIffEachWould(settings: Settings, env: Surroundings, ls: seq<Loaded>)
    ensures MayStart(settings, env, ls) <==>
      settings.eventLogOpens && forall n :: 0 <= n < |ls| ==> MayStart(settings, env, [ls[n]])
  {
    NoneIffNoneEach(ls, HasEvent);
    NoneIffNoneEach(ls, IsMCP);
    if settings.eventLogOpens {
      if forall n :: 0 <= n < |ls| ==> MayStart(settings, env, [ls[n]]) {
        forall n | 0 <= n < |ls|
          ensures env.tgt.hasWatcher || FirstOffender([ls[n]], HasEvent, None)
          ensures BrokerReady(settings, env) || FirstOffender([ls[n]], IsMCP, None)
        {
          assert MayStart(settings, env, [ls[n]]);
        }
      }
    }
  }

  lemma NoneIffNoneEach(ls: seq<Loaded>, bad: Step -> bool)
    ensures FirstOffender(ls, bad, None) <==> forall n :: 0 <= n < |ls| ==> FirstOffender([ls[n]], bad, None)
  {
    if forall n :: 0 <= n < |ls| ==> FirstOffender([ls[n]], bad, None) {
      forall n, i | 0 <= n < |ls| && 0 <= i < |ls[n].steps| ensures !bad(ls[n].steps[i]) {
        assert FirstOffender([ls[n]], bad, None);
        assert [ls[n]][0] == ls[n];
      }
    }
  }

  /** There is one first offender, or none. */
  lemma OneFirstOffender(ls: seq<Loaded>, bad: Step -> bool, a: Option<Place>, b: Option<Place>)
    requires FirstOffender(ls, bad, a) && FirstOffender(ls, bad, b)
    ensures a == b
  {
    if a.Some? && b.Some? {
      var n, i :| 0 <= n < |ls| && 0 <= i < |ls[n].steps| && FirstAt(ls, bad, n, i)
        && a.value == (ls[n].name, ls[n].steps[i].name);
      var m, j :| 0 <= m < |ls| && 0 <= j < |ls[m].steps| && FirstAt(ls, bad, m, j)
        && b.value == (ls[m].name, ls[m].steps[j].name);
      assert n == m && i == j;
    }
  }

  /** A refused run has one reason, and a run that may start has none. */
  lemma RefusalIsUnique(settings: Settings, env: Surroundings, ls: seq<Loaded>, e: RunError)
    requires Refused(settings, env, ls, e)
    ensures !MayStart(settings, env, ls) && ExitCode(e) == ExitUsage
    ensures forall d :: Refused(settings, env, ls, d) ==> d == e
  {
    forall d | Refused(settings, env, ls, d) ensures d == e {
      forall bad: Step -> bool, a, b | FirstOffender(ls, bad, a) && FirstOffender(ls, bad, b) ensures a == b {
        OneFirstOffender(ls, bad, a, b);
      }
    }
  }
}
