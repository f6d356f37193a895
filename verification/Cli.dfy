/**
 The run command of cmd/mockryx/main.go, from the loaded scenarios to the exit code, with the report of
 internal/report/report.go that it fills, promotes and prints.
 */
module Cli {
  import opened Options
  import opened Scenario
  import opened Runner

  // ---- the report -------------------------------------------------------------------------------

  function TotalOf(rs: seq<Result>): nat {
    if rs == [] then 0 else |rs[0].findings| + TotalOf(rs[1..])
  }

  function SkippedTotalOf(rs: seq<Result>): nat {
    if rs == [] then 0 else |rs[0].skippedFindings| + SkippedTotalOf(rs[1..])
  }

  /** --fail-on-skip: the findings a skip set aside become findings; the status stays what it was. */
  function Promoted(r: Result): Result {
    if r.status == Skipped then r.(findings := r.findings + r.skippedFindings, skippedFindings := []) else r
  }

  function PromotedAll(rs: seq<Result>): (ps: seq<Result>)
    ensures |ps| == |rs|
    ensures forall k :: 0 <= k < |rs| ==> ps[k] == Promoted(rs[k])
  {
    if rs == [] then [] else [Promoted(rs[0])] + PromotedAll(rs[1..])
  }

  function SkippedCount(rs: seq<Result>): nat {
    if rs == [] then 0 else (if rs[0].status == Skipped then 1 else 0) + SkippedCount(rs[1..])
  }

  /** The sentence the human report ends with. */
  datatype Summary = Gaps(n: nat) | NoScenarioRan | EveryScenarioSkipped | EveryGuardrailHeld

  predicate NothingExercised(rs: seq<Result>) {
    forall k :: 0 <= k < |rs| ==> rs[k].status == Skipped
  }

  function SummaryOf(rs: seq<Result>): Summary {
    if TotalOf(rs) > 0 then Gaps(TotalOf(rs))
    else if |rs| == 0 then NoScenarioRan
    else if NothingExercised(rs) then EveryScenarioSkipped
    else EveryGuardrailHeld
  }

  lemma {:induction false} TotalSplit(a: seq<Result>, b: seq<Result>)
    ensures TotalOf(a + b) == TotalOf(a) + TotalOf(b)
    ensures SkippedCount(a + b) == SkippedCount(a) + SkippedCount(b)
  {
    if a == [] {
      assert a + b == b;
    } else {
      assert (a + b)[1..] == a[1..] + b;
      TotalSplit(a[1..], b);
    }
  }

  class Report {
    var results: seq<Result>

    constructor ()
      ensures results == []
    {
      results := [];
    }

    method Add(r: Result)
      modifies this
      ensures results == old(results) + [r]
    {
      results := results + [r];
    }

    /** Report.TotalFindings. */
    method TotalFindings() returns (n: nat)
      ensures n == TotalOf(results)
    {
      n := 0;
      for k := 0 to |results|
        invariant n == TotalOf(results[..k])
      {
        assert results[..k + 1] == results[..k] + [results[k]];
        TotalSplit(results[..k], [results[k]]);
        n := n + |results[k].findings|;
      }
      assert results[..|results|] == results;
    }

    /** Report.nothingExercised. */
    method CheckNothingExercised() returns (nothing: bool)
      ensures nothing == NothingExercised(results)
    {
      for k := 0 to |results|
        invariant forall j :: 0 <= j < k ==> results[j].status == Skipped
      {
        if results[k].status != Skipped {
          return false;
        }
      }
      return true;
    }

    /** The summary switch of Human. */
    method Human() returns (s: Summary)
      ensures s == SummaryOf(results)
    {
      var total := TotalFindings();
      var nothing := CheckNothingExercised();
      if total > 0 {
        s := Gaps(total);
      } else if |results| == 0 {
        s := NoScenarioRan;
      } else if nothing {
        s := EveryScenarioSkipped;
      } else {
        s := EveryGuardrailHeld;
      }
    }

    /** The promotion loop of runRun. */
    method Promote() returns (skipped: nat)
      modifies this
      ensures results == PromotedAll(old(results))
      ensures skipped == SkippedCount(old(results))
    {
      skipped := 0;
      ghost var before := results;
      for k := 0 to |results|
        invariant |results| == |before|
        invariant forall j :: 0 <= j < |before| ==> results[j] == if j < k then Promoted(before[j]) else before[j]
        invariant skipped == SkippedCount(before[..k])
      {
        assert before[..k + 1] == before[..k] + [before[k]];
        TotalSplit(before[..k], [before[k]]);
        var res := results[k];
        if res.status != Skipped {
          continue;
        }
        skipped := skipped + 1;
        results := results[k := res.(findings := res.findings + res.skippedFindings, skippedFindings := [])];
      }
      assert before[..|before|] == before;
      assert results == PromotedAll(before);
    }
  }

  // ---- the checks before anything is sent -------------------------------------------------------

  datatype Loaded = Loaded(name: string, needs: string, steps: seq<Step>)

  /** The first step, in order, that has a property, if any. */
  ghost predicate FirstOffender(ls: seq<Loaded>, bad: Step -> bool, found: Option<Place>) {
    match found
    case None => forall n, i :: 0 <= n < |ls| && 0 <= i < |ls[n].steps| ==> !bad(ls[n].steps[i])
    case Some(f) =>
      exists n, i ::
        && 0 <= n < |ls| && 0 <= i < |ls[n].steps| && FirstAt(ls, bad, n, i)
        && f == (ls[n].name, ls[n].steps[i].name)
  }

  ghost predicate FirstAt(ls: seq<Loaded>, bad: Step -> bool, n: nat, i: nat)
    requires n < |ls| && i < |ls[n].steps|
  {
    && bad(ls[n].steps[i])
    && (forall j :: 0 <= j < i ==> !bad(ls[n].steps[j]))
    && (forall m, j :: 0 <= m < n && 0 <= j < |ls[m].steps| ==> !bad(ls[m].steps[j]))
  }

  predicate HasEvent(s: Step) {
    s.wanted.event.Some?
  }

  predicate IsMCP(s: Step) {
    KindOf(s) == KindMCP
  }

  /** The loops of firstEventExpectation and firstMCPStep, which differ only in what they look for. */
  method First(ls: seq<Loaded>, bad: Step -> bool) returns (found: Option<Place>)
    ensures FirstOffender(ls, bad, found)
  {
    for n := 0 to |ls|
      invariant forall m, j :: 0 <= m < n && 0 <= j < |ls[m].steps| ==> !bad(ls[m].steps[j])
    {
      for i := 0 to |ls[n].steps|
        invariant forall j :: 0 <= j < i ==> !bad(ls[n].steps[j])
      {
        if bad(ls[n].steps[i]) {
          assert FirstAt(ls, bad, n, i);
          return Some((ls[n].name, ls[n].steps[i].name));
        }
      }
    }
    return None;
  }

  // ---- the run ----------------------------------------------------------------------------------

  datatype Exit = ExitOK | ExitFindings | ExitUsage

  /** A scenario and a step of it. */
  type Place = (string, string)

  /** The error a run returns: for what it is refused, what it found, or what it could not write. */
  datatype RunError =
    | NoError
    | NoWatchPaths(at: Place)
    | NoBrokerNamed(at: Place)
    | BrokerUnreachable(at: Place)
    | NoEventLog
    | OutputError
    | FindingsError(findings: nat, scenarios: nat, skipped: nat)

  function ExitCode(e: RunError): Exit {
    match e
    case NoError => ExitOK
    case FindingsError(_, _, _) => ExitFindings
    case _ => ExitUsage
  }

  datatype Format = HumanFormat | JSONFormat(writes: bool) | UnknownFormat

  /** The settings of a run, and whether what they name answers, opens or can be written. */
  datatype Settings = Settings(
    failOnSkip: bool, format: Format, savePath: string, saveWorks: bool, brokerAnswers: bool, eventLogOpens: bool)

  /** The report cannot be printed, or not saved. */
  predicate OutputFails(settings: Settings) {
    || settings.format.UnknownFormat?
    || (settings.format.JSONFormat? && !settings.format.writes)
    || (settings.savePath != "" && !settings.saveWorks)
  }

  /** A run's surroundings: the target, the replies to each scenario's requests, and the run ids. */
  datatype Surroundings = Surroundings(tgt: Target, out: nat -> Outside, runID: nat -> string)

  function RehearsalOf(env: Surroundings, ls: seq<Loaded>, n: nat): Rehearsal
    requires n < |ls|
  {
    Rehearsal(env.out(n), env.tgt, ls[n].name, ls[n].needs, env.runID(n), ls[n].steps)
  }

  predicate BrokerReady(settings: Settings, env: Surroundings) {
    env.tgt.broker != "" && settings.brokerAnswers
  }

  /** The checks made before a single request is sent. */
  ghost predicate MayStart(settings: Settings, env: Surroundings, ls: seq<Loaded>) {
    && (env.tgt.hasWatcher || FirstOffender(ls, HasEvent, None))
    && (BrokerReady(settings, env) || FirstOffender(ls, IsMCP, None))
    && settings.eventLogOpens
  }

  /** The run is refused with this error: it names the first step, in order, that lacks what it needs. */
  ghost predicate Refused(settings: Settings, env: Surroundings, ls: seq<Loaded>, e: RunError) {
    var watched := env.tgt.hasWatcher || FirstOffender(ls, HasEvent, None);
    match e
    case NoWatchPaths(at) => !env.tgt.hasWatcher && FirstOffender(ls, HasEvent, Some(at))
    case NoBrokerNamed(at) => watched && env.tgt.broker == "" && FirstOffender(ls, IsMCP, Some(at))
    case BrokerUnreachable(at) =>
      watched && env.tgt.broker != "" && !settings.brokerAnswers && FirstOffender(ls, IsMCP, Some(at))
    case NoEventLog =>
      watched && (BrokerReady(settings, env) || FirstOffender(ls, IsMCP, None)) && !settings.eventLogOpens
    case _ => false
  }

  /** Every scenario was run, in order. */
  ghost predicate RanAll(env: Surroundings, ls: seq<Loaded>, ran: seq<Result>) {
    |ran| == |ls| && RanTo(env, ls, ran)
  }

  ghost predicate RanTo(env: Surroundings, ls: seq<Loaded>, ran: seq<Result>) {
    |ran| <= |ls| && forall n :: 0 <= n < |ran| ==> RehearsalOf(env, ls, n).Returns(ran[n])
  }

  /** What a run leaves behind: its findings, the events it emitted, its summary, its error. */
  datatype Finished = Finished(
    ran: seq<Result>, results: seq<Result>, emitted: nat, endCount: nat, summary: Option<Summary>, error: RunError)

  ghost predicate FinishedWell(settings: Settings, f: Finished) {
    && f.results == (if settings.failOnSkip then PromotedAll(f.ran) else f.ran)
    && f.emitted == TotalOf(f.ran) && f.endCount == TotalOf(f.results)
    && f.summary == (if settings.format.HumanFormat? then Some(SummaryOf(f.results)) else None)
    && f.error ==
       (if OutputFails(settings) then OutputError
        else if TotalOf(f.results) > 0 then
          FindingsError(TotalOf(f.results), |f.ran|, if settings.failOnSkip then SkippedCount(f.ran) else 0)
        else NoError)
  }

  /** The checks of runRun, in their order. */
  method Precheck(settings: Settings, env: Surroundings, ls: seq<Loaded>) returns (e: RunError)
    ensures e == NoError <==> MayStart(settings, env, ls)
    ensures e != NoError ==> Refused(settings, env, ls, e)
  {
    if !env.tgt.hasWatcher {
      var event := First(ls, HasEvent);
      if event.Some? {
        return NoWatchPaths(event.value);
      }
    }
    var mcp := First(ls, IsMCP);
    if mcp.Some? {
      if env.tgt.broker == "" {
        return NoBrokerNamed(mcp.value);
      }
      if !settings.brokerAnswers {
        return BrokerUnreachable(mcp.value);
      }
    }
    e := if settings.eventLogOpens then NoError else NoEventLog;
  }

  /** The function runRun, once its flags are parsed and its scenarios loaded. */
  method RunRun(settings: Settings, env: Surroundings, ls: seq<Loaded>) returns (started: bool, f: Finished)
    ensures started <==> MayStart(settings, env, ls)
    ensures !started ==> Refused(settings, env, ls, f.error) && f == Finished([], [], 0, 0, None, f.error)
    ensures started ==> RanAll(env, ls, f.ran) && FinishedWell(settings, f)
  {
    var refusal := Precheck(settings, env, ls);
    started := refusal == NoError;
    if !started {
      return started, Finished([], [], 0, 0, None, refusal);
    }
    var rep := new Report();
    var emitted := RunAll(env, ls, rep);
    f := Finish(settings, rep, emitted);
  }

  /** The loop over the scenarios: each is run, added to the report, and its findings emitted. */
  method RunAll(env: Surroundings, ls: seq<Loaded>, rep: Report) returns (emitted: nat)
    requires rep.results == []
    modifies rep
    ensures RanAll(env, ls, rep.results) && emitted == TotalOf(rep.results)
  {
    emitted := 0;
    for n := 0 to |ls|
      invariant |rep.results| == n && emitted == TotalOf(rep.results) && RanTo(env, ls, rep.results)
    {
      var res := RunOne(RehearsalOf(env, ls, n), rep);
      emitted := emitted + |res.findings|;
    }
  }

  /** One scenario, run and added to the report. */
  method RunOne(job: Rehearsal, rep: Report) returns (res: Result)
    modifies rep
    ensures job.Returns(res) && rep.results == old(rep.results) + [res]
    ensures TotalOf(rep.results) == old(TotalOf(rep.results)) + |res.findings|
  {
    var ran, _ := RunWithIdentity(job);
    TotalSplit(rep.results, [ran]);
    rep.Add(ran);
    res := ran;
  }

  /** Everything after the last scenario: promotion, the end event, the report, the save, the error. */
  method Finish(settings: Settings, rep: Report, emitted: nat) returns (f: Finished)
    requires emitted == TotalOf(rep.results)
    modifies rep
    ensures f.ran == old(rep.results) && f.results == rep.results && FinishedWell(settings, f)
  {
    var ran, skipped := rep.results, 0;
    if settings.failOnSkip {
      skipped := rep.Promote();
    }
    var total := rep.TotalFindings();
    f := Finished(ran, rep.results, emitted, total, None, OutputError);
    match settings.format {
      case HumanFormat =>
        var summary := rep.Human();
        f := f.(summary := Some(summary));
      case JSONFormat(writes) =>
        if !writes {
          return;
        }
      case UnknownFormat =>
        return;
    }
    if settings.savePath != "" && !settings.saveWorks {
      return;
    }
    f := f.(error := if total > 0 then FindingsError(total, |ran|, skipped) else NoError);
  }
}
