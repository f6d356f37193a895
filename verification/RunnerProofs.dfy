/** What a verdict means, for every sequence of replies. */
module RunnerProofs {
  import opened Scenario
  import opened Redact
  import opened Runner
  import opened Headers

  // ---- one step ---------------------------------------------------------------------------------

  /** The event the step declared, if any, was observed after this attempt. */
  ghost predicate EventSeen(j: Job, a: nat) {
    j.step.wanted.event.None? || (j.tgt.hasWatcher && j.out.watched(j.index, a).Seen?)
  }

  /** The guardrail held: its first match is in time, nothing abnormal came before it, and its event came. */
  ghost predicate HoldsAt(j: Job, a: nat) {
    && 1 <= a <= j.Deadline() && j.Normal(a) && j.ProbeAt(a).matched && EventSeen(j, a)
    && forall b :: 1 <= b < a ==> j.Normal(b) && !j.ProbeAt(b).matched
  }

  ghost predicate Holds(j: Job) {
    !j.NoBroker() && exists a: nat :: HoldsAt(j, a)
  }

  /** An operational failure, which says nothing about whether the guardrail is configured. */
  ghost predicate Operational(j: Job) {
    || j.NoBroker()
    || !j.Normal(j.StopAt())
    || (j.ProbeAt(j.StopAt()).matched && j.StopAt() <= j.Deadline() && j.step.wanted.event.Some?
        && (!j.tgt.hasWatcher || j.out.watched(j.index, j.StopAt()).WatchFailed?))
  }

  /** Some attempt that was made signalled that the guardrail is there. */
  ghost predicate Showed(j: Job) {
    !j.NoBroker() && j.Signalled(j.StopAt())
  }

  lemma HoldsAtStop(j: Job)
    ensures Holds(j) <==> !j.NoBroker() && HoldsAt(j, j.StopAt())
  {
    if Holds(j) {
      var a: nat :| HoldsAt(j, a);
      StopIs(j, a);
    }
    if !j.NoBroker() {
      var s := j.StopAt();
      assert forall b :: 1 <= b < s ==> !j.Stops(b);
    }
  }

  /** A step has no finding exactly when its guardrail held. */
  lemma NoFindingIffHolds(j: Job)
    ensures j.Outcome().finding.None? <==> Holds(j)
  {
    HoldsAtStop(j);
    var s := j.StopAt();
    forall b | 1 <= b < s ensures j.Normal(b) && !j.ProbeAt(b).matched {
      assert !j.Stops(b);
    }
    assert !j.NoBroker() ==>
      (HoldsAt(j, s) <==> s <= j.Deadline() && j.Normal(s) && j.ProbeAt(s).matched && EventSeen(j, s));
  }

  lemma HardIffOperational(j: Job)
    ensures Hard(j.Outcome()) <==> Operational(j)
    ensures j.Outcome().signalSeen <==> Showed(j)
  {
  }

  // ---- the verdict ------------------------------------------------------------------------------

  lemma {:induction false} NoFindings(os: seq<StepOutcome>, n: nat, name: string)
    requires n <= |os|
    ensures FindingsOf(os, n, name) == [] <==> forall i :: 0 <= i < n ==> os[i].finding.None?
  {
    if n > 0 {
      NoFindings(os, n - 1, name);
    }
  }

  /** A refused credential always has a finding, so a run without findings runs every step. */
  lemma RefusedHasFinding(j: Job)
    ensures j.Outcome().refused ==> j.Outcome().finding.Some?
  {
  }

  lemma OutcomeAt(r: Rehearsal, i: nat)
    requires i < |r.steps|
    ensures r.Outcomes()[i] == r.JobAt(i).Outcome()
  {
    r.OutcomeIs(|r.steps|, i);
  }

  /** What the outcome of a step says. */
  ghost predicate OutcomeTells(r: Rehearsal, i: nat)
    requires i < |r.steps|
  {
    var o := r.Outcomes()[i];
    && (o.finding.None? <==> Holds(r.JobAt(i)))
    && (Hard(o) <==> Operational(r.JobAt(i)))
    && (o.signalSeen <==> Showed(r.JobAt(i)))
    && (o.refused ==> o.finding.Some?)
  }

  lemma StepFacts(r: Rehearsal, i: nat)
    requires i < |r.steps|
    ensures OutcomeTells(r, i)
  {
    OutcomeAt(r, i);
    NoFindingIffHolds(r.JobAt(i));
    HardIffOperational(r.JobAt(i));
    RefusedHasFinding(r.JobAt(i));
  }

  ghost predicate AllHold(r: Rehearsal) {
    forall i :: 0 <= i < |r.steps| ==> Holds(r.JobAt(i))
  }

  /** Nothing operational failed, and no guardrail ever showed itself. */
  ghost predicate Silent(r: Rehearsal) {
    forall i :: 0 <= i < |r.steps| ==> !Operational(r.JobAt(i)) && !Showed(r.JobAt(i))
  }

  /** What the verdict of a list of outcomes says, when refusals always come with a finding. */
  lemma VerdictMeans(os: seq<StepOutcome>, needs: string)
    requires forall i :: 0 <= i < |os| ==> (os[i].refused ==> os[i].finding.Some?)
    ensures VerdictOf(os, needs) == Passed <==> forall i :: 0 <= i < |os| ==> os[i].finding.None?
    ensures VerdictOf(os, needs) == Skipped <==>
      && needs != "" && (exists i :: 0 <= i < |os| && os[i].finding.Some?)
      && (forall i :: 0 <= i < |os| ==> !Hard(os[i]) && !os[i].signalSeen)
  {
    var n := CountFrom(os, 0);
    NoFindings(os, n, "");
    if n < |os| {
      assert os[n - 1].refused && Hard(os[n - 1]);
    }
  }

  lemma OutcomesTell(r: Rehearsal)
    requires forall i: nat :: i < |r.steps| ==> OutcomeTells(r, i)
    ensures var os := r.Outcomes();
      && (forall i :: 0 <= i < |os| ==> (os[i].refused ==> os[i].finding.Some?))
      && ((forall i :: 0 <= i < |os| ==> os[i].finding.None?) <==> AllHold(r))
      && ((forall i :: 0 <= i < |os| ==> !Hard(os[i]) && !os[i].signalSeen) <==> Silent(r))
  {
    var os := r.Outcomes();
    forall i | 0 <= i < |os|
      ensures os[i].finding.None? <==> Holds(r.JobAt(i))
      ensures Hard(os[i]) <==> Operational(r.JobAt(i))
      ensures os[i].signalSeen <==> Showed(r.JobAt(i))
      ensures os[i].refused ==> os[i].finding.Some?
    {
      assert OutcomeTells(r, i);
    }
  }

  /**
   The verdict of a whole run, for every sequence of replies. It passed exactly when every step's first
   match was in time, with no abnormal reply before it, and its event was seen. It was skipped exactly
   when a feature is required, some step missed, nothing operational failed, and no attempt signalled.
   */
  lemma VerdictIsRight(r: Rehearsal, res: Result)
    requires r.Returns(res)
    ensures res.status == Passed <==> AllHold(r)
    ensures res.status == Skipped <==> r.needs != "" && !AllHold(r) && Silent(r)
  {
    forall i: nat | i < |r.steps| ensures OutcomeTells(r, i) {
      StepFacts(r, i);
    }
    OutcomesTell(r);
    VerdictMeans(r.Outcomes(), r.needs);
  }

  /** Findings are where the verdict says: in one list, never both, and never neither but for a pass. */
  lemma FindingsFollowVerdict(r: Rehearsal, res: Result)
    requires r.Returns(res)
    ensures res.findings != [] <==> res.status == Failed
    ensures res.skippedFindings != [] <==> res.status == Skipped
  {
    NameDoesNotMatter(r.Outcomes(), r.Count(), r.name, "");
  }

  // ---- redaction of a whole result --------------------------------------------------------------

  /** No safe key stands in any text a reply could have put in a result. */
  lemma NoSecretInResult(r: Rehearsal, res: Result, f: Finding, k: string)
    requires r.Returns(res) && (f in res.findings || f in res.skippedFindings)
    requires k in r.Keys() && Safe(k)
    ensures Clean(f, k)
  {
    var fs := FindingsOf(r.Outcomes(), r.Count(), r.name);
    var gs := if res.status == Failed then res.findings else res.skippedFindings;
    var i :| 0 <= i < |gs| && gs[i] == f;
    RedactionIsComplete(fs[i], r.Keys(), gs[i]);
  }

  // ---- a refused credential ---------------------------------------------------------------------

  /** The gateway answered that it does not know the credential, or that it may not speak as this agent. */
  ghost predicate RefusedReply(j: Job, a: nat) {
    var r := j.out.reply(j.index, a);
    !OnlyMCP(j.step) && r.Reply? && (r.status == 401 || (r.status == 403 && Within("identity_mismatch", r.body)))
  }

  lemma RefusalStops(j: Job, a: nat)
    requires RefusedReply(j, a) && 1 <= a <= j.StopAt()
    ensures j.StopAt() == a && j.Outcome().refused && j.Outcome().calls == a
  {
    KindIs(j.step);
    ContainsIff(j.out.reply(j.index, a).body, "identity_mismatch");
    assert j.ProbeAt(a).failure.Refusal?;
    assert j.Stops(a);
  }

  lemma {:induction false} InTrace(r: Rehearsal, n: nat, i: nat, a: nat)
    requires n <= |r.steps| && (i, a) in r.Trace(n)
    ensures i < n && 1 <= a <= r.Outcomes()[i].calls
  {
    if (i, a) !in r.Trace(n - 1) {
      assert (i, a) in r.JobAt(n - 1).Requests(r.Outcomes()[n - 1].calls);
    } else {
      InTrace(r, n - 1, i, a);
    }
  }

  lemma CallsAreStops(j: Job)
    ensures j.Outcome().calls == if j.NoBroker() then 0 else j.StopAt()
  {
  }

  lemma RefusedEndsCount(os: seq<StepOutcome>, i: nat)
    requires i < CountFrom(os, 0) && os[i].refused
    ensures CountFrom(os, 0) == i + 1
  {
  }

  lemma RefusedFails(os: seq<StepOutcome>, i: nat, needs: string, name: string)
    requires i < |os| && CountFrom(os, 0) == i + 1 && os[i].refused && os[i].finding.Some?
    ensures VerdictOf(os, needs) == Failed
    ensures var fs := FindingsOf(os, i + 1, name);
      fs != [] && fs[|fs| - 1] == os[i].finding.value.(scenario := name)
  {
    assert Hard(os[i]);
    assert FindingsOf(os, i + 1, "") != [];
  }

  /** The step of the refused request is the last one that is run, and that request its last. */
  lemma RefusalIsLast(r: Rehearsal, i: nat, a: nat)
    requires (i, a) in r.Trace(r.Count()) && i < |r.steps| && RefusedReply(r.JobAt(i), a)
    ensures r.Count() == i + 1 && r.Outcomes()[i].refused && r.Outcomes()[i].calls == a >= 1
  {
    InTrace(r, r.Count(), i, a);
    OutcomeAt(r, i);
    CallsAreStops(r.JobAt(i));
    RefusalStops(r.JobAt(i), a);
    RefusedEndsCount(r.Outcomes(), i);
  }

  /** A refused credential ends the scenario: that request is the last one sent, and none was refused before. */
  lemma RefusalIsLastSent(r: Rehearsal, i: nat, a: nat)
    requires (i, a) in r.Trace(r.Count()) && i < |r.steps| && RefusedReply(r.JobAt(i), a)
    ensures r.Count() == i + 1 && EndsWith(r.Trace(i + 1), (i, a)) && NoneRefused(r, i)
  {
    RefusalIsLast(r, i, a);
    TraceEnds(r, i, a);
    NoneRefusedBefore(r, i);
  }

  predicate EndsWith(t: seq<(nat, nat)>, last: (nat, nat)) {
    t != [] && t[|t| - 1] == last
  }

  ghost predicate NoneRefused(r: Rehearsal, n: nat)
    requires n <= |r.steps|
  {
    forall k :: 0 <= k < n ==> !r.Outcomes()[k].refused
  }

  lemma NoneRefusedBefore(r: Rehearsal, i: nat)
    requires r.Count() == i + 1
    ensures NoneRefused(r, i)
  {
  }

  lemma TraceEnds(r: Rehearsal, i: nat, a: nat)
    requires i < |r.steps| && r.Outcomes()[i].calls == a >= 1
    ensures EndsWith(r.Trace(i + 1), (i, a))
  {
    assert r.Trace(i + 1) == r.Trace(i) + r.JobAt(i).Requests(a);
  }

  lemma RefusalIsFound(r: Rehearsal, res: Result, i: nat)
    requires r.Returns(res) && i < |r.steps| && r.Count() == i + 1 && r.Outcomes()[i].refused
    ensures res.status == Failed && res.findings != [] && r.Outcomes()[i].finding.Some?
    ensures Redacted(r.Outcomes()[i].finding.value.(scenario := r.name), r.Keys(), res.findings[|res.findings| - 1])
  {
    StepFacts(r, i);
    RefusedFails(r.Outcomes(), i, r.needs, r.name);
    LastIsRedacted(r, res, FindingsOf(r.Outcomes(), i + 1, r.name));
  }

  lemma LastIsRedacted(r: Rehearsal, res: Result, fs: seq<Finding>)
    requires r.Returns(res) && res.status == Failed && fs == FindingsOf(r.Outcomes(), r.Count(), r.name) && fs != []
    ensures res.findings != [] && Redacted(fs[|fs| - 1], r.Keys(), res.findings[|res.findings| - 1])
  {
  }

  /**
   A refused credential is never an answer, whatever else the reply matches: the run failed, and the
   finding of that request, redacted, is the last of the list.
   */
  lemma RefusalEndsTheRun(r: Rehearsal, res: Result, i: nat, a: nat)
    requires r.Returns(res) && (i, a) in r.Trace(r.Count()) && i < |r.steps| && RefusedReply(r.JobAt(i), a)
    ensures r.Outcomes()[i].refused && res.status == Failed && res.findings != [] && r.Outcomes()[i].finding.Some?
    ensures Redacted(r.Outcomes()[i].finding.value.(scenario := r.name), r.Keys(), res.findings[|res.findings| - 1])
  {
    RefusalIsLast(r, i, a);
    RefusalIsFound(r, res, i);
  }

  /** The calls a result reports are the requests that were sent. */
  lemma {:induction false} CallsAreRequests(r: Rehearsal, n: nat)
    requires n <= |r.steps|
    ensures CallsOf(r.Outcomes(), n) == |r.Trace(n)|
  {
    if n > 0 {
      CallsAreRequests(r, n - 1);
    }
  }

  // ---- a match that carries its own signal ------------------------------------------------------

  /** What the step expects is itself a sign that the guardrail is there: its header, or a code the broker reserves. */
  ghost predicate CarriesSignal(j: Job) {
    || (OnlyMessages(j.step) && j.needs != "" && exists k ::
         k in j.step.wanted.header && SameName(k, "x-fuse-" + j.needs) && j.step.wanted.header[k] != "")
    || (OnlyMCP(j.step) && j.step.wanted.errorCode.Some? && !j.step.wanted.result
        && -32010 <= j.step.wanted.errorCode.value <= -32001)
  }

  lemma SignalHeaderIs(j: Job)
    requires OnlyMessages(j.step) && j.needs != ""
    ensures j.SignalHeader() != "" && Lower(j.SignalHeader()) == Lower("x-fuse-" + j.needs)
  {
    KindIs(j.step);
    LowerIs(j.needs);
    SameTail("x-fuse-", j.needs, Lower(j.needs));
    SameNames("x-fuse-" + j.needs, "x-fuse-" + Lower(j.needs));
  }

  lemma MatchSignals(j: Job, a: nat)
    requires CarriesSignal(j) && j.Normal(a) && j.ProbeAt(a).matched
    ensures j.ProbeAt(a).signal
  {
    KindIs(j.step);
    if OnlyMessages(j.step) {
      var k :| k in j.step.wanted.header && SameName(k, "x-fuse-" + j.needs) && j.step.wanted.header[k] != "";
      SignalHeaderIs(j);
      SameNames(k, "x-fuse-" + j.needs);
      assert Get(j.out.reply(j.index, a).headers, k) == j.step.wanted.header[k];
    }
  }

  /** So a match that came late, or whose event did not come, is a failure and never a skip. */
  lemma OwnSignalIsNeverSkipped(r: Rehearsal, res: Result, i: nat)
    requires r.Returns(res) && i < r.Count() && CarriesSignal(r.JobAt(i)) && !r.JobAt(i).NoBroker()
    requires r.JobAt(i).Normal(r.JobAt(i).StopAt()) && r.JobAt(i).ProbeAt(r.JobAt(i).StopAt()).matched
    ensures res.status != Skipped
    ensures !Holds(r.JobAt(i)) ==> res.status == Failed
  {
    MatchSignals(r.JobAt(i), r.JobAt(i).StopAt());
    assert Showed(r.JobAt(i));
    VerdictIsRight(r, res);
  }

  // ---- what validation is for -------------------------------------------------------------------

  /** On a step that validation accepted, the run's own clamping changes nothing. */
  lemma ClampingIsNoOp(j: Job)
    requires Trustworthy(j.step)
    ensures j.Repeat() == j.step.repeat && j.Deadline() == j.step.wanted.withinRepeats
    ensures j.Kind() != NoKind
    ensures (j.Kind() == KindToolCheck ==> j.step.toolCheck.Some?) && (j.Kind() == KindMCP ==> j.step.mcp.Some?)
  {
  }
}
