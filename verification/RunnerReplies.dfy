/** The verdict of a run from the replies as they came, with no probe in between. */
module RunnerReplies {
  import opened Options
  import opened Scenario
  import opened Runner
  import opened Headers
  import opened RunnerProofs

  // ---- what a reply says ------------------------------------------------------------------------

  ghost function ReplyTo(j: Job, a: nat): Reply {
    j.out.reply(j.index, a)
  }

  /** An error with a code, or a result. */
  ghost predicate IsRpc(rpc: Rpc) {
    match rpc.error
    case None => rpc.hasResult
    case Some(e) => e.code.Some?
  }

  /** A reply came, and speaks the protocol of the step. */
  ghost predicate Speaks(j: Job, r: Reply) {
    && r.Reply?
    && (OnlyToolCheck(j.step) ==> r.status == 200 && r.tool.Some? && r.tool.value.decision != "")
    && (OnlyMCP(j.step) ==> r.rpc.Some? && IsRpc(r.rpc.value))
  }

  ghost predicate Answered(j: Job, a: nat) {
    Speaks(j, ReplyTo(j, a)) && !RefusedReply(j, a)
  }

  /** A code that the broker reserves for its own guardrails. */
  ghost predicate Reserved(rpc: Rpc) {
    rpc.error.Some? && rpc.error.value.code.Some? && -32010 <= rpc.error.value.code.value <= -32001
  }

  /** The reply shows that the guardrail's family is there at all. */
  ghost predicate Announces(j: Job, r: Reply)
    requires Speaks(j, r)
  {
    if OnlyToolCheck(j.step) then r.tool.value.governed
    else if OnlyMCP(j.step) then Reserved(r.rpc.value)
    else OnlyMessages(j.step) && j.needs != "" && !HeaderIs(r.headers, "x-fuse-" + j.needs, "")
  }

  ghost predicate MeetsRpc(w: Wanted, rpc: Rpc) {
    match rpc.error
    case None => w.result
    case Some(e) =>
      w.errorCode.Some? && w.errorCode == e.code && (w.errorContains == "" || Within(w.errorContains, e.message))
  }

  /** The reply is what the step expects. */
  ghost predicate Meets(j: Job, r: Reply)
    requires Speaks(j, r)
  {
    var w := j.step.wanted;
    if OnlyToolCheck(j.step) then r.tool.value.decision == w.decision
    else if OnlyMCP(j.step) then MeetsRpc(w, r.rpc.value)
    else r.status == w.status && forall k :: k in w.header ==> HeaderIs(r.headers, k, w.header[k])
  }

  lemma MessagesRead(j: Job, a: nat)
    requires !OnlyToolCheck(j.step) && !OnlyMCP(j.step) && Answered(j, a)
    ensures j.ProbeAt(a).signal <==> Announces(j, ReplyTo(j, a))
    ensures j.ProbeAt(a).matched <==> Meets(j, ReplyTo(j, a))
  {
    var r, w := ReplyTo(j, a), j.step.wanted;
    KindIs(j.step);
    forall k | k in w.header ensures Get(r.headers, k) == w.header[k] <==> HeaderIs(r.headers, k, w.header[k]) {
      GetIs(r.headers, k, w.header[k]);
    }
    if OnlyMessages(j.step) && j.needs != "" {
      SignalHeaderIs(j);
      GetIs(r.headers, "x-fuse-" + j.needs, "");
    }
  }

  lemma RpcRead(j: Job, a: nat)
    requires OnlyMCP(j.step) && Answered(j, a)
    ensures j.ProbeAt(a).signal <==> Announces(j, ReplyTo(j, a))
    ensures j.ProbeAt(a).matched <==> Meets(j, ReplyTo(j, a))
  {
    KindIs(j.step);
    var rpc := ReplyTo(j, a).rpc.value;
    if rpc.error.Some? {
      ContainsIff(rpc.error.value.message, j.step.wanted.errorContains);
    }
  }

  lemma NormalIff(j: Job, a: nat)
    ensures j.Normal(a) <==> Answered(j, a)
  {
    var r := ReplyTo(j, a);
    KindIs(j.step);
    if r.Reply? {
      ContainsIff(r.body, "identity_mismatch");
    }
  }

  /** The probes read the replies as declared. */
  lemma ProbeReads(j: Job, a: nat)
    ensures j.Normal(a) <==> Answered(j, a)
    ensures Answered(j, a) ==> (j.ProbeAt(a).signal <==> Announces(j, ReplyTo(j, a)))
    ensures Answered(j, a) ==> (j.ProbeAt(a).matched <==> Meets(j, ReplyTo(j, a)))
  {
    NormalIff(j, a);
    KindIs(j.step);
    if Answered(j, a) {
      if OnlyMCP(j.step) {
        RpcRead(j, a);
      } else if !OnlyToolCheck(j.step) {
        MessagesRead(j, a);
      }
    }
  }

  // ---- which attempts are made ------------------------------------------------------------------

  /** How often the step is tried at most. */
  function Tries(j: Job): nat {
    if j.step.repeat >= 1 then j.step.repeat else 1
  }

  /** The last attempt a match is in time in. */
  function Due(j: Job): nat {
    if 1 <= j.step.wanted.withinRepeats <= Tries(j) then j.step.wanted.withinRepeats else Tries(j)
  }

  predicate Brokerless(j: Job) {
    OnlyMCP(j.step) && j.tgt.broker == ""
  }

  lemma ClampsAre(j: Job)
    ensures j.Repeat() == Tries(j) && j.Deadline() == Due(j) && j.NoBroker() == Brokerless(j)
  {
    KindIs(j.step);
  }

  /** Another attempt follows this one, if any is left. */
  ghost predicate GoesOn(j: Job, a: nat) {
    Answered(j, a) && !Meets(j, ReplyTo(j, a))
  }

  /** The attempt is made: every one before it was answered, and none of the answers was the expected one. */
  ghost predicate Made(j: Job, a: nat) {
    !Brokerless(j) && 1 <= a <= Tries(j) && forall b :: 1 <= b < a ==> GoesOn(j, b)
  }

  /** It is the last. */
  ghost predicate LastMade(j: Job, a: nat) {
    Made(j, a) && (a == Tries(j) || !GoesOn(j, a))
  }

  lemma StopsIff(j: Job)
    ensures forall b :: 1 <= b ==> (GoesOn(j, b) <==> !j.Stops(b))
  {
    forall b | 1 <= b ensures GoesOn(j, b) <==> !j.Stops(b) {
      ProbeReads(j, b);
    }
  }

  lemma MadeIff(j: Job, a: nat)
    ensures Made(j, a) <==> !j.NoBroker() && 1 <= a <= j.StopAt()
    ensures LastMade(j, a) <==> !j.NoBroker() && a == j.StopAt()
  {
    ClampsAre(j);
    StopsIff(j);
    var s := j.StopAt();
    assert forall b :: 1 <= b < s ==> !j.Stops(b);
    assert s < j.Repeat() ==> j.Stops(s);
  }

  // ---- what a step comes to ---------------------------------------------------------------------

  /** In this attempt the expected reply came first, in time, and its event after it. */
  ghost predicate MetAt(j: Job, a: nat) {
    Made(j, a) && a <= Due(j) && Answered(j, a) && Meets(j, ReplyTo(j, a)) && EventSeen(j, a)
  }

  ghost predicate Met(j: Job) {
    exists a: nat :: MetAt(j, a)
  }

  /** A step holds, and so a run passes, by what the replies themselves say. */
  lemma HoldsByReplies(j: Job)
    ensures Holds(j) <==> Met(j)
  {
    HoldsAtStop(j);
    ClampsAre(j);
    forall a: nat ensures MetAt(j, a) ==> !j.NoBroker() && HoldsAt(j, a) && a == j.StopAt() {
      if MetAt(j, a) {
        HoldsIfMet(j, a);
      }
    }
    if Holds(j) {
      MetIfHolds(j, j.StopAt());
    }
  }

  lemma HoldsIfMet(j: Job, a: nat)
    requires MetAt(j, a)
    ensures !j.NoBroker() && HoldsAt(j, a) && a == j.StopAt()
  {
    ClampsAre(j);
    MadeIff(j, a);
    ProbeReads(j, a);
    StopsIff(j);
    forall b | 1 <= b < a ensures j.Normal(b) && !j.ProbeAt(b).matched {
      assert GoesOn(j, b) && !j.Stops(b);
    }
  }

  lemma MetIfHolds(j: Job, a: nat)
    requires !j.NoBroker() && a == j.StopAt() && HoldsAt(j, a)
    ensures MetAt(j, a)
  {
    ClampsAre(j);
    MadeIff(j, a);
    ProbeReads(j, a);
  }

  /** The expected reply came in time, but its event could not be waited for. */
  ghost predicate WaitFails(j: Job, a: nat) {
    && Answered(j, a) && Meets(j, ReplyTo(j, a)) && a <= Due(j) && j.step.wanted.event.Some?
    && (!j.tgt.hasWatcher || j.out.watched(j.index, a).WatchFailed?)
  }

  /** Something failed that says nothing about the guardrail: no broker, no answer, or a wait that could not be made. */
  ghost predicate Fails(j: Job) {
    Brokerless(j) || exists a: nat :: FailsAt(j, a)
  }

  ghost predicate FailsAt(j: Job, a: nat) {
    Made(j, a) && (!Answered(j, a) || WaitFails(j, a))
  }

  ghost predicate Announced(j: Job) {
    exists a: nat :: AnnouncedAt(j, a)
  }

  ghost predicate AnnouncedAt(j: Job, a: nat) {
    Made(j, a) && Answered(j, a) && Announces(j, ReplyTo(j, a))
  }

  lemma OperationalIff(j: Job)
    ensures Operational(j) <==> Fails(j)
  {
    ClampsAre(j);
    var s := j.StopAt();
    MadeIff(j, s);
    ProbeReads(j, s);
    StopsIff(j);
    assert FailsAt(j, s) <==> !j.NoBroker() && Operational(j);
    forall a: nat | FailsAt(j, a) ensures a == s {
      MadeIff(j, a);
      assert !GoesOn(j, a);
    }
  }

  lemma ShowedIff(j: Job)
    ensures Showed(j) <==> Announced(j)
  {
    forall a: nat ensures AnnouncedAt(j, a) <==> !j.NoBroker() && 1 <= a <= j.StopAt() && j.Normal(a) && j.ProbeAt(a).signal {
      MadeIff(j, a);
      ProbeReads(j, a);
    }
  }

  // ---- on, off, and broken ----------------------------------------------------------------------

  ghost predicate AllMet(r: Rehearsal) {
    forall i :: 0 <= i < |r.steps| ==> Met(r.JobAt(i))
  }

  /**
   The verdict of a whole run, for every sequence of replies and in their terms. It passed exactly when
   each step got what it expects, in time, with its event. It was skipped exactly when a feature is
   required, some step did not, nothing else failed, and no reply announced the guardrail.
   */
  lemma VerdictByReplies(r: Rehearsal, res: Result)
    requires r.Returns(res)
    ensures res.status == Passed <==> AllMet(r)
    ensures res.status == Skipped <==>
      r.needs != "" && !AllMet(r) && forall i :: 0 <= i < |r.steps| ==> !Fails(r.JobAt(i)) && !Announced(r.JobAt(i))
  {
    VerdictIsRight(r, res);
    forall i | 0 <= i < |r.steps|
      ensures Met(r.JobAt(i)) <==> Holds(r.JobAt(i))
      ensures Fails(r.JobAt(i)) <==> Operational(r.JobAt(i))
      ensures Announced(r.JobAt(i)) <==> Showed(r.JobAt(i))
    {
      HoldsByReplies(r.JobAt(i));
      OperationalIff(r.JobAt(i));
      ShowedIff(r.JobAt(i));
    }
  }

  /** A guardrail that announced itself in any reply and did not hold is a gap, and never a skip. */
  lemma ShownAndMissedIsAGap(r: Rehearsal, res: Result, i: nat, a: nat)
    requires r.Returns(res) && i < |r.steps| && AnnouncedAt(r.JobAt(i), a) && !Met(r.JobAt(i))
    ensures res.status == Failed
  {
    VerdictByReplies(r, res);
  }

  /** So is one of a broker that answered with an error of its own guardrails, from -32010 to -32001. */
  lemma ReservedCodeIsAGap(r: Rehearsal, res: Result, i: nat, a: nat, code: int)
    requires r.Returns(res) && i < |r.steps| && OnlyMCP(r.steps[i]) && Made(r.JobAt(i), a) && !Met(r.JobAt(i))
    requires var reply := ReplyTo(r.JobAt(i), a);
      reply.Reply? && reply.rpc.Some? && reply.rpc.value.error.Some? && reply.rpc.value.error.value.code == Some(code)
    requires -32010 <= code <= -32001
    ensures res.status == Failed
  {
    ShownAndMissedIsAGap(r, res, i, a);
  }

  /** Every attempt of every step was answered, by something that never announced the guardrail. */
  ghost predicate Off(r: Rehearsal) {
    forall i: nat, a: nat {:trigger r.out.reply(i, a)} :: i < |r.steps| ==>
      Answered(r.JobAt(i), a) && !Announces(r.JobAt(i), ReplyTo(r.JobAt(i), a))
  }

  ghost predicate NoneWaits(r: Rehearsal) {
    forall i :: 0 <= i < |r.steps| ==> r.steps[i].wanted.event.None? && !Brokerless(r.JobAt(i))
  }

  /** A guardrail that is off is skipped where the scenario names it, and a gap where it does not. */
  lemma OffIsSkippedWhereNamed(r: Rehearsal, res: Result)
    requires r.Returns(res) && Off(r) && NoneWaits(r) && !AllMet(r)
    ensures res.status == if r.needs != "" then Skipped else Failed
  {
    VerdictByReplies(r, res);
    forall i | 0 <= i < |r.steps| ensures !Fails(r.JobAt(i)) && !Announced(r.JobAt(i)) {
      var j := r.JobAt(i);
      forall a: nat ensures Answered(j, a) && !Announces(j, ReplyTo(j, a)) {
        var _ := r.out.reply(i, a);
      }
    }
  }

  // ---- which requests are sent ------------------------------------------------------------------

  /** A request of the step was refused for the credential. */
  ghost predicate Refuses(j: Job) {
    exists a: nat :: Made(j, a) && RefusedReply(j, a)
  }

  /** This attempt of this step is made: the step goes so far, and no step before it was refused. */
  ghost predicate Sent(r: Rehearsal, i: nat, a: nat) {
    i < |r.steps| && Made(r.JobAt(i), a) && forall k :: 0 <= k < i ==> !Refuses(r.JobAt(k))
  }

  lemma RefusesIff(j: Job)
    ensures Refuses(j) <==> j.Outcome().refused
  {
    var s := j.StopAt();
    KindIs(j.step);
    MadeIff(j, s);
    forall a: nat | Made(j, a) && RefusedReply(j, a) ensures j.Outcome().refused {
      MadeIff(j, a);
      RefusalStops(j, a);
    }
    if j.Outcome().refused {
      ContainsIff(ReplyTo(j, s).body, "identity_mismatch");
      assert Made(j, s) && RefusedReply(j, s);
    }
  }

  lemma RunIff(r: Rehearsal, i: nat)
    requires i < |r.steps|
    ensures i < r.Count() <==> forall k :: 0 <= k < i ==> !Refuses(r.JobAt(k))
  {
    forall k | 0 <= k < |r.steps| ensures Refuses(r.JobAt(k)) <==> r.Outcomes()[k].refused {
      OutcomeAt(r, k);
      RefusesIff(r.JobAt(k));
    }
  }

  lemma {:induction false} TraceHas(r: Rehearsal, n: nat, i: nat, a: nat)
    requires n <= |r.steps| && i < n && 1 <= a <= r.Outcomes()[i].calls
    ensures (i, a) in r.Trace(n)
  {
    var more := r.JobAt(n - 1).Requests(r.Outcomes()[n - 1].calls);
    if i == n - 1 {
      assert more[a - 1] == (i, a);
    } else {
      TraceHas(r, n - 1, i, a);
    }
  }

  /** The requests of a run are exactly these. */
  lemma SentIff(r: Rehearsal, i: nat, a: nat)
    ensures (i, a) in r.Trace(r.Count()) <==> Sent(r, i, a)
  {
    if (i, a) in r.Trace(r.Count()) {
      InTrace(r, r.Count(), i, a);
    }
    if i < |r.steps| {
      RunIff(r, i);
      OutcomeAt(r, i);
      CallsAreStops(r.JobAt(i));
      MadeIff(r.JobAt(i), a);
      if Sent(r, i, a) {
        TraceHas(r, r.Count(), i, a);
      }
    }
  }

  /** One request comes before another: in an earlier step, or in an earlier attempt of the same. */
  predicate Earlier(p: (nat, nat), q: (nat, nat)) {
    p.0 < q.0 || (p.0 == q.0 && p.1 < q.1)
  }

  /** They are sent in order, each once. */
  lemma {:induction false} SentInOrder(r: Rehearsal, n: nat, k: nat, l: nat)
    requires n <= |r.steps| && k < l < |r.Trace(n)|
    ensures Earlier(r.Trace(n)[k], r.Trace(n)[l])
  {
    var front := r.Trace(n - 1);
    if l < |front| {
      SentInOrder(r, n - 1, k, l);
    } else if k < |front| {
      InTrace(r, n - 1, front[k].0, front[k].1);
    }
  }
}
