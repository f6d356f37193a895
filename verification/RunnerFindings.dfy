/** What the findings of a run tell, from the replies: that each is true, that none is missing, and no secret in them. */
module RunnerFindings {
  import opened Options
  import opened Scenario
  import opened Redact
  import opened Runner
  import opened Headers
  import opened RunnerProofs
  import opened RunnerReplies

  // ---- what a finding says ----------------------------------------------------------------------

  function RunOf(j: Job): string {
    if j.step.headers.runID != "" then j.step.headers.runID else j.runID
  }

  function AgentOf(j: Job): string {
    if j.tgt.agentID != "" then j.tgt.agentID else j.step.headers.agentID
  }

  /** The reply came in time and was the expected one, so what is missing is this event. */
  ghost predicate LacksEvent(j: Job, a: nat, e: EventExpect) {
    Made(j, a) && Answered(j, a) && Meets(j, ReplyTo(j, a)) && a <= Due(j) && j.step.wanted.event == Some(e)
  }

  /** The gateway refused the credential, with this status. */
  ghost predicate RefusedWith(j: Job, a: nat, status: int) {
    Made(j, a) && RefusedReply(j, a) && ReplyTo(j, a).status == status
  }

  /** A reply came that is no answer in the protocol of the step. */
  ghost predicate Garbled(j: Job, a: nat, status: int, body: string) {
    var r := ReplyTo(j, a);
    Made(j, a) && !RefusedReply(j, a) && r.Reply? && !Speaks(j, r) && r.status == status && r.body == body
  }

  /** The last attempt was answered, and not as expected. */
  ghost predicate NeverMet(j: Job, a: nat) {
    Made(j, a) && a == Tries(j) && Answered(j, a) && !Meets(j, ReplyTo(j, a))
  }

  /** The sentence is true of the attempt. */
  ghost predicate IsTrue(j: Job, a: nat, w: Words) {
    match w
    case NoBrokerWords => Brokerless(j) && a == 1
    case RequestFailed(why) => Made(j, a) && ReplyTo(j, a) == NoReply(why)
    case RefusedWithoutKey => RefusedWith(j, a, 401) && j.tgt.clientKey == ""
    case RefusedWithKey => RefusedWith(j, a, 401) && j.tgt.clientKey != ""
    case RefusedAgent(agent) => RefusedWith(j, a, 403) && agent == AgentOf(j)
    case NoDecision(status, body) => OnlyToolCheck(j.step) && Garbled(j, a, status, body)
    case NotRpc(status, body) => OnlyMCP(j.step) && Garbled(j, a, status, body)
    case NoMatchMessages(status, due, got, tries) =>
      && OnlyMessages(j.step) && NeverMet(j, a) && status == j.step.wanted.status && got == ReplyTo(j, a).status
      && due == Due(j) && tries == Tries(j)
    case NoMatch(due, tries) => !OnlyMessages(j.step) && NeverMet(j, a) && due == Due(j) && tries == Tries(j)
    case Late(at, due) => Made(j, a) && Answered(j, a) && Meets(j, ReplyTo(j, a)) && at == a && due == Due(j) && due < a
    case NoWatcher(e) => LacksEvent(j, a, e) && !j.tgt.hasWatcher
    case WatchError(e, run, why) =>
      LacksEvent(j, a, e) && j.tgt.hasWatcher && run == RunOf(j) && j.out.watched(j.index, a) == WatchFailed(why)
    case NoEvent(e, run, refused) =>
      LacksEvent(j, a, e) && j.tgt.hasWatcher && run == RunOf(j) && j.out.watched(j.index, a) == NotSeen(refused)
    case _ => false
  }

  /** It is about an event. */
  predicate EventOf(w: Words, source: string, kind: string) {
    match w
    case NoWatcher(e) => source == e.source && kind == e.kind
    case WatchError(e, _, _) => source == e.source && kind == e.kind
    case NoEvent(e, _, _) => source == e.source && kind == e.kind
    case _ => source == "" && kind == ""
  }

  function KindText(j: Job): string {
    if OnlyToolCheck(j.step) then "tool_check" else if OnlyMCP(j.step) then "mcp" else ""
  }

  /** What the step asked for, and what it got, where its kind is told in words. */
  predicate AskedIs(j: Job, asked: string) {
    var w := j.step.wanted;
    if OnlyMessages(j.step) then asked == ""
    else if OnlyToolCheck(j.step) then asked == j.out.say(WantsDecision(w.decision))
    else if !OnlyMCP(j.step) then asked == j.out.say(WantsStatus(w.status))
    else match w.errorCode
      case Some(code) => asked == j.out.say(WantsError(code, w.errorContains))
      case None => asked == j.out.say(WantsResult)
  }

  ghost predicate GotIs(j: Job, a: nat, got: string) {
    if Brokerless(j) || !Answered(j, a) then got == ""
    else if OnlyToolCheck(j.step) then got == j.out.say(Decided(ReplyTo(j, a).tool.value))
    else if !OnlyMCP(j.step) then got == ""
    else match ReplyTo(j, a).rpc.value.error
      case Some(e) => got == j.out.say(RpcFailed(e.code.value, e.message))
      case None => got == j.out.say(RpcResult)
  }

  /** What came back, if anything did. */
  ghost predicate CameBack(j: Job, a: nat, status: int, headers: map<string, string>) {
    var r := ReplyTo(j, a);
    if Brokerless(j) || r.NoReply? then status == 0 && headers == map[] else status == r.status && headers == r.headers
  }

  ghost predicate Expects(j: Job, status: int, headers: map<string, string>) {
    if OnlyMessages(j.step) then status == j.step.wanted.status && headers == j.step.wanted.header
    else status == 0 && headers == map[]
  }

  /** The finding, before it is redacted: every field of it. */
  ghost predicate Tells(j: Job, a: nat, name: string, f: Finding) {
    && f.scenario == name && f.step == j.step.name && f.attempt == a
    && Expects(j, f.expectStatus, f.expectHeader) && CameBack(j, a, f.gotStatus, f.gotHeaders)
    && f.kind == KindText(j) && AskedIs(j, f.asked) && GotIs(j, a, f.got)
    && exists w :: IsTrue(j, a, w) && f.detail == j.out.say(w) && EventOf(w, f.eventSource, f.eventType)
  }

  // ---- that it does -----------------------------------------------------------------------------

  lemma NewTells(j: Job, a: nat, p: Probe, w: Words)
    ensures var f := j.NewFinding(a, p, w);
      && f.scenario == "" && f.step == j.step.name && f.attempt == a && f.detail == j.out.say(w)
      && f.eventSource == "" && f.eventType == "" && Expects(j, f.expectStatus, f.expectHeader)
      && f.gotStatus == p.status && f.gotHeaders == p.headers && f.kind == KindText(j) && AskedIs(j, f.asked)
      && f.got == if OnlyMessages(j.step) then "" else p.got
  {
    KindIs(j.step);
  }

  lemma ProbeTells(j: Job, a: nat)
    requires !Brokerless(j)
    ensures var p := j.ProbeAt(a);
      CameBack(j, a, p.status, p.headers) && GotIs(j, a, if OnlyMessages(j.step) then "" else p.got)
  {
    KindIs(j.step);
    NormalIff(j, a);
  }

  /** The sentence for an attempt that ended the step abnormally. */
  lemma AbnormalIsTrue(j: Job, a: nat) returns (w: Words)
    requires LastMade(j, a) && !j.Normal(a)
    ensures IsTrue(j, a, w) && EventOf(w, "", "")
    ensures match j.ProbeAt(a).failure
      case Transport(v) => v == w case Unreadable(v) => v == w case Refusal(v) => v == w case NoFailure => false
  {
    var r := ReplyTo(j, a);
    KindIs(j.step);
    NormalIff(j, a);
    if r.Reply? {
      ContainsIff(r.body, "identity_mismatch");
    }
    var f := j.ProbeAt(a).failure;
    w := match f case Transport(v) => v case Unreadable(v) => v case Refusal(v) => v case NoFailure => NoBrokerWords;
  }

  lemma NoMatchIsTrue(j: Job, a: nat)
    requires LastMade(j, a) && j.Normal(a) && !j.ProbeAt(a).matched
    ensures IsTrue(j, a, j.NoMatchWords(j.ProbeAt(a))) && EventOf(j.NoMatchWords(j.ProbeAt(a)), "", "")
  {
    KindIs(j.step);
    ClampsAre(j);
    ProbeReads(j, a);
    ProbeTells(j, a);
  }

  /** The finding of an event that was not seen. */
  lemma EventIsTrue(j: Job, a: nat, o: StepOutcome) returns (w: Words)
    requires LastMade(j, a) && j.Normal(a) && j.ProbeAt(a).matched && a <= j.Deadline()
    requires o.finding.None? && j.EventOutcome(a, o).finding.Some?
    ensures IsTrue(j, a, w) && j.step.wanted.event.Some?
    ensures j.EventOutcome(a, o).finding == Some(j.EventFinding(a, j.ProbeAt(a), j.step.wanted.event.value, w))
    ensures EventOf(w, j.step.wanted.event.value.source, j.step.wanted.event.value.kind)
  {
    ClampsAre(j);
    ProbeReads(j, a);
    var e := j.step.wanted.event.value;
    w := if !j.tgt.hasWatcher then NoWatcher(e) else match j.out.watched(j.index, a)
      case WatchFailed(why) => WatchError(e, RunOf(j), why)
      case NotSeen(n) => NoEvent(e, RunOf(j), n)
      case Seen => NoBrokerWords;
  }

  /** A finding made so of the probe of an attempt. */
  lemma MadeTells(j: Job, a: nat, p: Probe, w: Words, name: string)
    requires LastMade(j, a) && IsTrue(j, a, w) && EventOf(w, "", "")
    requires p == j.ProbeAt(a) || (p == NOTHING && ReplyTo(j, a).NoReply?)
    ensures Tells(j, a, name, j.NewFinding(a, p, w).(scenario := name))
  {
    NewTells(j, a, p, w);
    ProbeTells(j, a);
  }

  lemma EventTells(j: Job, a: nat, w: Words, e: EventExpect, name: string)
    requires LastMade(j, a) && IsTrue(j, a, w) && EventOf(w, e.source, e.kind)
    ensures Tells(j, a, name, j.EventFinding(a, j.ProbeAt(a), e, w).(scenario := name))
  {
    NewTells(j, a, j.ProbeAt(a), w);
    ProbeTells(j, a);
  }

  lemma NoBrokerTells(j: Job, name: string)
    requires Brokerless(j)
    ensures Tells(j, 1, name, j.NewFinding(1, NOTHING, NoBrokerWords).(scenario := name))
  {
    NewTells(j, 1, NOTHING, NoBrokerWords);
    assert IsTrue(j, 1, NoBrokerWords);
  }

  lemma AttemptTells(j: Job, a: nat, name: string)
    requires LastMade(j, a) && j.OutcomeAt(a).finding.Some?
    ensures Tells(j, a, name, j.OutcomeAt(a).finding.value.(scenario := name))
  {
    var p := j.ProbeAt(a);
    var o := StepOutcome(a, j.Signalled(a), p.failure.Transport?, false, p.failure.Unreadable?, p.failure.Refusal?, None);
    if !j.Normal(a) {
      var w := AbnormalIsTrue(j, a);
      MadeTells(j, a, if p.failure.Transport? then NOTHING else p, w, name);
    } else if !p.matched {
      NoMatchIsTrue(j, a);
      MadeTells(j, a, p, j.NoMatchWords(p), name);
    } else if a <= j.Deadline() {
      var w := EventIsTrue(j, a, o);
      EventTells(j, a, w, j.step.wanted.event.value, name);
    } else {
      LateIsTrue(j, a);
      MadeTells(j, a, p, Late(a, j.Deadline()), name);
    }
  }

  lemma LateIsTrue(j: Job, a: nat)
    requires LastMade(j, a) && j.Normal(a) && j.ProbeAt(a).matched && a > j.Deadline()
    ensures IsTrue(j, a, Late(a, j.Deadline()))
  {
    ClampsAre(j);
    ProbeReads(j, a);
  }

  lemma OutcomeTells(j: Job, name: string) returns (a: nat)
    requires j.Outcome().finding.Some?
    ensures Tells(j, a, name, j.Outcome().finding.value.(scenario := name))
    ensures Brokerless(j) || LastMade(j, a)
  {
    ClampsAre(j);
    if Brokerless(j) {
      a := 1;
      NoBrokerTells(j, name);
    } else {
      a := j.StopAt();
      MadeIff(j, a);
      AttemptTells(j, a, name);
    }
  }

  // ---- over a run -------------------------------------------------------------------------------

  function FindingsIn(res: Result): seq<Finding> {
    if res.status == Failed then res.findings else res.skippedFindings
  }

  /** The finding tells of the last attempt of a step that was run and did not get what it expects. */
  ghost predicate TellsOf(r: Rehearsal, i: nat, a: nat, raw: Finding) {
    && i < r.Count() && !Met(r.JobAt(i)) && (Brokerless(r.JobAt(i)) || LastMade(r.JobAt(i), a))
    && Tells(r.JobAt(i), a, r.name, raw)
  }

  lemma StepTells(r: Rehearsal, i: nat) returns (a: nat)
    requires i < r.Count() && r.Outcomes()[i].finding.Some?
    ensures TellsOf(r, i, a, r.Outcomes()[i].finding.value.(scenario := r.name))
  {
    var j := r.JobAt(i);
    OutcomeAt(r, i);
    NoFindingIffHolds(j);
    HoldsByReplies(j);
    a := OutcomeTells(j, r.name);
  }

  lemma {:induction false} FindingComesFrom(os: seq<StepOutcome>, n: nat, name: string, k: nat) returns (i: nat)
    requires n <= |os| && k < |FindingsOf(os, n, name)|
    ensures i < n && os[i].finding.Some? && FindingsOf(os, n, name)[k] == os[i].finding.value.(scenario := name)
  {
    if k < |FindingsOf(os, n - 1, name)| {
      i := FindingComesFrom(os, n - 1, name, k);
    } else {
      i := n - 1;
    }
  }

  lemma {:induction false} FindingGoesTo(os: seq<StepOutcome>, n: nat, name: string, i: nat) returns (k: nat)
    requires i < n <= |os| && os[i].finding.Some?
    ensures k < |FindingsOf(os, n, name)| && FindingsOf(os, n, name)[k] == os[i].finding.value.(scenario := name)
  {
    if i == n - 1 {
      k := |FindingsOf(os, n - 1, name)|;
    } else {
      k := FindingGoesTo(os, n - 1, name, i);
    }
  }

  lemma ResultIsRedacted(r: Rehearsal, res: Result)
    requires r.Returns(res)
    ensures AllRedacted(FindingsOf(r.Outcomes(), r.Count(), r.name), r.Keys(), FindingsIn(res))
    ensures forall f :: f in res.findings || f in res.skippedFindings ==> f in FindingsIn(res)
  {
    NameDoesNotMatter(r.Outcomes(), r.Count(), r.name, "");
  }

  /** Every finding in a result is one that tells the truth of its step, redacted. */
  lemma FindingsTellTruth(r: Rehearsal, res: Result, f: Finding) returns (i: nat, a: nat, raw: Finding)
    requires r.Returns(res) && (f in res.findings || f in res.skippedFindings)
    ensures TellsOf(r, i, a, raw) && Redacted(raw, [r.tgt.clientKey, r.tgt.apiKey], f)
  {
    ResultIsRedacted(r, res);
    var fs := FindingsOf(r.Outcomes(), r.Count(), r.name);
    var k :| 0 <= k < |FindingsIn(res)| && FindingsIn(res)[k] == f;
    i := FindingComesFrom(r.Outcomes(), r.Count(), r.name, k);
    raw := fs[k];
    a := StepTells(r, i);
  }

  /** Every step that was run and did not get what it expects has its finding in the result. */
  lemma MissesAreFound(r: Rehearsal, res: Result, i: nat) returns (k: nat, a: nat, raw: Finding)
    requires r.Returns(res) && i < r.Count() && !Met(r.JobAt(i))
    ensures k < |FindingsIn(res)| && TellsOf(r, i, a, raw)
    ensures Redacted(raw, [r.tgt.clientKey, r.tgt.apiKey], FindingsIn(res)[k])
  {
    ResultIsRedacted(r, res);
    OutcomeAt(r, i);
    NoFindingIffHolds(r.JobAt(i));
    HoldsByReplies(r.JobAt(i));
    a := StepTells(r, i);
    k := FindingGoesTo(r.Outcomes(), r.Count(), r.name, i);
    raw := FindingsOf(r.Outcomes(), r.Count(), r.name)[k];
  }

  // ---- secrets ----------------------------------------------------------------------------------

  /** The key stands in no text of the scenario that a finding could carry. */
  ghost predicate ScenarioFreeOf(r: Rehearsal, key: string) {
    !Occurs(key, r.name) && forall i :: 0 <= i < |r.steps| ==> StepFreeOf(r.JobAt(i), key)
  }

  ghost predicate StepFreeOf(j: Job, key: string) {
    && !Occurs(key, j.step.name) && !Occurs(key, KindText(j))
    && HeaderFreeOf(j.step.wanted.header, key)
    && (j.step.wanted.event.Some? ==>
          !Occurs(key, j.step.wanted.event.value.source) && !Occurs(key, j.step.wanted.event.value.kind))
  }

  /** What a finding has from the scenario holds no key that the scenario does not. */
  lemma TellsFreeOf(j: Job, a: nat, name: string, f: Finding, key: string)
    requires Tells(j, a, name, f) && key != "" && StepFreeOf(j, key) && !Occurs(key, name)
    ensures FreeOf(f, key)
  {
    assert forall i: nat :: !OccursAt(key, "", i);
    var w :| IsTrue(j, a, w) && f.detail == j.out.say(w) && EventOf(w, f.eventSource, f.eventType);
  }

  /** A finding of a result holds a safe key exactly when one of the texts it has from the scenario does. */
  lemma FindingIsSecretlessIff(r: Rehearsal, res: Result, f: Finding, k: string)
    requires r.Returns(res) && (f in res.findings || f in res.skippedFindings) && k in r.Keys() && Safe(k)
    ensures Secretless(f, k) <==> FreeOf(f, k)
  {
    NoSecretInResult(r, res, f, k);
  }

  /** When no text of the scenario holds a key, no text of the result does, whatever the gateway echoes. */
  lemma ResultIsSecretless(r: Rehearsal, res: Result, f: Finding, k: string)
    requires r.Returns(res) && (f in res.findings || f in res.skippedFindings) && k in r.Keys() && Safe(k)
    requires ScenarioFreeOf(r, k)
    ensures Secretless(f, k)
  {
    var i, a, raw := FindingsTellTruth(r, res, f);
    TellsFreeOf(r.JobAt(i), a, r.name, raw, k);
    SecretlessIff(raw, r.Keys(), f, k);
  }
}
