/**
 The rehearsal engine of internal/runner/runner.go: a scenario's steps, each tried up to its repeat
 count, against whatever the gateway, the broker and the watcher answer.

 The outside world is an oracle that gives the reply to each attempt of each step. What a reply says in
 words is one more function of it, since only where such text may come from matters here.
 */
module Runner {
  import opened Options
  import opened Scenario
  import opened Redact

  // ---- the outside world ------------------------------------------------------------------------

  datatype ToolAnswer = ToolAnswer(decision: string, governed: bool, wouldBlock: Option<string>)
  datatype RpcError = RpcError(code: Option<int>, message: string)
  datatype Rpc = Rpc(hasResult: bool, error: Option<RpcError>)

  /** What came back, or that nothing did. tool and rpc are the body decoded, when it decodes. */
  datatype Reply =
    | NoReply(why: string)
    | Reply(status: int, headers: map<string, string>, body: string, tool: Option<ToolAnswer>, rpc: Option<Rpc>)

  datatype Watched = Seen | NotSeen(refusedOnTime: nat) | WatchFailed(why: string)

  /** What a text in a report is about; how it is worded is left to the oracle. */
  datatype Words =
    | NoBrokerWords | RequestFailed(why: string) | NoDecision(status: int, body: string) | NotRpc(status: int, body: string)
    | RefusedWithoutKey | RefusedWithKey | RefusedAgent(agentID: string)
    | NoWatcher(e: EventExpect) | WatchError(e: EventExpect, runID: string, why: string)
    | NoEvent(e: EventExpect, runID: string, refusedOnTime: nat)
    | Late(attempt: nat, deadline: int) | NoMatchMessages(status: int, deadline: int, got: int, repeat: int)
    | NoMatch(deadline: int, repeat: int)
    | Decided(a: ToolAnswer) | RpcFailed(code: int, message: string) | RpcResult
    | WantsDecision(decision: string) | WantsError(code: int, contains: string) | WantsResult | WantsStatus(status: int)

  datatype Outside = Outside(
    reply: (nat, nat) -> Reply,       // to this attempt of the step with this index
    watched: (nat, nat) -> Watched,   // after that attempt
    say: Words -> string)

  datatype Target = Target(broker: string, apiKey: string, clientKey: string, agentID: string, hasWatcher: bool)

  // ---- one attempt ------------------------------------------------------------------------------

  datatype Failure = NoFailure | Transport(w: Words) | Unreadable(w: Words) | Refusal(w: Words)

  datatype Probe = Probe(
    status: int, headers: map<string, string>, matched: bool, signal: bool, got: string, failure: Failure)

  const NOTHING := Probe(0, map[], false, false, "", NoFailure)

  function LowerChar(c: char): char {
    if 'A' <= c <= 'Z' then ((c as int) + 32) as char else c
  }

  function Lower(s: string): string {
    if s == "" then "" else [LowerChar(s[0])] + Lower(s[1..])
  }

  /** http.Header.Get: names are canonical, here in lower case, and so is what is asked for. */
  function Get(h: map<string, string>, name: string): string {
    if Lower(name) in h then h[Lower(name)] else ""
  }

  predicate Matches(w: Wanted, status: int, h: map<string, string>) {
    status == w.status && forall k :: k in w.header ==> Get(h, k) == w.header[k]
  }

  predicate Contains(s: string, part: string) {
    exists i :: 0 <= i <= |s| && OccursAt(part, s, i)
  }

  /** credentialRefusal: why the gateway refused the credential, or None when it did not. */
  function CredentialRefusal(status: int, body: string, clientKey: string, agentID: string): Option<Words> {
    if status == 401 then Some(if clientKey == "" then RefusedWithoutKey else RefusedWithKey)
    else if status == 403 && Contains(body, "identity_mismatch") then Some(RefusedAgent(agentID))
    else None
  }

  const BROKER_CODE_LOW := -32010
  const BROKER_CODE_HIGH := -32001

  /** One step of a run, with everything its attempts depend on. */
  datatype Job = Job(out: Outside, tgt: Target, needs: string, runID: string, index: nat, step: Step)
  {
    function Kind(): Scenario.Kind {
      KindOf(step)
    }

    function Repeat(): (n: nat)
      ensures n >= 1
    {
      if step.repeat <= 0 then 1 else step.repeat
    }

    function Deadline(): (n: nat)
      ensures 1 <= n <= Repeat()
    {
      var w := step.wanted.withinRepeats;
      if w <= 0 || w > Repeat() then Repeat() else w
    }

    function SignalHeader(): string {
      if needs != "" && Kind() == KindMessages then "x-fuse-" + Lower(needs) else ""
    }

    function RunID(): string {
      if step.headers.runID == "" then runID else step.headers.runID
    }

    function AgentID(): string {
      if tgt.agentID != "" then tgt.agentID else step.headers.agentID
    }

    predicate NoBroker() {
      Kind() == KindMCP && tgt.broker == ""
    }

    function Refused(r: Reply): Option<Words>
      requires r.Reply?
    {
      CredentialRefusal(r.status, r.body, tgt.clientKey, AgentID())
    }

    function ProbeMessages(r: Reply): Probe
      requires r.Reply?
    {
      var refusal := Refused(r);
      Probe(r.status, r.headers, Matches(step.wanted, r.status, r.headers),
            SignalHeader() != "" && Get(r.headers, SignalHeader()) != "", "",
            if refusal.Some? then Refusal(refusal.value) else NoFailure)
    }

    function ProbeToolCheck(r: Reply): Probe
      requires r.Reply?
    {
      var refusal, p := Refused(r), NOTHING.(status := r.status, headers := r.headers);
      if refusal.Some? then p.(failure := Refusal(refusal.value))
      else if r.status != 200 || r.tool.None? || r.tool.value.decision == "" then
        p.(failure := Unreadable(NoDecision(r.status, r.body)))
      else
        p.(got := out.say(Decided(r.tool.value)), matched := r.tool.value.decision == step.wanted.decision,
           signal := r.tool.value.governed)
    }

    function ProbeMCP(r: Reply): Probe
      requires r.Reply?
    {
      var p := NOTHING.(status := r.status, headers := r.headers);
      if r.rpc.None? || (r.rpc.value.error.None? && !r.rpc.value.hasResult)
         || (r.rpc.value.error.Some? && r.rpc.value.error.value.code.None?) then
        p.(failure := Unreadable(NotRpc(r.status, r.body)))
      else if r.rpc.value.error.Some? then
        var code, message := r.rpc.value.error.value.code.value, r.rpc.value.error.value.message;
        var want := step.wanted.errorCode;
        p.(got := out.say(RpcFailed(code, message)), signal := BROKER_CODE_LOW <= code <= BROKER_CODE_HIGH,
           matched := want.Some? && code == want.value
             && (step.wanted.errorContains == "" || Contains(message, step.wanted.errorContains)))
      else
        p.(got := out.say(RpcResult), matched := step.wanted.result)
    }

    /** probe: what this attempt observes. */
    function ProbeAt(attempt: nat): Probe {
      var r := out.reply(index, attempt);
      if r.NoReply? then NOTHING.(failure := Transport(RequestFailed(r.why)))
      else match Kind()
        case KindToolCheck => ProbeToolCheck(r)
        case KindMCP => ProbeMCP(r)
        case _ => ProbeMessages(r)
    }

    // ---- findings ----

    function WantedText(): string {
      match Kind()
      case KindToolCheck => out.say(WantsDecision(step.wanted.decision))
      case KindMCP =>
        out.say(if step.wanted.errorCode.Some?
                then WantsError(step.wanted.errorCode.value, step.wanted.errorContains) else WantsResult)
      case _ => out.say(WantsStatus(step.wanted.status))
    }

    function KindName(): string {
      match Kind()
      case KindToolCheck => "tool_check"
      case KindMCP => "mcp"
      case _ => ""
    }

    function NewFinding(attempt: nat, p: Probe, w: Words): Finding {
      var f := Finding("", step.name, attempt, 0, map[], p.status, p.headers, out.say(w), "", "", "", "", "");
      if Kind() == KindMessages then f.(expectStatus := step.wanted.status, expectHeader := step.wanted.header)
      else f.(kind := KindName(), asked := WantedText(), got := p.got)
    }

    function EventFinding(attempt: nat, p: Probe, e: EventExpect, w: Words): Finding {
      NewFinding(attempt, p, w).(eventSource := e.source, eventType := e.kind)
    }

    function NoMatchWords(last: Probe): Words {
      if Kind() == KindMessages then NoMatchMessages(step.wanted.status, Deadline(), last.status, Repeat())
      else NoMatch(Deadline(), Repeat())
    }

    // ---- what stops the attempts ----

    /** The attempt was answered, readably, by a gateway that knows the credential. */
    predicate Normal(a: nat) {
      ProbeAt(a).failure.NoFailure?
    }

    /** No attempt follows this one. */
    predicate Stops(a: nat) {
      !Normal(a) || ProbeAt(a).matched
    }

    function StopFrom(a: nat): (r: nat)
      requires 1 <= a <= Repeat()
      ensures a <= r <= Repeat()
      ensures forall b :: a <= b < r ==> !Stops(b)
      ensures r < Repeat() ==> Stops(r)
      decreases Repeat() - a
    {
      if a == Repeat() || Stops(a) then a else StopFrom(a + 1)
    }

    /** The last attempt made. */
    function StopAt(): nat {
      StopFrom(1)
    }

    /** The guardrail showed itself on some answered attempt up to a. */
    predicate Signalled(a: nat) {
      exists b :: 1 <= b <= a && Normal(b) && ProbeAt(b).signal
    }

    /** What a match in time comes to, once its event has been waited for. */
    function EventOutcome(a: nat, o: StepOutcome): StepOutcome {
      var p, event := ProbeAt(a), step.wanted.event;
      if event.None? then o
      else if !tgt.hasWatcher then
        o.(watcherError := true, finding := Some(EventFinding(a, p, event.value, NoWatcher(event.value))))
      else match out.watched(index, a)
        case Seen => o
        case WatchFailed(why) =>
          o.(watcherError := true, finding := Some(EventFinding(a, p, event.value, WatchError(event.value, RunID(), why))))
        case NotSeen(n) => o.(finding := Some(EventFinding(a, p, event.value, NoEvent(event.value, RunID(), n))))
    }

    /** What stopping at attempt a comes to. */
    function OutcomeAt(a: nat): StepOutcome {
      var p := ProbeAt(a);
      var o := StepOutcome(a, Signalled(a), p.failure.Transport?, false, p.failure.Unreadable?, p.failure.Refusal?, None);
      match p.failure
      case Transport(w) => o.(finding := Some(NewFinding(a, NOTHING, w)))
      case Unreadable(w) => o.(finding := Some(NewFinding(a, p, w)))
      case Refusal(w) => o.(finding := Some(NewFinding(a, p, w)))
      case NoFailure =>
        if !p.matched then o.(finding := Some(NewFinding(a, p, NoMatchWords(p))))
        else if a <= Deadline() then EventOutcome(a, o)
        else o.(finding := Some(NewFinding(a, p, Late(a, Deadline()))))
    }

    /** What the step comes to. */
    function Outcome(): StepOutcome {
      if NoBroker() then NO_STEP.(unreadable := true, finding := Some(NewFinding(1, NOTHING, NoBrokerWords)))
      else OutcomeAt(StopAt())
    }

    /** The requests the step sends: (step, attempt), in order. */
    ghost function Requests(n: nat): seq<(nat, nat)> {
      seq(n, k requires 0 <= k < n => var a: nat := k + 1; (index, a))
    }
  }

  datatype StepOutcome = StepOutcome(
    calls: nat, signalSeen: bool, transportError: bool, watcherError: bool, unreadable: bool, refused: bool,
    finding: Option<Finding>)

  const NO_STEP := StepOutcome(0, false, false, false, false, false, None)

  /** The wait for the event a match in time declared. */
  method AwaitEvent(j: Job, a: nat, p: Probe, o: StepOutcome) returns (out: StepOutcome)
    requires p == j.ProbeAt(a)
    ensures out == j.EventOutcome(a, o)
  {
    out := o;
    if j.step.wanted.event.Some? {
      var ev := j.step.wanted.event.value;
      if !j.tgt.hasWatcher {
        out := out.(watcherError := true);
        return out.(finding := Some(j.EventFinding(a, p, ev, NoWatcher(ev))));
      }
      var w := j.out.watched(j.index, a);
      if w.WatchFailed? {
        out := out.(watcherError := true);
        return out.(finding := Some(j.EventFinding(a, p, ev, WatchError(ev, j.RunID(), w.why))));
      }
      if w.NotSeen? {
        return out.(finding := Some(j.EventFinding(a, p, ev, NoEvent(ev, j.RunID(), w.refusedOnTime))));
      }
    }
  }

  lemma StopIs(j: Job, a: nat)
    requires 1 <= a <= j.Repeat() && (forall b :: 1 <= b < a ==> !j.Stops(b)) && (j.Stops(a) || a == j.Repeat())
    ensures j.StopAt() == a
  {
  }

  /** Every attempt was answered, and none matched. */
  lemma Exhausted(j: Job)
    requires forall b :: 1 <= b <= j.Repeat() ==> !j.Stops(b)
    ensures var n := j.Repeat();
      j.OutcomeAt(n) == NO_STEP.(calls := n, signalSeen := j.Signalled(n),
                                 finding := Some(j.NewFinding(n, j.ProbeAt(n), j.NoMatchWords(j.ProbeAt(n)))))
  {
    assert !j.Stops(j.Repeat());
  }

  lemma SignalledMore(j: Job, a: nat)
    requires a >= 1
    ensures j.Signalled(a) == (j.Signalled(a - 1) || (j.Normal(a) && j.ProbeAt(a).signal))
  {
  }

  lemma RequestsMore(j: Job, a: nat)
    requires a >= 1
    ensures j.Requests(a) == j.Requests(a - 1) + [(j.index, a)]
  {
  }

  /** An attempt that ends the step: a failure, a refusal, or a match. */
  method Conclude(j: Job, attempt: nat, deadline: nat, p: Probe, o: StepOutcome) returns (out: StepOutcome)
    requires p == j.ProbeAt(attempt) && j.Stops(attempt) && deadline == j.Deadline()
    requires o == NO_STEP.(calls := attempt, signalSeen := j.Signalled(attempt))
    ensures out == j.OutcomeAt(attempt)
  {
    match p.failure
    case Transport(w) => out := o.(transportError := true, finding := Some(j.NewFinding(attempt, NOTHING, w)));
    case Unreadable(w) => out := o.(unreadable := true, finding := Some(j.NewFinding(attempt, p, w)));
    case Refusal(w) => out := o.(refused := true, finding := Some(j.NewFinding(attempt, p, w)));
    case NoFailure =>
      if attempt <= deadline {
        out := AwaitEvent(j, attempt, p, o);
      } else {
        out := o.(finding := Some(j.NewFinding(attempt, p, Late(attempt, deadline))));
      }
  }

  /** The function runStep. sent is the requests it makes. */
  method RunStep(j: Job) returns (out: StepOutcome, ghost sent: seq<(nat, nat)>)
    ensures out == j.Outcome()
    ensures sent == j.Requests(out.calls)
  {
    out, sent := NO_STEP, [];
    var repeat := j.step.repeat;
    if repeat <= 0 {
      repeat := 1;
    }
    var deadline := j.step.wanted.withinRepeats;
    if deadline <= 0 || deadline > repeat {
      deadline := repeat;
    }
    if j.NoBroker() {
      out := out.(unreadable := true, finding := Some(j.NewFinding(1, NOTHING, NoBrokerWords)));
      return;
    }
    var last := NOTHING;
    for attempt := 1 to repeat + 1
      invariant out == NO_STEP.(calls := attempt - 1, signalSeen := j.Signalled(attempt - 1))
      invariant sent == j.Requests(attempt - 1)
      invariant forall b :: 1 <= b < attempt ==> !j.Stops(b)
      invariant attempt > 1 ==> last == j.ProbeAt(attempt - 1)
    {
      var p := j.ProbeAt(attempt);
      sent := sent + [(j.index, attempt)];
      RequestsMore(j, attempt);
      SignalledMore(j, attempt);
      out := out.(calls := out.calls + 1, signalSeen := out.signalSeen || (p.failure.NoFailure? && p.signal));
      if !p.failure.NoFailure? || p.matched {
        StopIs(j, attempt);
        out := Conclude(j, attempt, deadline, p, out);
        assert out.calls == attempt;
        return;
      }
      last := p;
    }
    StopIs(j, repeat);
    Exhausted(j);
    out := out.(finding := Some(j.NewFinding(repeat, last, j.NoMatchWords(last))));
  }

  // ---- the whole run ----------------------------------------------------------------------------

  datatype Status = Passed | Failed | Skipped

  datatype Result = Result(
    scenario: string, status: Status, findings: seq<Finding>, skippedFindings: seq<Finding>, calls: nat)

  /** One scenario, against one target. */
  datatype Rehearsal = Rehearsal(out: Outside, tgt: Target, name: string, needs: string, runID: string, steps: seq<Step>)
  {
    function JobAt(i: nat): Job
      requires i < |steps|
    {
      Job(out, tgt, needs, runID, i, steps[i])
    }

    /** What every step would come to, whether or not it is reached. */
    function Outcomes(): (os: seq<StepOutcome>)
      ensures |os| == |steps|
    {
      OutcomesTo(|steps|)
    }

    function OutcomesTo(n: nat): (os: seq<StepOutcome>)
      requires n <= |steps|
      ensures |os| == n
    {
      if n == 0 then [] else OutcomesTo(n - 1) + [JobAt(n - 1).Outcome()]
    }

    lemma {:induction false} OutcomeIs(n: nat, i: nat)
      requires i < n <= |steps|
      ensures OutcomesTo(n)[i] == JobAt(i).Outcome()
    {
      if i < n - 1 {
        OutcomeIs(n - 1, i);
      }
    }

    /** How many steps are run. */
    function Count(): (n: nat)
      ensures n <= |steps|
    {
      CountFrom(Outcomes(), 0)
    }

    function Keys(): seq<string> {
      [tgt.clientKey, tgt.apiKey]
    }

    /** The requests of the first n steps. */
    ghost function Trace(n: nat): seq<(nat, nat)>
      requires n <= |steps|
    {
      if n == 0 then [] else Trace(n - 1) + JobAt(n - 1).Requests(Outcomes()[n - 1].calls)
    }

    /** What a run may return: the verdict, with its findings redacted, in the list the verdict puts them in. */
    ghost predicate Returns(res: Result) {
      var os, n := Outcomes(), Count();
      var fs := FindingsOf(os, n, name);
      && res.scenario == name && res.status == VerdictOf(os, needs) && res.calls == CallsOf(os, n)
      && (match res.status
          case Passed => res.findings == [] && res.skippedFindings == []
          case Skipped => res.findings == [] && AllRedacted(fs, Keys(), res.skippedFindings)
          case Failed => res.skippedFindings == [] && AllRedacted(fs, Keys(), res.findings))
    }
  }

  // What a run makes of the outcomes of its steps.

  /** How many steps are run, from step i on: a refused credential ends the scenario. */
  function CountFrom(os: seq<StepOutcome>, i: nat): (n: nat)
    requires i <= |os|
    ensures i <= n <= |os|
    ensures forall k :: i <= k < n - 1 ==> !os[k].refused
    ensures n < |os| ==> n > i && os[n - 1].refused
    decreases |os| - i
  {
    if i == |os| then i else if os[i].refused then i + 1 else CountFrom(os, i + 1)
  }

  /** The findings of the first n steps, before anything is redacted. */
  function FindingsOf(os: seq<StepOutcome>, n: nat, name: string): seq<Finding>
    requires n <= |os|
  {
    if n == 0 then [] else
    var f := os[n - 1].finding;
    if f.Some? then FindingsOf(os, n - 1, name) + [f.value.(scenario := name)] else FindingsOf(os, n - 1, name)
  }

  function CallsOf(os: seq<StepOutcome>, n: nat): nat
    requires n <= |os|
  {
    if n == 0 then 0 else CallsOf(os, n - 1) + os[n - 1].calls
  }

  predicate SignalSeen(os: seq<StepOutcome>, n: nat, needs: string)
    requires n <= |os|
  {
    needs == "" || exists i :: 0 <= i < n && os[i].signalSeen
  }

  predicate Hard(o: StepOutcome) {
    o.transportError || o.watcherError || o.unreadable || o.refused
  }

  predicate HardFailure(os: seq<StepOutcome>, n: nat)
    requires n <= |os|
  {
    exists i :: 0 <= i < n && Hard(os[i])
  }

  function VerdictOf(os: seq<StepOutcome>, needs: string): Status {
    var n := CountFrom(os, 0);
    if FindingsOf(os, n, "") == [] then Passed
    else if !HardFailure(os, n) && !SignalSeen(os, n, needs) then Skipped
    else Failed
  }

  lemma {:induction false} NameDoesNotMatter(os: seq<StepOutcome>, n: nat, a: string, b: string)
    requires n <= |os|
    ensures |FindingsOf(os, n, a)| == |FindingsOf(os, n, b)|
  {
    if n > 0 {
      NameDoesNotMatter(os, n - 1, a, b);
    }
  }

  ghost predicate AllRedacted(fs: seq<Finding>, keys: seq<string>, gs: seq<Finding>) {
    |fs| == |gs| && forall i :: 0 <= i < |fs| ==> Redacted(fs[i], keys, gs[i])
  }

  lemma OneMore(os: seq<StepOutcome>, i: nat, needs: string, name: string)
    requires i < |os|
    ensures SignalSeen(os, i + 1, needs) == (SignalSeen(os, i, needs) || os[i].signalSeen)
    ensures HardFailure(os, i + 1) == (HardFailure(os, i) || Hard(os[i]))
    ensures CallsOf(os, i + 1) == CallsOf(os, i) + os[i].calls
    ensures FindingsOf(os, i + 1, name)
         == if os[i].finding.Some? then FindingsOf(os, i, name) + [os[i].finding.value.(scenario := name)]
            else FindingsOf(os, i, name)
  {
  }

  /** The findings of the first i steps, redacted. */
  ghost predicate Gathered(r: Rehearsal, i: nat, findings: seq<Finding>)
    requires i <= |r.steps|
  {
    AllRedacted(FindingsOf(r.Outcomes(), i, r.name), r.Keys(), findings)
  }

  /** The step's finding, if any, redacted through the record the step returned it in. */
  method Collect(r: Rehearsal, ghost i: nat, out: StepOutcome, findings: seq<Finding>) returns (more: seq<Finding>)
    requires i < |r.steps| && out == r.Outcomes()[i] && Gathered(r, i, findings)
    ensures Gathered(r, i + 1, more)
  {
    OneMore(r.Outcomes(), i, r.needs, r.name);
    more := findings;
    if out.finding.Some? {
      var ref := new FindingRef(out.finding.value.(scenario := r.name));
      ref.Redact([r.tgt.clientKey, r.tgt.apiKey]);
      more := findings + [ref.value];
    }
  }

  method RunStepAt(r: Rehearsal, i: nat) returns (out: StepOutcome, ghost sent: seq<(nat, nat)>)
    requires i < |r.steps|
    ensures out == r.Outcomes()[i]
    ensures r.Trace(i) + sent == r.Trace(i + 1)
  {
    out, sent := RunStep(r.JobAt(i));
    r.OutcomeIs(|r.steps|, i);
  }

  /** The sums of a run after its first i steps. */
  datatype Sums = Sums(calls: nat, signalSeen: bool, hardFailure: bool)

  predicate SumsOf(os: seq<StepOutcome>, i: nat, needs: string, sums: Sums)
    requires i <= |os|
  {
    sums == Sums(CallsOf(os, i), SignalSeen(os, i, needs), HardFailure(os, i))
  }

  /** One more step's outcome, added to the sums. */
  method AddUp(sums: Sums, out: StepOutcome, ghost os: seq<StepOutcome>, ghost i: nat, ghost needs: string)
    returns (more: Sums)
    requires i < |os| && out == os[i] && SumsOf(os, i, needs, sums)
    ensures SumsOf(os, i + 1, needs, more)
  {
    OneMore(os, i, needs, "");
    more := sums.(calls := sums.calls + out.calls);
    if out.signalSeen {
      more := more.(signalSeen := true);
    }
    if out.transportError || out.watcherError || out.unreadable || out.refused {
      more := more.(hardFailure := true);
    }
  }

  lemma CountStep(os: seq<StepOutcome>, i: nat)
    requires i < |os|
    ensures CountFrom(os, i) == if os[i].refused then i + 1 else CountFrom(os, i + 1)
  {
  }

  /** The function RunWithIdentity. sent is the requests it makes. */
  method RunWithIdentity(r: Rehearsal) returns (res: Result, ghost sent: seq<(nat, nat)>)
    ensures r.Returns(res)
    ensures sent == r.Trace(r.Count())
  {
    ghost var os := r.Outcomes();
    var findings: seq<Finding>, sums := [], Sums(0, r.needs == "", false);
    sent := [];
    var i, refused := 0, false;
    while i < |r.steps| && !refused
      invariant i <= |r.steps|
      invariant CountFrom(os, 0) == if refused then i else CountFrom(os, i)
      invariant Gathered(r, i, findings)
      invariant sent == r.Trace(i) && SumsOf(os, i, r.needs, sums)
      decreases |r.steps| - i, !refused
    {
      ghost var more;
      var out;
      out, more := RunStepAt(r, i);
      CountStep(os, i);
      sent := sent + more;
      sums := AddUp(sums, out, os, i, r.needs);
      findings := Collect(r, i, out, findings);
      refused, i := out.refused, i + 1;
    }
    res := Conclusion(r, i, findings, sums);
  }

  /** The switch at the end of the run. */
  method Conclusion(r: Rehearsal, ghost n: nat, findings: seq<Finding>, sums: Sums) returns (res: Result)
    requires n == r.Count() && SumsOf(r.Outcomes(), n, r.needs, sums) && Gathered(r, n, findings)
    ensures r.Returns(res)
  {
    NameDoesNotMatter(r.Outcomes(), n, r.name, "");
    res := Result(r.name, Passed, [], [], sums.calls);
    if |findings| == 0 {
      res := res.(status := Passed);
    } else if !sums.hardFailure && !sums.signalSeen {
      res := res.(status := Skipped, skippedFindings := findings);
    } else {
      res := res.(status := Failed, findings := findings);
    }
  }
}
