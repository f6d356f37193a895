/**
 The scenario format of internal/scenario/scenario.go: what a scenario holds, and the validation that
 normalises it in place.
 */
module Scenario {
  import opened Options
  import opened Blocks

  datatype Tool = Tool(name: string, description: string)
  datatype Request = Request(model: string, maxTokens: int, messages: seq<Message>, tools: seq<Tool>)
  datatype ToolCheck = ToolCheck(tool: string)
  datatype MCPCall = MCPCall(rpcMethod: string, params: Object)

  datatype Headers = Headers(
    runID: string, agentID: string, budgetUSD: string, taskType: string,
    onBehalfOf: string, outcome: string, approvalToken: string)

  /** Within is in nanoseconds. */
  datatype EventExpect = EventExpect(source: string, kind: string, within: int)

  datatype Wanted = Wanted(
    status: int, header: map<string, string>, withinRepeats: int, event: Option<EventExpect>,
    decision: string, errorCode: Option<int>, errorContains: string, result: bool)

  datatype Step = Step(
    name: string, repeat: int, request: Request, toolCheck: Option<ToolCheck>, mcp: Option<MCPCall>,
    headers: Headers, wanted: Wanted)

  const DEFAULT_EVENT_WITHIN := 10_000_000_000

  datatype Kind = NoKind | KindMessages | KindToolCheck | KindMCP

  datatype Error =
    | MissingName | NoSteps | StepMissingName | StepMissingModel | StepMissingMessages | StepMissingStatus
    | EventMissingSource | EventMissingType | StepKind | UnknownBlockType | BlockToolUse | BlockToolResult
    | ToolCheckMissingTool | ToolCheckDecision | ToolCheckNeedsTaint | MCPMissingMethod | MCPNeedsRequires
    | MCPExpect | MCPEvent | ExpectKind | HeadersUnused

  // ---- the kind of a step -----------------------------------------------------------------------

  /** Request.isSet. */
  predicate IsSet(r: Request) {
    r.model != "" || r.maxTokens != 0 || |r.messages| > 0 || |r.tools| > 0
  }

  /** The one thing the step sets; none when it sets nothing, or more than one. */
  function KindOf(s: Step): Kind {
    match (IsSet(s.request), s.toolCheck.Some?, s.mcp.Some?)
    case (true, false, false) => KindMessages
    case (false, true, false) => KindToolCheck
    case (false, false, true) => KindMCP
    case _ => NoKind
  }

  /** Step.Kind. */
  method CountKind(s: Step) returns (k: Kind)
    ensures k == KindOf(s)
  {
    var n := 0;
    k := NoKind;
    if IsSet(s.request) {
      n, k := n + 1, KindMessages;
    }
    if s.toolCheck.Some? {
      n, k := n + 1, KindToolCheck;
    }
    if s.mcp.Some? {
      n, k := n + 1, KindMCP;
    }
    if n != 1 {
      return NoKind;
    }
  }

  // ---- the checks, in the order they are made ----------------------------------------------------

  function BlockError(b: Block): Option<Error> {
    if b.kind == "text" then None
    else if b.kind == "tool_use" then if b.id == "" || b.name == "" then Some(BlockToolUse) else None
    else if b.kind == "tool_result" then if b.toolUseID == "" then Some(BlockToolResult) else None
    else Some(UnknownBlockType)
  }

  function BlocksError(bs: seq<Block>): (e: Option<Error>)
    ensures e.None? <==> forall i :: 0 <= i < |bs| ==> BlockError(bs[i]).None?
  {
    if bs == [] then None
    else if BlockError(bs[0]).Some? then BlockError(bs[0]) else BlocksError(bs[1..])
  }

  function MessagesError(ms: seq<Message>): (e: Option<Error>)
    ensures e.None? <==> forall i :: 0 <= i < |ms| ==> BlocksError(ms[i].blocks).None?
  {
    if ms == [] then None
    else if BlocksError(ms[0].blocks).Some? then BlocksError(ms[0].blocks) else MessagesError(ms[1..])
  }

  function MessagesStepError(s: Step): Option<Error> {
    var w, e := s.wanted, MessagesError(s.request.messages);
    if s.request.model == "" then Some(StepMissingModel)
    else if |s.request.messages| == 0 then Some(StepMissingMessages)
    else if e.Some? then e
    else if w.status == 0 then Some(StepMissingStatus)
    else if w.decision != "" || w.errorCode.Some? || w.errorContains != "" || w.result then Some(ExpectKind)
    else None
  }

  predicate ForeignExpect(s: Step) {
    s.wanted.status != 0 || |s.wanted.header| > 0
  }

  predicate UnusedHeaders(s: Step) {
    var h := s.headers;
    h.budgetUSD != "" || h.taskType != "" || h.onBehalfOf != "" || h.outcome != "" || h.approvalToken != ""
  }

  function ToolCheckStepError(needs: string, s: Step): Option<Error>
    requires s.toolCheck.Some?
  {
    var w := s.wanted;
    if s.toolCheck.value.tool == "" then Some(ToolCheckMissingTool)
    else if needs != "taint" then Some(ToolCheckNeedsTaint)
    else if w.decision != "allow" && w.decision != "deny" then Some(ToolCheckDecision)
    else if ForeignExpect(s) then Some(ExpectKind)
    else if w.errorCode.Some? || w.errorContains != "" || w.result then Some(ExpectKind)
    else if UnusedHeaders(s) then Some(HeadersUnused)
    else None
  }

  function MCPStepError(needs: string, s: Step): Option<Error>
    requires s.mcp.Some?
  {
    var w := s.wanted;
    if s.mcp.value.rpcMethod == "" then Some(MCPMissingMethod)
    else if needs == "" then Some(MCPNeedsRequires)
    else if w.errorCode.Some? == w.result then Some(MCPExpect)
    else if w.errorContains != "" && w.errorCode.None? then Some(MCPExpect)
    else if w.event.Some? then Some(MCPEvent)
    else if ForeignExpect(s) then Some(ExpectKind)
    else if w.decision != "" then Some(ExpectKind)
    else if UnusedHeaders(s) then Some(HeadersUnused)
    else None
  }

  function KindError(needs: string, s: Step): Option<Error> {
    match KindOf(s)
    case KindMessages => MessagesStepError(s)
    case KindToolCheck => ToolCheckStepError(needs, s)
    case KindMCP => MCPStepError(needs, s)
    case NoKind => Some(StepKind)
  }

  // ---- one step, normalised as it is checked ----------------------------------------------------

  function WithRepeat(s: Step): Step {
    if s.repeat <= 0 then s.(repeat := 1) else s
  }

  function WithDeadline(s: Step): Step {
    if s.wanted.withinRepeats <= 0 || s.wanted.withinRepeats > s.repeat
    then s.(wanted := s.wanted.(withinRepeats := s.repeat)) else s
  }

  function WithWindow(s: Step): Step {
    if s.wanted.event.Some? && s.wanted.event.value.within <= 0
    then s.(wanted := s.wanted.(event := Some(s.wanted.event.value.(within := DEFAULT_EVENT_WITHIN)))) else s
  }

  /** What validation leaves of a step it accepts. */
  function Normal(s: Step): Step {
    WithWindow(WithDeadline(WithRepeat(s)))
  }

  datatype Checked<T> = Checked(error: Option<Error>, value: T)

  /** The turn of the loop for one step: the error, if any, and the step as it is left. */
  function CheckStep(needs: string, s: Step): Checked<Step> {
    if s.name == "" then Checked(Some(StepMissingName), s) else
    var r := WithRepeat(s);
    var e := KindError(needs, r);
    if e.Some? then Checked(e, r) else
    var d := WithDeadline(r);
    if d.wanted.event.Some? && d.wanted.event.value.source == "" then Checked(Some(EventMissingSource), d)
    else if d.wanted.event.Some? && d.wanted.event.value.kind == "" then Checked(Some(EventMissingType), d)
    else Checked(None, WithWindow(d))
  }

  /** The loop from step i on: it stops at the first error. */
  function CheckSteps(needs: string, steps: seq<Step>, i: nat): (c: Checked<seq<Step>>)
    requires i <= |steps|
    ensures |c.value| == |steps| && c.value[..i] == steps[..i]
    decreases |steps| - i
  {
    if i == |steps| then Checked(None, steps) else
    var c := CheckStep(needs, steps[i]);
    var left := steps[i := c.value];
    if c.error.Some? then Checked(c.error, left) else CheckSteps(needs, left, i + 1)
  }

  function Validated(name: string, needs: string, steps: seq<Step>): Checked<seq<Step>> {
    if name == "" then Checked(Some(MissingName), steps)
    else if |steps| == 0 then Checked(Some(NoSteps), steps)
    else CheckSteps(needs, steps, 0)
  }

  lemma CheckOne(needs: string, steps: seq<Step>, i: nat)
    requires i < |steps|
    ensures var c := CheckStep(needs, steps[i]); var left := steps[i := c.value];
      CheckSteps(needs, steps, i) == if c.error.Some? then Checked(c.error, left) else CheckSteps(needs, left, i + 1)
  {
  }

  class ScenarioRef {
    const name: string
    const needs: string
    var steps: seq<Step>

    constructor (name: string, needs: string, steps: seq<Step>)
      ensures this.name == name && this.needs == needs && this.steps == steps
    {
      this.name, this.needs, this.steps := name, needs, steps;
    }

    /** The function validate. */
    method Validate() returns (error: Option<Error>)
      modifies this
      ensures Checked(error, steps) == Validated(name, needs, old(steps))
    {
      if name == "" {
        return Some(MissingName);
      }
      if |steps| == 0 {
        return Some(NoSteps);
      }
      ghost var before, want := steps, CheckSteps(needs, steps, 0);
      for i := 0 to |steps|
        invariant |steps| == |before|
        invariant CheckSteps(needs, steps, i) == want
      {
        CheckOne(needs, steps, i);
        var e, step := ValidateStep(steps[i]);
        steps := steps[i := step];
        if e.Some? {
          return e;
        }
      }
      return None;
    }

    /** The body of the loop: the step it points at is changed even when an error is found later in it. */
    method ValidateStep(original: Step) returns (error: Option<Error>, step: Step)
      ensures Checked(error, step) == CheckStep(needs, original)
    {
      step := original;
      if step.name == "" {
        return Some(StepMissingName), step;
      }
      if step.repeat <= 0 {
        step := step.(repeat := 1);
      }
      var kind := CountKind(step);
      error := KindErrorOf(kind, step);
      if error.Some? {
        return;
      }
      if step.wanted.withinRepeats <= 0 || step.wanted.withinRepeats > step.repeat {
        step := step.(wanted := step.wanted.(withinRepeats := step.repeat));
      }
      if step.wanted.event.Some? {
        var event := step.wanted.event.value;
        if event.source == "" {
          return Some(EventMissingSource), step;
        }
        if event.kind == "" {
          return Some(EventMissingType), step;
        }
        if event.within <= 0 {
          step := step.(wanted := step.wanted.(event := Some(event.(within := DEFAULT_EVENT_WITHIN))));
        }
      }
    }

    /** The switch on the step's kind. */
    method KindErrorOf(kind: Kind, step: Step) returns (error: Option<Error>)
      requires kind == KindOf(step)
      ensures error == KindError(needs, step)
    {
      match kind
      case KindMessages => error := MessagesStepError(step);
      case KindToolCheck => error := ToolCheckStepError(needs, step);
      case KindMCP => error := MCPStepError(needs, step);
      case NoKind => error := Some(StepKind);
    }
  }

  // ---- what is accepted, declared ---------------------------------------------------------------

  /** Some part of a request is given. */
  predicate Given(r: Request) {
    r.model != "" || r.maxTokens != 0 || r.messages != [] || r.tools != []
  }

  predicate OnlyMessages(s: Step) {
    Given(s.request) && s.toolCheck.None? && s.mcp.None?
  }

  predicate OnlyToolCheck(s: Step) {
    !Given(s.request) && s.toolCheck.Some? && s.mcp.None?
  }

  predicate OnlyMCP(s: Step) {
    !Given(s.request) && s.toolCheck.None? && s.mcp.Some?
  }

  predicate GoodBlock(b: Block) {
    || b.kind == "text"
    || (b.kind == "tool_use" && b.id != "" && b.name != "")
    || (b.kind == "tool_result" && b.toolUseID != "")
  }

  predicate GoodBlocks(ms: seq<Message>) {
    forall m :: m in ms ==> forall b :: b in m.blocks ==> GoodBlock(b)
  }

  predicate GoodMessages(s: Step) {
    && OnlyMessages(s) && s.request.model != "" && s.request.messages != [] && GoodBlocks(s.request.messages)
    && s.wanted.status != 0
    && s.wanted.decision == "" && s.wanted.errorCode.None? && s.wanted.errorContains == "" && !s.wanted.result
  }

  /** Nothing that only a messages step can send. */
  predicate NoMessagesHeaders(s: Step) {
    s.headers.budgetUSD == s.headers.taskType == s.headers.onBehalfOf == s.headers.outcome == s.headers.approvalToken == ""
  }

  /** Nothing that only a messages step can be answered with. */
  predicate NoMessagesReply(s: Step) {
    s.wanted.status == 0 && s.wanted.header == map[]
  }

  predicate NoRpcReply(s: Step) {
    s.wanted.errorCode.None? && s.wanted.errorContains == "" && !s.wanted.result
  }

  /** An error with a code, or a result, and not both. */
  predicate OneRpcReply(w: Wanted) {
    if w.result then w.errorCode.None? && w.errorContains == "" else w.errorCode.Some?
  }

  predicate GoodToolCheck(needs: string, s: Step) {
    && OnlyToolCheck(s) && s.toolCheck.value.tool != "" && needs == "taint" && s.wanted.decision in {"allow", "deny"}
    && NoMessagesReply(s) && NoMessagesHeaders(s) && NoRpcReply(s)
  }

  predicate GoodMCP(needs: string, s: Step) {
    && OnlyMCP(s) && s.mcp.value.rpcMethod != "" && needs != "" && OneRpcReply(s.wanted)
    && NoMessagesReply(s) && NoMessagesHeaders(s) && s.wanted.decision == "" && s.wanted.event.None?
  }

  predicate GoodKind(needs: string, s: Step) {
    GoodMessages(s) || GoodToolCheck(needs, s) || GoodMCP(needs, s)
  }

  predicate GoodStep(needs: string, s: Step) {
    && s.name != "" && GoodKind(needs, s)
    && (s.wanted.event.Some? ==> s.wanted.event.value.source != "" && s.wanted.event.value.kind != "")
  }

  predicate GoodScenario(name: string, needs: string, steps: seq<Step>) {
    name != "" && steps != [] && forall i :: 0 <= i < |steps| ==> GoodStep(needs, steps[i])
  }

  // ---- what is refused, and as what --------------------------------------------------------------

  predicate BlockFault(b: Block, e: Error) {
    match e
    case UnknownBlockType => b.kind !in {"text", "tool_use", "tool_result"}
    case BlockToolUse => b.kind == "tool_use" && (b.id == "" || b.name == "")
    case BlockToolResult => b.kind == "tool_result" && b.toolUseID == ""
    case _ => false
  }

  /** The first bad block, in order, is bad for this reason. */
  ghost predicate BlocksFault(bs: seq<Block>, e: Error) {
    exists i: nat :: BlockFaultAt(bs, i, e)
  }

  predicate BlockFaultAt(bs: seq<Block>, i: nat, e: Error) {
    i < |bs| && BlockFault(bs[i], e) && forall j :: 0 <= j < i ==> GoodBlock(bs[j])
  }

  ghost predicate MessagesBlockFault(ms: seq<Message>, e: Error) {
    exists i: nat :: MessageFaultAt(ms, i, e)
  }

  ghost predicate MessageFaultAt(ms: seq<Message>, i: nat, e: Error) {
    i < |ms| && BlocksFault(ms[i].blocks, e) && GoodBlocks(ms[..i])
  }

  ghost predicate MessagesFault(s: Step, e: Error) {
    if e == StepMissingModel then s.request.model == ""
    else if s.request.model == "" then false
    else if e == StepMissingMessages then s.request.messages == []
    else if e in {UnknownBlockType, BlockToolUse, BlockToolResult} then MessagesBlockFault(s.request.messages, e)
    else
      && s.request.messages != [] && GoodBlocks(s.request.messages)
      && if e == StepMissingStatus then s.wanted.status == 0
         else s.wanted.status != 0 && e == ExpectKind && !(s.wanted.decision == "" && NoRpcReply(s))
  }

  predicate ToolCheckFault(needs: string, s: Step, e: Error)
    requires s.toolCheck.Some?
  {
    var tool := s.toolCheck.value.tool;
    match e
    case ToolCheckMissingTool => tool == ""
    case ToolCheckNeedsTaint => tool != "" && needs != "taint"
    case ToolCheckDecision => tool != "" && needs == "taint" && s.wanted.decision !in {"allow", "deny"}
    case ExpectKind =>
      tool != "" && needs == "taint" && s.wanted.decision in {"allow", "deny"} && !(NoMessagesReply(s) && NoRpcReply(s))
    case HeadersUnused =>
      && tool != "" && needs == "taint" && s.wanted.decision in {"allow", "deny"} && NoMessagesReply(s) && NoRpcReply(s)
      && !NoMessagesHeaders(s)
    case _ => false
  }

  predicate MCPFault(needs: string, s: Step, e: Error)
    requires s.mcp.Some?
  {
    var asks, replies := s.mcp.value.rpcMethod != "" && needs != "", OneRpcReply(s.wanted);
    match e
    case MCPMissingMethod => s.mcp.value.rpcMethod == ""
    case MCPNeedsRequires => s.mcp.value.rpcMethod != "" && needs == ""
    case MCPExpect => asks && !replies
    case MCPEvent => asks && replies && s.wanted.event.Some?
    case ExpectKind => asks && replies && s.wanted.event.None? && !(NoMessagesReply(s) && s.wanted.decision == "")
    case HeadersUnused =>
      asks && replies && s.wanted.event.None? && NoMessagesReply(s) && s.wanted.decision == "" && !NoMessagesHeaders(s)
    case _ => false
  }

  ghost predicate KindFault(needs: string, s: Step, e: Error) {
    if OnlyMessages(s) then MessagesFault(s, e)
    else if OnlyToolCheck(s) then ToolCheckFault(needs, s, e)
    else if OnlyMCP(s) then MCPFault(needs, s, e)
    else e == StepKind
  }

  /** The step is bad, and this is what is said of it: of all that is wrong, what comes first in this order. */
  ghost predicate StepFault(needs: string, s: Step, e: Error) {
    match e
    case StepMissingName => s.name == ""
    case EventMissingSource => s.name != "" && GoodKind(needs, s) && s.wanted.event.Some? && s.wanted.event.value.source == ""
    case EventMissingType =>
      && s.name != "" && GoodKind(needs, s) && s.wanted.event.Some?
      && s.wanted.event.value.source != "" && s.wanted.event.value.kind == ""
    case _ => s.name != "" && KindFault(needs, s, e)
  }

  ghost predicate ScenarioFault(name: string, needs: string, steps: seq<Step>, e: Error) {
    if name == "" then e == MissingName
    else if steps == [] then e == NoSteps
    else exists n :: 0 <= n < |steps| && FirstFault(needs, steps, n, e)
  }

  ghost predicate FirstFault(needs: string, steps: seq<Step>, n: nat, e: Error)
    requires n < |steps|
  {
    StepFault(needs, steps[n], e) && forall k :: 0 <= k < n ==> GoodStep(needs, steps[k])
  }

  lemma BlockFaultMore(bs: seq<Block>, e: Error)
    requires bs != []
    ensures BlocksFault(bs, e) <==> BlockFault(bs[0], e) || (GoodBlock(bs[0]) && BlocksFault(bs[1..], e))
  {
    var rest := bs[1..];
    if BlocksFault(bs, e) && !BlockFault(bs[0], e) {
      var i: nat :| BlockFaultAt(bs, i, e);
      assert BlockFaultAt(rest, i - 1, e);
    }
    if BlockFault(bs[0], e) {
      assert BlockFaultAt(bs, 0, e);
    } else if GoodBlock(bs[0]) && BlocksFault(rest, e) {
      var i: nat :| BlockFaultAt(rest, i, e);
      assert forall j :: 0 < j <= i ==> bs[j] == rest[j - 1];
      assert BlockFaultAt(bs, i + 1, e);
    }
  }

  lemma {:induction false} BlocksFaultIs(bs: seq<Block>, e: Error)
    ensures BlocksError(bs) == Some(e) <==> BlocksFault(bs, e)
  {
    if bs != [] {
      BlockFaultMore(bs, e);
      BlocksFaultIs(bs[1..], e);
    }
  }

  lemma GoodBlocksAre(ms: seq<Message>)
    ensures MessagesError(ms).None? <==> GoodBlocks(ms)
  {
    assert forall b :: BlockError(b).None? <==> GoodBlock(b);
    forall m | m in ms ensures BlocksError(m.blocks).None? <==> forall b :: b in m.blocks ==> GoodBlock(b) {
    }
  }

  lemma MessageFaultMore(ms: seq<Message>, e: Error)
    requires ms != []
    ensures MessagesBlockFault(ms, e) <==>
      BlocksFault(ms[0].blocks, e) || (GoodBlocks([ms[0]]) && MessagesBlockFault(ms[1..], e))
  {
    var rest := ms[1..];
    if MessagesBlockFault(ms, e) && !BlocksFault(ms[0].blocks, e) {
      var i: nat :| MessageFaultAt(ms, i, e);
      assert ms[..i] == [ms[0]] + rest[..i - 1];
      assert MessageFaultAt(rest, i - 1, e);
    }
    if BlocksFault(ms[0].blocks, e) {
      assert MessageFaultAt(ms, 0, e);
    } else if GoodBlocks([ms[0]]) && MessagesBlockFault(rest, e) {
      var i: nat :| MessageFaultAt(rest, i, e);
      assert ms[..i + 1] == [ms[0]] + rest[..i];
      assert MessageFaultAt(ms, i + 1, e);
    }
  }

  lemma {:induction false} MessagesFaultIs(ms: seq<Message>, e: Error)
    ensures MessagesError(ms) == Some(e) <==> MessagesBlockFault(ms, e)
  {
    if ms != [] {
      MessageFaultMore(ms, e);
      BlocksFaultIs(ms[0].blocks, e);
      MessagesFaultIs(ms[1..], e);
      GoodBlocksAre([ms[0]]);
    }
  }

  lemma KindIs(s: Step)
    ensures KindOf(s) == if OnlyMessages(s) then KindMessages else if OnlyToolCheck(s) then KindToolCheck
                         else if OnlyMCP(s) then KindMCP else NoKind
  {
  }

  lemma ForeignIs(s: Step)
    ensures ForeignExpect(s) <==> !NoMessagesReply(s)
    ensures UnusedHeaders(s) <==> !NoMessagesHeaders(s)
  {
    assert s.wanted.header == map[] <==> |s.wanted.header| == 0;
  }

  /** The checks of a kind pass exactly what is good, and what they say of the rest is what is wrong with it. */
  lemma KindAgrees(needs: string, s: Step, e: Error)
    ensures KindError(needs, s).None? <==> GoodKind(needs, s)
    ensures KindError(needs, s) == Some(e) <==> KindFault(needs, s, e)
  {
    KindIs(s);
    if OnlyMessages(s) {
      MessagesAgree(s, e);
    } else if OnlyToolCheck(s) {
      ToolCheckAgrees(needs, s, e);
    } else if OnlyMCP(s) {
      MCPAgrees(needs, s, e);
    }
  }

  lemma ToolCheckAgrees(needs: string, s: Step, e: Error)
    requires OnlyToolCheck(s)
    ensures ToolCheckStepError(needs, s).None? <==> GoodToolCheck(needs, s)
    ensures ToolCheckStepError(needs, s) == Some(e) <==> ToolCheckFault(needs, s, e)
  {
    ForeignIs(s);
  }

  lemma MCPAgrees(needs: string, s: Step, e: Error)
    requires OnlyMCP(s)
    ensures MCPStepError(needs, s).None? <==> GoodMCP(needs, s)
    ensures MCPStepError(needs, s) == Some(e) <==> MCPFault(needs, s, e)
  {
    ForeignIs(s);
  }

  lemma MessagesAgree(s: Step, e: Error)
    requires OnlyMessages(s)
    ensures MessagesStepError(s).None? <==> GoodMessages(s)
    ensures MessagesStepError(s) == Some(e) <==> MessagesFault(s, e)
  {
    MessagesFaultIs(s.request.messages, e);
    GoodBlocksAre(s.request.messages);
    assert MessagesBlockFault(s.request.messages, e) ==> e in {UnknownBlockType, BlockToolUse, BlockToolResult};
  }

  lemma RepeatDoesNotMatter(needs: string, s: Step)
    ensures KindError(needs, WithRepeat(s)) == KindError(needs, s)
    ensures GoodKind(needs, WithRepeat(s)) == GoodKind(needs, s)
  {
    assert KindOf(WithRepeat(s)) == KindOf(s);
  }

  // ---- how a step is left -----------------------------------------------------------------------

  /** A count that was left out, or makes no sense, is one. */
  predicate RepeatFilled(s: Step, repeat: int) {
    if s.repeat >= 1 then repeat == s.repeat else repeat == 1
  }

  /** A deadline within the repeats stays, any other is the last of them. */
  predicate DeadlineFilled(s: Step, repeat: int, deadline: int) {
    if 1 <= s.wanted.withinRepeats <= repeat then deadline == s.wanted.withinRepeats else deadline == repeat
  }

  /** A window that is positive stays, any other is ten seconds. */
  predicate WindowFilled(s: Step, event: Option<EventExpect>) {
    match s.wanted.event
    case None => event.None?
    case Some(e) => event == Some(EventExpect(e.source, e.kind, if e.within > 0 then e.within else 10_000_000_000))
  }

  /** v is s with what it left out filled in, and is otherwise s. */
  predicate Filled(s: Step, v: Step) {
    && RepeatFilled(s, v.repeat) && DeadlineFilled(s, v.repeat, v.wanted.withinRepeats)
    && WindowFilled(s, v.wanted.event)
    && v == s.(repeat := v.repeat, wanted := s.wanted.(withinRepeats := v.wanted.withinRepeats, event := v.wanted.event))
  }

  /** How far a step is filled in that is refused for this reason. */
  predicate FilledTo(s: Step, e: Error, v: Step) {
    match e
    case StepMissingName => v == s
    case EventMissingSource => EventRefused(s, v)
    case EventMissingType => EventRefused(s, v)
    case _ => RepeatFilled(s, v.repeat) && v == s.(repeat := v.repeat)
  }

  predicate EventRefused(s: Step, v: Step) {
    && RepeatFilled(s, v.repeat) && DeadlineFilled(s, v.repeat, v.wanted.withinRepeats)
    && v == s.(repeat := v.repeat, wanted := s.wanted.(withinRepeats := v.wanted.withinRepeats))
  }

  lemma NormalIsFilled(s: Step)
    ensures Filled(s, Normal(s))
  {
  }

  lemma StepAgrees(needs: string, s: Step)
    ensures CheckStep(needs, s).error.None? <==> GoodStep(needs, s)
    ensures GoodStep(needs, s) ==> CheckStep(needs, s).value == Normal(s)
  {
    KindAgrees(needs, s, StepKind);
    RepeatDoesNotMatter(needs, s);
  }

  lemma StepFaultIs(needs: string, s: Step, e: Error)
    ensures CheckStep(needs, s).error == Some(e) <==> StepFault(needs, s, e)
  {
    KindAgrees(needs, s, e);
    RepeatDoesNotMatter(needs, s);
    KindIsItsOwn(needs, s, e);
  }

  /** What a kind's checks say is none of what is said of a name or an event. */
  lemma KindIsItsOwn(needs: string, s: Step, e: Error)
    ensures KindFault(needs, s, e) ==> e != StepMissingName && e != EventMissingSource && e != EventMissingType
  {
  }

  lemma KindErrorIsItsOwn(needs: string, s: Step)
    requires KindError(needs, s).Some?
    ensures var e := KindError(needs, s).value; e != StepMissingName && e != EventMissingSource && e != EventMissingType
  {
    KindAgrees(needs, s, KindError(needs, s).value);
    KindIsItsOwn(needs, s, KindError(needs, s).value);
  }

  lemma StepIsFilledTo(needs: string, s: Step, e: Error)
    requires CheckStep(needs, s).error == Some(e)
    ensures FilledTo(s, e, CheckStep(needs, s).value)
  {
    var r := WithRepeat(s);
    if KindError(needs, r).Some? {
      KindErrorIsItsOwn(needs, r);
    }
  }

  function NormalFrom(steps: seq<Step>, i: nat): (r: seq<Step>)
    requires i <= |steps|
    ensures |r| == |steps|
    ensures forall k :: 0 <= k < |steps| ==> r[k] == if k < i then steps[k] else Normal(steps[k])
    decreases |steps| - i
  {
    if i == |steps| then steps else NormalFrom(steps[i := Normal(steps[i])], i + 1)
  }

  lemma {:induction false} StepsAgree(needs: string, steps: seq<Step>, i: nat)
    requires i <= |steps|
    ensures CheckSteps(needs, steps, i).error.None? <==> forall k :: i <= k < |steps| ==> GoodStep(needs, steps[k])
    ensures CheckSteps(needs, steps, i).error.None? ==> CheckSteps(needs, steps, i).value == NormalFrom(steps, i)
    decreases |steps| - i
  {
    if i < |steps| {
      StepAgrees(needs, steps[i]);
      CheckOne(needs, steps, i);
      var c := CheckStep(needs, steps[i]);
      if c.error.None? {
        var left := steps[i := c.value];
        StepsAgree(needs, left, i + 1);
        assert forall k :: i < k < |steps| ==> left[k] == steps[k];
      }
    }
  }

  /** How step k is left when the checks from step i on stop at step n. */
  function LeftAt(needs: string, steps: seq<Step>, i: nat, n: nat, k: nat): Step
    requires k < |steps|
  {
    if i <= k < n then Normal(steps[k]) else if k == n then CheckStep(needs, steps[n]).value else steps[k]
  }

  lemma {:induction false} StopsFrom(needs: string, steps: seq<Step>, i: nat) returns (n: nat)
    requires i <= |steps| && CheckSteps(needs, steps, i).error.Some?
    ensures i <= n < |steps| && !GoodStep(needs, steps[n]) && forall k :: i <= k < n ==> GoodStep(needs, steps[k])
    ensures CheckSteps(needs, steps, i).error == CheckStep(needs, steps[n]).error
    ensures forall k :: 0 <= k < |steps| ==> CheckSteps(needs, steps, i).value[k] == LeftAt(needs, steps, i, n, k)
    decreases |steps| - i
  {
    StepAgrees(needs, steps[i]);
    CheckOne(needs, steps, i);
    var c := CheckStep(needs, steps[i]);
    if c.error.Some? {
      n := i;
    } else {
      var left := steps[i := c.value];
      n := StopsFrom(needs, left, i + 1);
      forall k | i <= k < n ensures GoodStep(needs, steps[k]) {
        assert k > i ==> left[k] == steps[k];
      }
      LeftStays(needs, steps, i, n);
    }
  }

  lemma LeftStays(needs: string, steps: seq<Step>, i: nat, n: nat)
    requires i < n < |steps|
    ensures var left := steps[i := Normal(steps[i])];
      forall k :: 0 <= k < |steps| ==> LeftAt(needs, left, i + 1, n, k) == LeftAt(needs, steps, i, n, k)
  {
    var left := steps[i := Normal(steps[i])];
    assert forall k :: 0 <= k < |steps| && k != i ==> left[k] == steps[k];
  }

  /**
   A refused scenario is refused at its first bad step: the steps before it are left filled in, that one
   as far as it was checked, and those after it are not touched.
   */
  lemma RefusedAtFirstBad(name: string, needs: string, steps: seq<Step>, e: Error) returns (n: nat)
    requires name != "" && steps != [] && Validated(name, needs, steps).error == Some(e)
    ensures n < |steps| && FirstFault(needs, steps, n, e)
    ensures var v := Validated(name, needs, steps).value;
      && (forall k :: 0 <= k < n ==> Filled(steps[k], v[k]))
      && FilledTo(steps[n], e, v[n])
      && (forall k :: n < k < |steps| ==> v[k] == steps[k])
  {
    n := StopsFrom(needs, steps, 0);
    StepFaultIs(needs, steps[n], e);
    StepIsFilledTo(needs, steps[n], e);
    forall k | 0 <= k < n ensures Filled(steps[k], Validated(name, needs, steps).value[k]) {
      NormalIsFilled(steps[k]);
    }
  }

  /** The error of a scenario is what is wrong with it, and there is one exactly when something is. */
  lemma RefusedIffFault(name: string, needs: string, steps: seq<Step>, e: Error)
    ensures Validated(name, needs, steps).error == Some(e) <==> ScenarioFault(name, needs, steps, e)
  {
    if name != "" && steps != [] {
      if Validated(name, needs, steps).error == Some(e) {
        var n := RefusedAtFirstBad(name, needs, steps, e);
      }
      if ScenarioFault(name, needs, steps, e) {
        var n :| 0 <= n < |steps| && FirstFault(needs, steps, n, e);
        StepFaultIs(needs, steps[n], e);
        StepAgrees(needs, steps[n]);
        StepsAgree(needs, steps, 0);
        var m := StopsFrom(needs, steps, 0);
        assert m == n;
      }
    }
  }

  /**
   Validation accepts exactly the good scenarios. What a step says is kept, what it leaves out or says
   out of range is filled in, and nothing else of it is touched.
   */
  lemma AcceptedIffGood(name: string, needs: string, steps: seq<Step>)
    ensures var c := Validated(name, needs, steps);
      && (c.error.None? <==> GoodScenario(name, needs, steps))
      && (c.error.None? ==> |c.value| == |steps| && forall i :: 0 <= i < |steps| ==> Filled(steps[i], c.value[i]))
  {
    StepsAgree(needs, steps, 0);
    forall i | 0 <= i < |steps| ensures Filled(steps[i], Normal(steps[i])) {
      NormalIsFilled(steps[i]);
    }
  }

  lemma FilledIsGood(needs: string, s: Step, v: Step)
    requires GoodStep(needs, s) && Filled(s, v)
    ensures GoodStep(needs, v) && forall w :: Filled(v, w) ==> w == v
  {
    forall w | Filled(v, w) ensures w == v {
      assert w.wanted == v.wanted;
    }
  }

  /** Validating twice is validating once. */
  lemma ValidateIsIdempotent(name: string, needs: string, steps: seq<Step>)
    requires Validated(name, needs, steps).error.None?
    ensures var v := Validated(name, needs, steps).value; Validated(name, needs, v) == Checked(None, v)
  {
    AcceptedIffGood(name, needs, steps);
    var v := Validated(name, needs, steps).value;
    forall i | 0 <= i < |v| ensures GoodStep(needs, v[i]) && forall w :: Filled(v[i], w) ==> w == v[i] {
      FilledIsGood(needs, steps[i], v[i]);
    }
    AcceptedIffGood(name, needs, v);
    assert Validated(name, needs, v).value == v;
  }

  /** What every reader of an accepted scenario can rely on. */
  predicate Trustworthy(s: Step) {
    && s.repeat >= 1 && 1 <= s.wanted.withinRepeats <= s.repeat
    && KindOf(s) != NoKind
    && (KindOf(s) == KindToolCheck ==> s.toolCheck.Some?)
    && (KindOf(s) == KindMCP ==> s.mcp.Some? && s.wanted.event.None?)
    && (s.wanted.event.Some? ==> s.wanted.event.value.within > 0)
  }

  lemma AcceptedIsTrustworthy(name: string, needs: string, steps: seq<Step>)
    requires Validated(name, needs, steps).error.None?
    ensures forall s :: s in Validated(name, needs, steps).value ==> Trustworthy(s) && GoodStep(needs, s)
  {
    AcceptedIffGood(name, needs, steps);
    var v := Validated(name, needs, steps).value;
    forall s | s in v ensures Trustworthy(s) && GoodStep(needs, s) {
      var i :| 0 <= i < |v| && v[i] == s;
      FilledIsGood(needs, steps[i], s);
      FilledIsTrustworthy(needs, steps[i], s);
    }
  }

  lemma FilledIsTrustworthy(needs: string, s: Step, v: Step)
    requires GoodStep(needs, s) && Filled(s, v)
    ensures Trustworthy(v)
  {
    KindIs(v);
  }
}
