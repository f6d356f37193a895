/**
 The two wire forms of a message, as internal/scenario/blocks.go writes and reads them, over JSON
 values: the Anthropic shape of each kind of block, and content as a string or as a list.

 Reading follows encoding/json: null leaves a field as it was, an unknown key is passed over, and a
 value of the wrong type leaves the zero value, is remembered as the error, and does not stop the rest.
 */
module Blocks {
  import opened Options

  datatype JSON =
    | Null
    | Bool(b: bool)
    | Num(n: real)
    | Str(s: string)
    | Arr(items: seq<JSON>)
    | Obj(fields: map<string, JSON>)

  type Object = map<string, JSON>

  /** A content block. Which fields apply depends on the kind; the others are foreign to it. */
  datatype Block = Block(
    kind: string, text: string, id: string, name: string, input: Option<Object>,
    toolUseID: string, content: string, isError: bool)

  datatype Message = Message(role: string, content: string, blocks: seq<Block>)

  const EMPTY_BLOCK := Block("", "", "", "", None, "", "", false)

  // ---- writing ----------------------------------------------------------------------------------

  /** Block.MarshalJSON. */
  function MarshalBlock(b: Block): JSON {
    if b.kind == "tool_use" then
      Obj(map["type" := Str(b.kind), "id" := Str(b.id), "name" := Str(b.name),
              "input" := Obj(if b.input.Some? then b.input.value else map[])])
    else if b.kind == "tool_result" then
      var o := map["type" := Str(b.kind), "tool_use_id" := Str(b.toolUseID), "content" := Str(b.content)];
      Obj(if b.isError then o["is_error" := Bool(true)] else o)
    else
      Obj(map["type" := Str(b.kind), "text" := Str(b.text)])
  }

  function MarshalBlocks(bs: seq<Block>): (r: seq<JSON>)
    ensures |r| == |bs|
    ensures forall i :: 0 <= i < |bs| ==> r[i] == MarshalBlock(bs[i])
  {
    if bs == [] then [] else [MarshalBlock(bs[0])] + MarshalBlocks(bs[1..])
  }

  /** Message.MarshalJSON. */
  function MarshalMessage(m: Message): JSON {
    Obj(map["role" := Str(m.role),
            "content" := if |m.blocks| > 0 then Arr(MarshalBlocks(m.blocks)) else Str(m.content)])
  }

  // ---- reading ----------------------------------------------------------------------------------

  /** What a value decodes to, and whether every part of it had the right type. */
  datatype Decoded<+T> = Decoded(value: T, ok: bool)

  function At(o: Object, key: string): JSON {
    if key in o then o[key] else Null
  }

  function ReadString(j: JSON): Decoded<string> {
    match j
    case Null => Decoded("", true)
    case Str(s) => Decoded(s, true)
    case _ => Decoded("", false)
  }

  function ReadBool(j: JSON): Decoded<bool> {
    match j
    case Null => Decoded(false, true)
    case Bool(b) => Decoded(b, true)
    case _ => Decoded(false, false)
  }

  function ReadObject(j: JSON): Decoded<Option<Object>> {
    match j
    case Null => Decoded(None, true)
    case Obj(o) => Decoded(Some(o), true)
    case _ => Decoded(None, false)
  }

  /** A block has no reader of its own, so it is read field by field. */
  function ReadBlock(j: JSON): Decoded<Block> {
    match j
    case Null => Decoded(EMPTY_BLOCK, true)
    case Obj(o) =>
      var kind, text, id := ReadString(At(o, "type")), ReadString(At(o, "text")), ReadString(At(o, "id"));
      var name, input := ReadString(At(o, "name")), ReadObject(At(o, "input"));
      var use, content, err := ReadString(At(o, "tool_use_id")), ReadString(At(o, "content")), ReadBool(At(o, "is_error"));
      Decoded(Block(kind.value, text.value, id.value, name.value, input.value, use.value, content.value, err.value),
              kind.ok && text.ok && id.ok && name.ok && input.ok && use.ok && content.ok && err.ok)
    case _ => Decoded(EMPTY_BLOCK, false)
  }

  function ReadBlocks(js: seq<JSON>): (r: Decoded<seq<Block>>)
    ensures |r.value| == |js|
    ensures forall i :: 0 <= i < |js| ==> r.value[i] == ReadBlock(js[i]).value
    ensures r.ok <==> forall i :: 0 <= i < |js| ==> ReadBlock(js[i]).ok
  {
    if js == [] then Decoded([], true) else
    var b, rest := ReadBlock(js[0]), ReadBlocks(js[1..]);
    Decoded([b.value] + rest.value, b.ok && rest.ok)
  }

  /** The two raw fields of a message: its role, and its content before it is read. */
  function RawFields(j: JSON): Decoded<(string, JSON)> {
    match j
    case Null => Decoded(("", Null), true)
    case Obj(o) => Decoded((ReadString(At(o, "role")).value, At(o, "content")), ReadString(At(o, "role")).ok)
    case _ => Decoded(("", Null), false)
  }

  /** What UnmarshalJSON leaves in a message that was there before. */
  function Unmarshal(before: Message, j: JSON): Decoded<Message> {
    var raw := RawFields(j);
    if !raw.ok then Decoded(before, false) else
    var (role, content) := raw.value;
    match content
    case Null => Decoded(Message(role, "", []), true)
    case Arr(items) => var bs := ReadBlocks(items); Decoded(Message(role, "", bs.value), bs.ok)
    case _ => var s := ReadString(content); Decoded(Message(role, s.value, []), s.ok)
  }

  class MessageRef {
    var value: Message

    constructor (m: Message)
      ensures value == m
    {
      value := m;
    }

    /** Message.UnmarshalJSON. */
    method UnmarshalJSON(data: JSON) returns (ok: bool)
      modifies this
      ensures Decoded(value, ok) == Unmarshal(old(value), data)
    {
      var raw := RawFields(data);
      if !raw.ok {
        return false;
      }
      value := Message(raw.value.0, "", []);
      var content := raw.value.1;
      if content.Null? {
        return true;
      }
      if content.Arr? {
        var bs := ReadBlocks(content.items);
        value := value.(blocks := bs.value);
        return bs.ok;
      }
      var s := ReadString(content);
      value := value.(content := s.value);
      ok := s.ok;
    }
  }

  // ---- what a round trip keeps ------------------------------------------------------------------

  /** The block without the fields foreign to its kind, and with the input the wire requires. */
  function NormalBlock(b: Block): Block {
    if b.kind == "tool_use" then
      EMPTY_BLOCK.(kind := b.kind, id := b.id, name := b.name, input := Some(if b.input.Some? then b.input.value else map[]))
    else if b.kind == "tool_result" then
      EMPTY_BLOCK.(kind := b.kind, toolUseID := b.toolUseID, content := b.content, isError := b.isError)
    else EMPTY_BLOCK.(kind := b.kind, text := b.text)
  }

  function NormalBlocks(bs: seq<Block>): (r: seq<Block>)
    ensures |r| == |bs|
    ensures forall i :: 0 <= i < |bs| ==> r[i] == NormalBlock(bs[i])
  {
    if bs == [] then [] else [NormalBlock(bs[0])] + NormalBlocks(bs[1..])
  }

  function Normal(m: Message): Message {
    if |m.blocks| > 0 then Message(m.role, "", NormalBlocks(m.blocks)) else m
  }

  lemma BlockRoundTrip(b: Block)
    ensures ReadBlock(MarshalBlock(b)) == Decoded(NormalBlock(b), true)
    ensures MarshalBlock(NormalBlock(b)) == MarshalBlock(b)
  {
  }

  lemma BlocksRoundTrip(bs: seq<Block>)
    ensures ReadBlocks(MarshalBlocks(bs)) == Decoded(NormalBlocks(bs), true)
    ensures MarshalBlocks(NormalBlocks(bs)) == MarshalBlocks(bs)
  {
    forall i | 0 <= i < |bs|
      ensures ReadBlock(MarshalBlocks(bs)[i]) == Decoded(NormalBlocks(bs)[i], true)
      ensures MarshalBlock(NormalBlocks(bs)[i]) == MarshalBlock(bs[i])
    {
      BlockRoundTrip(bs[i]);
    }
  }

  /**
   Reading back what was written gives the message with its foreign fields erased and a missing tool
   input made empty, whatever the receiver held before; and that is written the same again.
   */
  lemma RoundTrip(m: Message, before: Message)
    ensures Unmarshal(before, MarshalMessage(m)) == Decoded(Normal(m), true)
    ensures MarshalMessage(Normal(m)) == MarshalMessage(m)
  {
    if |m.blocks| > 0 {
      BlocksRoundTrip(m.blocks);
      WrittenAs(m, before, Arr(MarshalBlocks(m.blocks)));
    } else {
      WrittenAs(m, before, Str(m.content));
    }
  }

  /** The two fields of what is written are read back as they are. */
  lemma WrittenAs(m: Message, before: Message, content: JSON)
    requires MarshalMessage(m) == Obj(map["role" := Str(m.role), "content" := content])
    ensures RawFields(MarshalMessage(m)) == Decoded((m.role, content), true)
  {
  }

  /** A message of plain text comes back as it was. */
  lemma PlainIsUnchanged(m: Message, before: Message)
    requires m.blocks == []
    ensures Unmarshal(before, MarshalMessage(m)) == Decoded(m, true)
  {
    RoundTrip(m, before);
  }

  /** Two messages are written alike exactly when they differ in nothing that the wire carries. */
  lemma SameWireIffSameNormal(m: Message, n: Message)
    ensures MarshalMessage(m) == MarshalMessage(n) <==> Normal(m) == Normal(n)
  {
    RoundTrip(m, m);
    RoundTrip(n, m);
  }

  // ---- the wire itself --------------------------------------------------------------------------

  predicate TextAt(o: Object, key: string, s: string) {
    key in o && o[key] == Str(s)
  }

  /** The Anthropic shape of a block: these keys and no others, for its kind. */
  predicate IsWire(b: Block, j: JSON) {
    j.Obj? && var o := j.fields;
      && TextAt(o, "type", b.kind)
      && (if b.kind == "tool_use" then
            && o.Keys == {"type", "id", "name", "input"} && TextAt(o, "id", b.id) && TextAt(o, "name", b.name)
            && o["input"] == match b.input case Some(input) => Obj(input) case None => Obj(map[])
          else if b.kind == "tool_result" then
            && o.Keys == {"type", "tool_use_id", "content"} + (if b.isError then {"is_error"} else {})
            && TextAt(o, "tool_use_id", b.toolUseID) && TextAt(o, "content", b.content)
            && (b.isError ==> o["is_error"] == Bool(true))
          else o.Keys == {"type", "text"} && TextAt(o, "text", b.text))
  }

  predicate IsMessageWire(m: Message, j: JSON) {
    j.Obj? && var o := j.fields;
      && o.Keys == {"role", "content"} && TextAt(o, "role", m.role)
      && if m.blocks == [] then TextAt(o, "content", m.content)
         else o["content"].Arr? && |o["content"].items| == |m.blocks|
              && forall i :: 0 <= i < |m.blocks| ==> IsWire(m.blocks[i], o["content"].items[i])
  }

  lemma BlockIsWire(b: Block, j: JSON)
    ensures j == MarshalBlock(b) <==> IsWire(b, j)
  {
    if IsWire(b, j) {
      assert j.fields == MarshalBlock(b).fields;
    }
  }

  /** A message is written in the wire shape, and in no other way. */
  lemma WireIff(m: Message, j: JSON)
    ensures j == MarshalMessage(m) <==> IsMessageWire(m, j)
  {
    var want := MarshalBlocks(m.blocks);
    forall i | 0 <= i < |m.blocks| ensures IsWire(m.blocks[i], want[i]) {
      BlockIsWire(m.blocks[i], want[i]);
    }
    if IsMessageWire(m, j) {
      var o := j.fields;
      if m.blocks != [] {
        var items := o["content"].items;
        forall i | 0 <= i < |m.blocks| ensures items[i] == want[i] {
          BlockIsWire(m.blocks[i], items[i]);
        }
        assert items == want;
      }
      assert o == MarshalMessage(m).fields;
    }
  }

  /** The text at a key, or none when there is no text there. */
  predicate TextRead(o: Object, key: string, s: string) {
    if key in o && o[key].Str? then s == o[key].s else s == ""
  }

  /** What is read of a block, whatever stands there: each field from its own key, and nothing made up. */
  predicate BlockReads(j: JSON, b: Block) {
    if !j.Obj? then b == Block("", "", "", "", None, "", "", false)
    else
      var o := j.fields;
      && TextRead(o, "type", b.kind) && TextRead(o, "text", b.text) && TextRead(o, "id", b.id)
      && TextRead(o, "name", b.name) && TextRead(o, "tool_use_id", b.toolUseID) && TextRead(o, "content", b.content)
      && b.input == (if "input" in o && o["input"].Obj? then Some(o["input"].fields) else None)
      && (b.isError <==> "is_error" in o && o["is_error"] == Bool(true))
  }

  /** A value that is an object, or null, and has no role but a text. */
  predicate Outer(j: JSON) {
    j.Null? || (j.Obj? && MayBeString(j.fields, "role"))
  }

  predicate ContentReads(content: JSON, m: Message) {
    match content
    case Str(s) => m.content == s && m.blocks == []
    case Arr(items) =>
      m.content == "" && |m.blocks| == |items| && forall i :: 0 <= i < |items| ==> BlockReads(items[i], m.blocks[i])
    case _ => m.content == "" && m.blocks == []
  }

  /** What a value leaves in a message, accepted or not. */
  predicate MessageReads(before: Message, j: JSON, m: Message) {
    if !Outer(j) then m == before
    else if j.Null? then m == Message("", "", [])
    else TextRead(j.fields, "role", m.role) && ContentReads(if "content" in j.fields then j.fields["content"] else Null, m)
  }

  lemma ReadIs(j: JSON)
    ensures BlockReads(j, ReadBlock(j).value)
  {
  }

  /** Whatever is read, the message holds what stands in the value, and keeps nothing if that has the outer shape. */
  lemma UnmarshalReads(before: Message, j: JSON)
    ensures MessageReads(before, j, Unmarshal(before, j).value)
  {
    if j.Obj? && At(j.fields, "content").Arr? {
      var items := j.fields["content"].items;
      forall i | 0 <= i < |items| ensures BlockReads(items[i], ReadBlock(items[i]).value) {
        ReadIs(items[i]);
      }
    }
  }

  // ---- what is accepted -------------------------------------------------------------------------

  predicate MayBeString(o: Object, key: string) {
    key !in o || o[key].Null? || o[key].Str?
  }

  predicate BlockShape(j: JSON) {
    j.Null? || (j.Obj? && var o := j.fields;
      && (forall key :: key in {"type", "text", "id", "name", "tool_use_id", "content"} ==> MayBeString(o, key))
      && ("input" in o ==> o["input"].Null? || o["input"].Obj?)
      && ("is_error" in o ==> o["is_error"].Null? || o["is_error"].Bool?))
  }

  /** The wire shape of a message: a role, and content that is text or a list of blocks. */
  predicate MessageShape(j: JSON) {
    j.Null? || (j.Obj? && var o := j.fields;
      && MayBeString(o, "role")
      && (MayBeString(o, "content")
          || (o["content"].Arr? && forall i :: 0 <= i < |o["content"].items| ==> BlockShape(o["content"].items[i]))))
  }

  lemma BlockAccepted(j: JSON)
    ensures ReadBlock(j).ok <==> BlockShape(j)
  {
    if j.Obj? {
      var o := j.fields;
      assert forall key :: ReadString(At(o, key)).ok <==> MayBeString(o, key);
      assert BlockShape(j) ==>
        (MayBeString(o, "type") && MayBeString(o, "text") && MayBeString(o, "id")
         && MayBeString(o, "name") && MayBeString(o, "tool_use_id") && MayBeString(o, "content"));
    }
  }

  /** Exactly the values of the wire shape are accepted, and nothing of what was there before is left. */
  lemma AcceptedIffShape(before: Message, j: JSON)
    ensures Unmarshal(before, j).ok <==> MessageShape(j)
    ensures Unmarshal(before, j).ok ==> forall other :: Unmarshal(other, j) == Unmarshal(before, j)
  {
    if j.Obj? && At(j.fields, "content").Arr? {
      var items := j.fields["content"].items;
      forall i | 0 <= i < |items| ensures ReadBlock(items[i]).ok <==> BlockShape(items[i]) {
        BlockAccepted(items[i]);
      }
    }
  }

  /** Reading and writing any accepted value settles after one pass. */
  lemma RewriteSettles(before: Message, j: JSON)
    requires MessageShape(j)
    ensures var once := MarshalMessage(Unmarshal(before, j).value);
      MessageShape(once) && MarshalMessage(Unmarshal(before, once).value) == once
  {
    var m := Unmarshal(before, j).value;
    RoundTrip(m, before);
    AcceptedIffShape(before, MarshalMessage(m));
  }
}
