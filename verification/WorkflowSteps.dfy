/** The run: steps of a workflow, as run_steps of the same script finds them: their keys, their blocks, their scripts. */
module WorkflowSteps {
  import opened Text
  import opened GrepOptions

  // ---- the run: steps of a workflow -------------------------------------------------------------

  function Lines(text: string): (r: seq<string>)
    ensures |r| >= 1
    ensures forall n :: 0 <= n < |r| ==> Find(r[n], '\n', 0) == |r[n]|
    decreases |text|
  {
    var e := Find(text, '\n', 0);
    if e == |text| then [text] else [text[..e]] + Lines(text[e + 1..])
  }

  function Joined(lines: seq<string>): string {
    if lines == [] then "" else if |lines| == 1 then lines[0] else lines[0] + "\n" + Joined(lines[1..])
  }

  datatype Key = NoRun | Run(indent: nat, rest: string)

  /** The match of the pattern for a run: key, with or without the dash of a list item. */
  function RunKey(line: string): (k: Key)
    ensures k.Run? ==> |k.rest| <= |line| && k.rest == line[|line| - |k.rest|..]
  {
    var w := SpaceEnd(line, 0, true);
    var d := if At(line, w, "- ") then w + 2 else w;
    if At(line, d, "run:") then Run(d, line[SpaceEnd(line, d + 4, true)..]) else NoRun
  }

  predicate Block(rest: string) {
    rest != "" && (rest[0] == '|' || rest[0] == '>')
  }

  /** A line that belongs to the block of a key at this indent: blank, or deeper. */
  predicate Deeper(line: string, indent: nat) {
    SpaceEnd(line, 0, true) == |line| || SpaceEnd(line, 0, true) > indent
  }

  function BlockEnd(lines: seq<string>, j: nat, indent: nat): (r: nat)
    requires j <= |lines|
    ensures j <= r <= |lines|
    ensures forall n :: j <= n < r ==> Deeper(lines[n], indent)
    ensures r < |lines| ==> !Deeper(lines[r], indent)
    decreases |lines| - j
  {
    if j < |lines| && Deeper(lines[j], indent) then BlockEnd(lines, j + 1, indent) else j
  }

  /** A step: the lines it covers, the line its script starts on, and the script. */
  datatype RunStep = RunStep(header: nat, end: nat, offset: nat, script: string)

  function StepAt(lines: seq<string>, i: nat): (s: RunStep)
    requires i < |lines| && RunKey(lines[i]).Run?
    ensures s.header == i < s.end <= |lines|
  {
    var k := RunKey(lines[i]);
    if Block(k.rest) then
      var j := BlockEnd(lines, i + 1, k.indent);
      RunStep(i, j, i + 1, Joined(lines[i + 1..j]))
    else RunStep(i, i + 1, i, k.rest)
  }

  function StepsFrom(lines: seq<string>, i: nat): (r: seq<RunStep>)
    requires i <= |lines|
    decreases |lines| - i
  {
    if i == |lines| then []
    else if RunKey(lines[i]).NoRun? then StepsFrom(lines, i + 1)
    else [StepAt(lines, i)] + StepsFrom(lines, StepAt(lines, i).end)
  }

  /** The inner loop of run_steps. */
  method ScanBlock(lines: seq<string>, start: nat, indent: nat) returns (j: nat)
    requires start <= |lines|
    ensures j == BlockEnd(lines, start, indent)
  {
    j := start;
    while j < |lines| && Deeper(lines[j], indent)
      invariant start <= j <= |lines|
      invariant BlockEnd(lines, j, indent) == BlockEnd(lines, start, indent)
    {
      j := j + 1;
    }
  }

  lemma NextStep(lines: seq<string>, i: nat, s: RunStep, steps: seq<RunStep>)
    requires i < |lines| && RunKey(lines[i]).Run? && s == StepAt(lines, i)
    ensures steps + StepsFrom(lines, i) == (steps + [s]) + StepsFrom(lines, s.end)
  {
    assert StepsFrom(lines, i) == [s] + StepsFrom(lines, s.end);
  }

  /** The generator run_steps, run to its end. */
  method RunSteps(text: string) returns (steps: seq<RunStep>)
    ensures steps == StepsFrom(Lines(text), 0)
  {
    var lines, i := Lines(text), 0;
    steps := [];
    while i < |lines|
      invariant i <= |lines|
      invariant steps + StepsFrom(lines, i) == StepsFrom(lines, 0)
    {
      var m := RunKey(lines[i]);
      if m.NoRun? {
        i := i + 1;
        continue;
      }
      var s := RunStep(i, i + 1, i, m.rest);
      if Block(m.rest) {
        var j := ScanBlock(lines, i + 1, m.indent);
        s := RunStep(i, j, i + 1, Joined(lines[i + 1..j]));
      }
      NextStep(lines, i, s, steps);
      steps, i := steps + [s], s.end;
    }
  }

  // ---- keys and blocks, as they are written ------------------------------------------------------

  /** How a run: key is written: blanks, perhaps the dash of a list item, the key, blanks, and the rest. */
  datatype KeyLine = KeyLine(margin: string, item: bool, gap: string, rest: string)

  predicate IsKeyLine(line: string, k: KeyLine) {
    && Spaces(k.margin) && Spaces(k.gap) && (k.rest != "" ==> !Space(k.rest[0]))
    && line == k.margin + ((if k.item then "- " else "") + ("run:" + (k.gap + k.rest)))
  }

  function KeyOf(k: KeyLine): Key {
    Run(|k.margin| + if k.item then 2 else 0, k.rest)
  }

  lemma AfterMargin(line: string, margin: string, rest: string)
    requires line == margin + rest && Spaces(margin) && (rest != "" ==> !Space(rest[0]))
    ensures SpaceEnd(line, 0, true) == |margin|
  {
    assert line[0..] == line;
    RunEnds(line, 0, margin, rest, true);
  }

  /** Past the margin, perhaps a dash, and the key. */
  lemma KeyAt(line: string, w: nat, item: bool, tail: string)
    requires w <= |line| && line[w..] == (if item then "- " else "") + ("run:" + tail)
    ensures At(line, w, "- ") <==> item
    ensures var d := if item then w + 2 else w; At(line, d, "run:") && line[d + 4..] == tail
  {
    var body := line[w..];
    var d := if item then w + 2 else w;
    assert line[w] == body[0] == if item then '-' else 'r';
    assert line[w..w + 2] == body[..2];
    assert line[d..] == "run:" + tail;
    assert line[d..d + 4] == line[d..][..4] && line[d + 4..] == line[d..][4..];
  }

  lemma KeyRead(line: string, w: nat, d: nat, gap: string, rest: string)
    requires w <= |line| && SpaceEnd(line, 0, true) == w && d == (if At(line, w, "- ") then w + 2 else w)
    requires At(line, d, "run:") && line[d + 4..] == gap + rest && Spaces(gap) && (rest != "" ==> !Space(rest[0]))
    ensures RunKey(line) == Run(d, rest)
  {
    RunEnds(line, d + 4, gap, rest, true);
  }

  lemma KeyLineRead(line: string, k: KeyLine)
    requires IsKeyLine(line, k)
    ensures RunKey(line) == KeyOf(k)
  {
    var w := |k.margin|;
    var body := (if k.item then "- " else "") + ("run:" + (k.gap + k.rest));
    MarginCut(line, k.margin, body, if k.item then '-' else 'r');
    KeyAt(line, w, k.item, k.gap + k.rest);
    KeyRead(line, w, if k.item then w + 2 else w, k.gap, k.rest);
  }

  lemma MarginCut(line: string, margin: string, body: string, first: char)
    requires line == margin + body && Spaces(margin) && body != "" && body[0] == first && !Space(first)
    ensures |margin| <= |line| && line[|margin|..] == body && SpaceEnd(line, 0, true) == |margin|
  {
    AfterMargin(line, margin, body);
  }

  lemma KeyCut(line: string, w: nat, d: nat, e: nat)
    requires w <= d && d + 4 <= e <= |line|
    ensures line == line[..w] + (line[w..d] + (line[d..d + 4] + (line[d + 4..e] + line[e..])))
  {
    assert line[d..] == line[d..d + 4] + (line[d + 4..e] + line[e..]);
    assert line[w..] == line[w..d] + line[d..];
  }

  lemma KeyLineFrom(line: string) returns (k: KeyLine)
    requires RunKey(line).Run?
    ensures IsKeyLine(line, k)
  {
    var w := SpaceEnd(line, 0, true);
    var item := At(line, w, "- ");
    var d := if item then w + 2 else w;
    var e := SpaceEnd(line, d + 4, true);
    k := KeyLine(line[..w], item, line[d + 4..e], line[e..]);
    SpacesTo(line, 0);
    SpacesTo(line, d + 4);
    assert line[0..w] == line[..w];
    KeyJoined(line, w, d, e, k);
  }

  lemma KeyJoined(line: string, w: nat, d: nat, e: nat, k: KeyLine)
    requires w <= d && d + 4 <= e <= |line| && At(line, d, "run:")
    requires if k.item then d == w + 2 && At(line, w, "- ") else d == w
    requires k.margin == line[..w] && k.gap == line[d + 4..e] && k.rest == line[e..]
    ensures line == k.margin + ((if k.item then "- " else "") + ("run:" + (k.gap + k.rest)))
  {
    KeyCut(line, w, d, e);
    assert line[w..d] == if k.item then "- " else "";
  }

  /** A line is a key exactly when it is written so, and then with that indent and that rest. */
  lemma KeyIff(line: string, key: Key)
    requires key.Run?
    ensures RunKey(line) == key <==> exists k :: IsKeyLine(line, k) && KeyOf(k) == key
  {
    if RunKey(line) == key {
      var k := KeyLineFrom(line);
      KeyLineRead(line, k);
    }
    forall k | IsKeyLine(line, k) ensures RunKey(line) == KeyOf(k) {
      KeyLineRead(line, k);
    }
  }

  ghost predicate HasKey(line: string) {
    exists k :: IsKeyLine(line, k)
  }

  /** A line of the block of a key: all blank, or with more blanks before it than the key has. */
  predicate InBlock(line: string, indent: nat) {
    Spaces(line) || (|line| > indent && Spaces(line[..indent + 1]))
  }

  lemma DeeperIff(line: string, indent: nat)
    ensures Deeper(line, indent) <==> InBlock(line, indent)
  {
    var e := SpaceEnd(line, 0, true);
    if e < |line| {
      assert !Space(line[e]);
      if |line| > indent {
        assert forall k :: 0 <= k <= indent ==> line[k] == line[..indent + 1][k];
      }
    }
  }

  /**
   What a step is: a key, and its script. After | or > that is the lines of its block, all of them and no
   more; otherwise it is the rest of the line.
   */
  ghost predicate StepIs(lines: seq<string>, s: RunStep) {
    && s.header < s.end <= |lines|
    && exists k :: IsKeyLine(lines[s.header], k) && StepOf(lines, s, KeyOf(k))
  }

  predicate StepOf(lines: seq<string>, s: RunStep, key: Key)
    requires key.Run? && s.header < s.end <= |lines|
  {
    if key.rest != "" && key.rest[0] in {'|', '>'} then
      && s.offset == s.header + 1 && s.script == Joined(lines[s.header + 1..s.end])
      && (forall n :: s.header < n < s.end ==> InBlock(lines[n], key.indent))
      && (s.end < |lines| ==> !InBlock(lines[s.end], key.indent))
    else s.end == s.header + 1 && s.offset == s.header && s.script == key.rest
  }

  lemma StepAtIs(lines: seq<string>, i: nat)
    requires i < |lines| && RunKey(lines[i]).Run?
    ensures StepIs(lines, StepAt(lines, i))
  {
    var s, key := StepAt(lines, i), RunKey(lines[i]);
    var k := KeyLineFrom(lines[i]);
    KeyLineRead(lines[i], k);
    forall n | i < n < |lines| ensures Deeper(lines[n], key.indent) <==> InBlock(lines[n], key.indent) {
      DeeperIff(lines[n], key.indent);
    }
    assert StepOf(lines, s, key);
  }

  /** Every step that is found is one. */
  lemma StepsAre(text: string, s: RunStep)
    requires s in StepsFrom(Lines(text), 0)
    ensures StepIs(Lines(text), s)
  {
    StepsAreSteps(Lines(text), 0, s);
    StepAtIs(Lines(text), s.header);
  }

  ghost predicate IsStep(lines: seq<string>, i: nat, s: RunStep) {
    i <= s.header < s.end <= |lines| && RunKey(lines[s.header]).Run? && s == StepAt(lines, s.header)
  }

  /** Each step is the step of a run: key at or after i. */
  lemma {:induction false} StepsAreSteps(lines: seq<string>, i: nat, s: RunStep)
    requires i <= |lines| && s in StepsFrom(lines, i)
    ensures IsStep(lines, i, s)
    decreases |lines| - i
  {
    if RunKey(lines[i]).NoRun? {
      StepsAreSteps(lines, i + 1, s);
    } else if s != StepAt(lines, i) {
      StepsAreSteps(lines, StepAt(lines, i).end, s);
    }
  }

  /** The steps cover lines in order, and none twice. */
  lemma {:induction false} StepsInOrder(lines: seq<string>, i: nat, n: nat, m: nat)
    requires i <= |lines| && n < m < |StepsFrom(lines, i)|
    ensures StepsFrom(lines, i)[n].end <= StepsFrom(lines, i)[m].header
    decreases |lines| - i
  {
    if RunKey(lines[i]).NoRun? {
      StepsInOrder(lines, i + 1, n, m);
    } else {
      var end := StepAt(lines, i).end;
      var rest := StepsFrom(lines, end);
      assert StepsFrom(lines, i)[m] == rest[m - 1];
      if n > 0 {
        StepsInOrder(lines, end, n - 1, m - 1);
      } else {
        StepsAreSteps(lines, end, rest[m - 1]);
      }
    }
  }

  ghost predicate Covered(r: seq<RunStep>, l: nat) {
    exists s :: s in r && s.header <= l < s.end
  }

  lemma {:induction false} KeysCover(lines: seq<string>, i: nat, l: nat)
    requires i <= l < |lines| && RunKey(lines[l]).Run?
    ensures Covered(StepsFrom(lines, i), l)
    decreases |lines| - i
  {
    if RunKey(lines[i]).NoRun? {
      KeysCover(lines, i + 1, l);
    } else {
      var s, r := StepAt(lines, i), StepsFrom(lines, i);
      assert s in r;
      if l >= s.end {
        KeysCover(lines, s.end, l);
        var t :| t in StepsFrom(lines, s.end) && t.header <= l < t.end;
        assert t in r;
      }
    }
  }

  /** No run: key goes unread: it begins a step, or stands in the block of one. */
  lemma StepsCover(lines: seq<string>, l: nat)
    requires l < |lines| && HasKey(lines[l])
    ensures Covered(StepsFrom(lines, 0), l)
  {
    var k :| IsKeyLine(lines[l], k);
    KeyLineRead(lines[l], k);
    KeysCover(lines, 0, l);
  }
}
