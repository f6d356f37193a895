/**
 The file watcher of internal/watch/watch.go: a loop that polls logs other programs write, until a
 trustworthy event appears or the time is up.

 The outside world is a trace: what each read of each poll returns, and what the two clocks say. The
 wall clock dates events; the monotonic clock, which time.Time.Truncate drops and time.Time.Before
 uses, measures the deadline. Chain verification, scanning and timestamp parsing are functions of the
 bytes that the library gives, and nothing more is known of them.
 */
module Watch {
  import opened Options

  newtype byte = x: int | 0 <= x < 256
  type Bytes = seq<byte>

  const SECOND := 1_000_000_000
  const POLL_INTERVAL := 200_000_000

  datatype Event = Event(source: string, kind: string, runID: string, ts: string)

  datatype Chain = Intact | Broken(line: nat, found: string, expected: string) | Unverifiable(why: string)
  datatype Scanned = Events(events: seq<Event>) | Unscannable(why: string)

  datatype Library = Library(
    verify: Bytes -> Chain,
    scan: Bytes -> Scanned,
    parseTS: string -> Option<int>)

  datatype Read = Data(bytes: Bytes) | NotExist | Unreadable(why: string)

  datatype Error =
    | ReadError(why: string)
    | VerifyError(why: string)
    | ChainBreak(path: string, line: nat, found: string, expected: string)
    | ScanError(why: string)

  datatype World = World(
    read: (nat, nat) -> Read,   // what the read of the path with this index returns, in this poll
    wall: (nat, nat) -> int,    // the wall clock when that read is judged
    start: int,                 // the monotonic clock when the wait begins
    mono: nat -> int)           // the monotonic clock at the end of a poll

  datatype Query = Query(runID: string, source: string, kind: string, sentAt: int)

  datatype Cache = Cache(size: nat, events: seq<Event>)

  // ---- the trust window -------------------------------------------------------------------------

  /** time.Time.Truncate: down to a multiple of d. */
  function Truncate(t: int, d: int): int
    requires d > 0
  {
    t - t % d
  }

  function Floor(q: Query): int {
    Truncate(q.sentAt, SECOND)
  }

  function Ceiling(now: int): int {
    Truncate(now, SECOND) + 2 * SECOND
  }

  predicate InWindow(q: Query, now: int, ts: int) {
    !(ts < Floor(q)) && ts < Ceiling(now)
  }

  predicate FieldsMatch(q: Query, e: Event) {
    e.source == q.source && e.kind == q.kind && e.runID == q.runID
  }

  /** The line has the right fields and a time, so time alone decides. */
  predicate Candidate(lib: Library, q: Query, e: Event) {
    FieldsMatch(q, e) && lib.parseTS(e.ts).Some?
  }

  predicate Trusted(lib: Library, q: Query, now: int, e: Event) {
    Candidate(lib, q, e) && InWindow(q, now, lib.parseTS(e.ts).value)
  }

  datatype Judged = Judged(event: Option<Event>, refused: nat)

  /** The first trusted event, and how many candidates before it were refused on time. */
  function Judge(lib: Library, q: Query, now: int, events: seq<Event>): Judged {
    if events == [] then Judged(None, 0)
    else if Trusted(lib, q, now, events[0]) then Judged(Some(events[0]), 0)
    else
      var rest := Judge(lib, q, now, events[1..]);
      rest.(refused := rest.refused + if Candidate(lib, q, events[0]) then 1 else 0)
  }

  // ---- one path, one read -----------------------------------------------------------------------

  datatype Loaded = Bad(error: Error) | Good(events: seq<Event>)

  /** The verified events of what was read. */
  function Load(lib: Library, path: string, bytes: Bytes): Loaded {
    match lib.verify(bytes)
    case Unverifiable(why) => Bad(VerifyError(why))
    case Broken(line, found, expected) => Bad(ChainBreak(path, line, found, expected))
    case Intact =>
      match lib.scan(bytes)
      case Unscannable(why) => Bad(ScanError(why))
      case Events(events) => Good(events)
  }

  datatype Checked =
    | Missing
    | Failed(error: Error)
    | Looked(event: Option<Event>, refused: nat, cache: Cache)

  /** What one check of a path comes to, with the cache of the check before it. */
  function Check(lib: Library, q: Query, path: string, read: Read, now: int, prev: Option<Cache>): Checked {
    match read
    case NotExist => Missing
    case Unreadable(why) => Failed(ReadError(why))
    case Data(bytes) =>
      var loaded := if prev.Some? && prev.value.size == |bytes| then Good(prev.value.events) else Load(lib, path, bytes);
      match loaded
      case Bad(error) => Failed(error)
      case Good(events) =>
        var j := Judge(lib, q, now, events);
        Looked(j.event, j.refused, Cache(|bytes|, events))
  }

  /** Whether that check runs the chain verification. */
  predicate Verifies(read: Read, prev: Option<Cache>) {
    read.Data? && !(prev.Some? && prev.value.size == |read.bytes|)
  }

  lemma {:induction false} JudgeSplit(lib: Library, q: Query, now: int, a: seq<Event>, b: seq<Event>)
    requires Judge(lib, q, now, a).event.None?
    ensures var ja, jb := Judge(lib, q, now, a), Judge(lib, q, now, b);
      Judge(lib, q, now, a + b) == Judged(jb.event, ja.refused + jb.refused)
  {
    if a == [] {
      assert a + b == b;
    } else {
      assert (a + b)[1..] == a[1..] + b;
      JudgeSplit(lib, q, now, a[1..], b);
    }
  }

  /** One more event: it ends the search, or it does not and may be counted. */
  lemma JudgeNext(lib: Library, q: Query, now: int, events: seq<Event>, n: nat, refused: nat)
    requires n < |events| && Judge(lib, q, now, events[..n]) == Judged(None, refused)
    ensures var e := events[n];
      if Trusted(lib, q, now, e) then Judge(lib, q, now, events) == Judged(Some(e), refused)
      else Judge(lib, q, now, events[..n + 1]) == Judged(None, refused + if Candidate(lib, q, e) then 1 else 0)
  {
    var e := events[n];
    assert events[..n + 1] == events[..n] + [e] && events == events[..n] + events[n..];
    JudgeSplit(lib, q, now, events[..n], [e]);
    JudgeSplit(lib, q, now, events[..n], events[n..]);
  }

  /** The function checkPath. */
  method CheckPath(lib: Library, q: Query, path: string, read: Read, now: int, prev: Option<Cache>)
    returns (c: Checked)
    ensures c == Check(lib, q, path, read, now, prev)
  {
    if read.NotExist? {
      return Missing;
    } else if read.Unreadable? {
      return Failed(ReadError(read.why));
    }
    var data := read.bytes;
    var cache := Cache(|data|, []);
    if prev.Some? && prev.value.size == |data| {
      cache := prev.value;
    } else {
      var report := lib.verify(data);
      if report.Unverifiable? {
        return Failed(VerifyError(report.why));
      }
      if report.Broken? {
        return Failed(ChainBreak(path, report.line, report.found, report.expected));
      }
      var scanned := lib.scan(data);
      if scanned.Unscannable? {
        return Failed(ScanError(scanned.why));
      }
      cache := Cache(|data|, scanned.events);
    }
    var floor := Truncate(q.sentAt, SECOND);
    var ceiling := Truncate(now, SECOND) + 2 * SECOND;
    var refused := 0;
    var events := cache.events;
    for n := 0 to |events|
      invariant Judge(lib, q, now, events[..n]) == Judged(None, refused)
    {
      var e := events[n];
      JudgeNext(lib, q, now, events, n, refused);
      if e.source != q.source || e.kind != q.kind || e.runID != q.runID {
        continue;
      }
      var ts := lib.parseTS(e.ts);
      if ts.None? {
        continue;
      }
      if ts.value < floor || !(ts.value < ceiling) {
        refused := refused + 1;
        continue;
      }
      return Looked(Some(e), refused, cache);
    }
    assert events[..|events|] == events;
    return Looked(None, refused, cache);
  }

  // ---- the loop ---------------------------------------------------------------------------------

  datatype Verdict = Found(event: Event) | Erred(error: Error) | TimedOut(refused: nat)

  /** A read that was made: of which path, and what it returned. */
  datatype Made = Made(path: string, read: Read)

  /** What a wait comes to, after how many polls, the sizes it verified each path's chain at, and its reads. */
  datatype Outcome = Outcome(verdict: Verdict, polls: nat, verified: seq<(string, nat)>, made: seq<Made>)

  datatype State = State(
    caches: map<string, Cache>,
    refusedByPath: map<string, nat>,
    verified: seq<(string, nat)>,
    made: seq<Made>)

  const INITIAL := State(map[], map[], [], [])

  /** One wait: cached is false for the watcher that reads, verifies and scans everything every time. */
  datatype Wait = Wait(lib: Library, q: Query, paths: seq<string>, world: World, timeout: int, cached: bool)
  {
    function Deadline(): int {
      world.start + timeout
    }

    function Prev(st: State, path: string): Option<Cache> {
      if cached && path in st.caches then Some(st.caches[path]) else None
    }

    function CheckAt(n: nat, k: nat, st: State): Checked
      requires k < |paths|
    {
      Check(lib, q, paths[k], world.read(n, k), world.wall(n, k), Prev(st, paths[k]))
    }

    function MadeAt(n: nat, k: nat): Made
      requires k < |paths|
    {
      Made(paths[k], world.read(n, k))
    }

    /** The state after the check of path k in poll n. */
    function StateAfter(n: nat, k: nat, st: State): State
      requires k < |paths|
    {
      var c, path, read := CheckAt(n, k, st), paths[k], world.read(n, k);
      State(
        if c.Looked? then st.caches[path := c.cache] else st.caches,
        if c.Looked? then st.refusedByPath[path := c.refused] else st.refusedByPath,
        if Verifies(read, Prev(st, path)) then st.verified + [(path, |read.bytes|)] else st.verified,
        st.made + [MadeAt(n, k)])
    }

    /** Time passes: every sleep lasts at least the poll interval. */
    ghost predicate Ticks() {
      world.start <= world.mono(0) && forall n: nat :: Tick(n)
    }

    ghost predicate Tick(n: nat) {
      world.mono(n) + POLL_INTERVAL <= world.mono(n + 1)
    }

    ghost function Left(n: nat): nat {
      if world.mono(n) < Deadline() then Deadline() - world.mono(n) else 0
    }

    /** The rest of the wait, from path k of poll n. */
    ghost function Run(n: nat, k: nat, st: State): Outcome
      requires Ticks() && k <= |paths|
      decreases Left(n), |paths| - k, 1
    {
      if k < |paths| then RunOn(n, k, st) else RunPast(n, st)
    }

    ghost function RunOn(n: nat, k: nat, st: State): Outcome
      requires Ticks() && k < |paths|
      decreases Left(n), |paths| - k, 0
    {
      var c, st' := CheckAt(n, k, st), StateAfter(n, k, st);
      match c
      case Missing => Run(n, k + 1, st')
      case Failed(error) => Outcome(Erred(error), n + 1, st'.verified, st'.made)
      case Looked(event, _, _) =>
        if event.Some? then Outcome(Found(event.value), n + 1, st'.verified, st'.made) else Run(n, k + 1, st')
    }

    ghost function RunPast(n: nat, st: State): Outcome
      requires Ticks()
      decreases Left(n), 0, 0
    {
      if !(world.mono(n) < Deadline()) then Outcome(TimedOut(Total(st.refusedByPath)), n + 1, st.verified, st.made)
      else assert Tick(n); Run(n + 1, 0, st)
    }

    ghost function Spec(): Outcome
      requires Ticks()
    {
      Run(0, 0, INITIAL)
    }
  }

  /** The check ends nothing. */
  predicate Silent(c: Checked) {
    c.Missing? || (c.Looked? && c.event.None?)
  }

  /** One turn of the wait. */
  lemma RunUnfolds(w: Wait, n: nat, k: nat, st: State)
    requires w.Ticks() && k <= |w.paths|
    ensures k < |w.paths| && Silent(w.CheckAt(n, k, st)) ==> w.Run(n, k, st) == w.Run(n, k + 1, w.StateAfter(n, k, st))
    ensures k < |w.paths| && !Silent(w.CheckAt(n, k, st)) ==>
      var c, after := w.CheckAt(n, k, st), w.StateAfter(n, k, st);
      w.Run(n, k, st) ==
        Outcome(if c.Failed? then Erred(c.error) else Found(c.event.value), n + 1, after.verified, after.made)
    ensures k == |w.paths| ==>
      w.Run(n, k, st) == if w.world.mono(n) < w.Deadline() then w.Run(n + 1, 0, st)
                         else Outcome(TimedOut(Total(st.refusedByPath)), n + 1, st.verified, st.made)
    ensures w.Tick(n)
  {
    if k < |w.paths| {
      assert w.Run(n, k, st) == w.RunOn(n, k, st);
    } else {
      assert w.Run(n, k, st) == w.RunPast(n, st);
    }
  }

  // ---- the sum over a map, in whatever order it is ranged over -----------------------------------

  ghost function Total(m: map<string, nat>): nat {
    if m == map[] then 0 else
    var p :| p in m;
    m[p] + Total(m - {p})
  }

  lemma {:induction false} TotalWithout(m: map<string, nat>, p: string)
    requires p in m
    ensures Total(m) == m[p] + Total(m - {p})
    decreases |m|
  {
    var x :| x in m && Total(m) == m[x] + Total(m - {x});
    if x != p {
      TotalWithout(m - {x}, p);
      TotalWithout(m - {p}, x);
      assert m - {x} - {p} == m - {p} - {x};
    }
  }

  method SumOf(m: map<string, nat>) returns (total: nat)
    ensures total == Total(m)
  {
    total := 0;
    var left := m;
    while left != map[]
      invariant left.Keys <= m.Keys && total + Total(left) == Total(m)
      decreases |left|
    {
      assert left.Keys != {};
      var p :| p in left;
      TotalWithout(left, p);
      total := total + left[p];
      left := left - {p};
    }
  }

  /** FileWatcher, whose method never changes it. */
  class FileWatcher {
    const paths: seq<string>

    constructor (paths: seq<string>)
      ensures this.paths == paths
    {
      this.paths := paths;
    }

    /** The method Wait. */
    method WaitFor(lib: Library, q: Query, timeout: int, world: World)
      returns (verdict: Verdict, polls: nat, ghost verified: seq<(string, nat)>, ghost made: seq<Made>)
      requires Wait(lib, q, paths, world, timeout, true).Ticks()
      ensures Outcome(verdict, polls, verified, made) == Wait(lib, q, paths, world, timeout, true).Spec()
    {
      ghost var w := Wait(lib, q, paths, world, timeout, true);
      var deadline := world.start + timeout;
      var caches: map<string, Cache> := map[];
      var refusedByPath: map<string, nat> := map[];
      polls, verified, made := 0, [], [];
      while true
        invariant w.Run(polls, 0, State(caches, refusedByPath, verified, made)) == w.Spec()
        decreases w.Left(polls)
      {
        for k := 0 to |paths|
          invariant w.Run(polls, k, State(caches, refusedByPath, verified, made)) == w.Spec()
        {
          var path := paths[k];
          var prev := if path in caches then Some(caches[path]) else None;
          ghost var st := State(caches, refusedByPath, verified, made);
          RunUnfolds(w, polls, k, st);
          assert w.Prev(st, path) == prev;
          var c := CheckPath(lib, q, path, world.read(polls, k), world.wall(polls, k), prev);
          verified, made := w.StateAfter(polls, k, st).verified, w.StateAfter(polls, k, st).made;
          if c.Looked? {
            caches := caches[path := c.cache];
          }
          if c.Missing? {
            continue;
          }
          if c.Failed? {
            return Erred(c.error), polls + 1, verified, made;
          }
          refusedByPath := refusedByPath[path := c.refused];
          if c.event.Some? {
            return Found(c.event.value), polls + 1, verified, made;
          }
        }
        RunUnfolds(w, polls, |paths|, State(caches, refusedByPath, verified, made));
        if !(world.mono(polls) < deadline) {
          var total := SumOf(refusedByPath);
          return TimedOut(total), polls + 1, verified, made;
        }
        polls := polls + 1;
      }
    }
  }
}
