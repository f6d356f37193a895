/** What a wait's verdict says: of the logs, for every world, and of the last poll, in a calm one. */
module WatchEarly {
  import opened Options
  import opened Watch
  import opened WatchProofs
  import opened WatchReads
  import opened WatchCache
  import opened WatchAlways

  // ---- a match is trustworthy -------------------------------------------------------------------

  /** The log, as this content, is intact and holds the event. */
  predicate Holds(lib: Library, bytes: Bytes, e: Event) {
    lib.verify(bytes) == Intact && lib.scan(bytes).Events? && e in lib.scan(bytes).events
  }

  /** This read holds the event, at a time it allows. */
  predicate Matches(w: Wait, n: nat, k: nat, e: Event) {
    k < |w.paths| && w.world.read(n, k).Data? && Holds(w.lib, w.world.read(n, k).bytes, e)
    && Evidence(w.lib, w.q, w.world.wall(n, k), e)
  }

  lemma CheckMatches(w: Wait, n: nat, k: nat, st: State)
    requires !w.cached && k < |w.paths| && w.CheckAt(n, k, st).Looked? && w.CheckAt(n, k, st).event.Some?
    ensures Matches(w, n, k, w.CheckAt(n, k, st).event.value)
  {
    JudgeFinds(w.lib, w.q, w.world.wall(n, k), w.CheckAt(n, k, st).cache.events);
  }

  lemma {:induction false} PlainMatch(w: Wait, n: nat, k: nat, st: State) returns (l: nat)
    requires !w.cached && w.Ticks() && k <= |w.paths|
    ensures var o := w.Run(n, k, st); o.polls > 0 && (o.verdict.Found? ==> Matches(w, o.polls - 1, l, o.verdict.event))
    decreases w.Left(n), |w.paths| - k
  {
    RunUnfolds(w, n, k, st);
    l := k;
    if k < |w.paths| {
      var c := w.CheckAt(n, k, st);
      if Silent(c) {
        l := PlainMatch(w, n, k + 1, w.StateAfter(n, k, st));
      } else if c.Looked? {
        CheckMatches(w, n, k, st);
      }
    } else if w.world.mono(n) < w.Deadline() {
      l := PlainMatch(w, n + 1, 0, st);
    }
  }

  /**
   The log of path k held the event in an intact chain, as it was read at (m, l), and was as long when it
   was read for poll n: then the event was in the trust window.
   */
  ghost predicate Witnessed(w: Wait, e: Event, n: nat, k: nat, m: nat, l: nat) {
    && SamePath(w, l, k) && Before(m, l, n, k)
    && w.world.read(m, l).Data? && w.world.read(n, k).Data?
    && |w.world.read(m, l).bytes| == |w.world.read(n, k).bytes|
    && Holds(w.lib, w.world.read(m, l).bytes, e) && Evidence(w.lib, w.q, w.world.wall(n, k), e)
  }

  /** Where the content that the cached wait judges was read. */
  lemma MemoryWasRead(w: Wait, n: nat, k: nat) returns (m: nat, l: nat)
    requires k < |w.paths| && Memory(w, n, k).Data?
    ensures SamePath(w, l, k) && Before(m, l, n, k) && w.world.read(m, l) == Memory(w, n, k)
    ensures w.world.read(n, k).Data? && |w.world.read(n, k).bytes| == |Memory(w, n, k).bytes|
  {
    m, l := n, k;
    if Memory(w, n, k) != w.world.read(n, k) {
      var i := BasisWasRead(Reads(w, n, k), w.paths[k]);
      m, l := ReadIsOfWorld(w, n, k, i);
    }
  }

  /**
   In every world, also when logs are rewritten: what a wait returns was read during it from an intact
   chain, with the right fields, and was in the trust window in its last poll, when the log was as long.
   */
  lemma MatchIsTrustworthy(w: Wait) returns (k: nat, m: nat, l: nat)
    requires w.cached && w.Ticks()
    ensures var o := w.Spec();
      o.verdict.Found? ==> o.polls > 0 && Witnessed(w, o.verdict.event, o.polls - 1, k, m, l)
  {
    CacheIsMemory(w);
    var n := w.Spec().polls - 1;
    k := PlainMatch(Remembered(w), 0, 0, INITIAL);
    m, l := 0, 0;
    if w.Spec().verdict.Found? {
      m, l := MemoryWasRead(w, n, k);
    }
  }

  // ---- the refused count ------------------------------------------------------------------------

  /** The candidate lines of a log. */
  function LinesOf(w: Wait, bytes: Bytes): nat {
    if w.lib.scan(bytes).Events? then CandidateCount(w.lib, w.q, w.lib.scan(bytes).events) else 0
  }

  /** For each distinct path that was there, the candidate lines in what was last read of it. */
  function Counts(w: Wait, made: seq<Made>): map<string, nat> {
    map p | p in w.paths && LastData(made, p).Some? :: LinesOf(w, LastData(made, p).value)
  }

  /** No event was found in the checks so far, so all candidates were refused. */
  lemma RefusedAfter(w: Wait, n: nat, k: nat, st: State)
    requires !w.cached && k < |w.paths| && Silent(w.CheckAt(n, k, st)) && st.refusedByPath == Counts(w, st.made)
    ensures w.StateAfter(n, k, st).refusedByPath == Counts(w, w.StateAfter(n, k, st).made)
  {
    var read := w.world.read(n, k);
    MadeMore(st.made, w.MadeAt(n, k));
    if read.Data? {
      JudgeFinds(w.lib, w.q, w.world.wall(n, k), w.lib.scan(read.bytes).events);
    }
  }

  lemma {:induction false} PlainCounts(w: Wait, n: nat, k: nat, st: State)
    requires !w.cached && w.Ticks() && k <= |w.paths| && st.refusedByPath == Counts(w, st.made)
    ensures var o := w.Run(n, k, st); o.verdict.TimedOut? ==> o.verdict.refused == Total(Counts(w, o.made))
    decreases w.Left(n), |w.paths| - k
  {
    RunUnfolds(w, n, k, st);
    if k < |w.paths| {
      if Silent(w.CheckAt(n, k, st)) {
        RefusedAfter(w, n, k, st);
        PlainCounts(w, n, k + 1, w.StateAfter(n, k, st));
      }
    } else if w.world.mono(n) < w.Deadline() {
      PlainCounts(w, n + 1, 0, st);
    }
  }

  lemma CountsAlike(w: Wait, v: Wait, made: seq<Made>)
    requires v.paths == w.paths && v.lib == w.lib && v.q == w.q
    ensures Counts(v, made) == Counts(w, made)
  {
  }

  /**
   In every world: on timeout the refused count is that of the candidate lines in each distinct path, as
   the cache last knew it; and as it was last read, when its reads are told by their size.
   */
  lemma TimeoutCountsCandidates(w: Wait)
    requires w.cached && w.Ticks() && w.Spec().verdict.TimedOut?
    ensures w.Spec().verdict.refused == Total(Counts(w, Recall(w.Spec().made)))
    ensures Told(w.Spec().made) ==> w.Spec().verdict.refused == Total(Counts(w, w.Spec().made))
  {
    CacheIsMemory(w);
    PlainCounts(Remembered(w), 0, 0, INITIAL);
    CountsAlike(w, Remembered(w), Recall(w.Spec().made));
    ToldIffRecalled(w.Spec().made);
  }

  // ---- and that of the last poll ------------------------------------------------------------------

  /** The reads of one poll. */
  function PollReads(w: Wait, n: nat, k: nat): seq<Made>
    requires k <= |w.paths|
  {
    if k == 0 then [] else PollReads(w, n, k - 1) + [w.MadeAt(n, k - 1)]
  }

  lemma {:induction false} ReadsOfPoll(w: Wait, n: nat, k: nat)
    requires k <= |w.paths|
    ensures Reads(w, n, k) == Reads(w, n, 0) + PollReads(w, n, k)
  {
    if k > 0 {
      ReadsOfPoll(w, n, k - 1);
      assert Reads(w, n, 0) + PollReads(w, n, k) == Reads(w, n, 0) + PollReads(w, n, k - 1) + [w.MadeAt(n, k - 1)];
    }
  }

  lemma {:induction false} LastDataOf(a: seq<Made>, b: seq<Made>, path: string)
    ensures LastData(a + b, path) == if LastData(b, path).Some? then LastData(b, path) else LastData(a, path)
  {
    if b == [] {
      assert a + b == a;
    } else {
      assert Front(a + b) == a + Front(b) && Final(a + b) == Final(b);
      LastDataOf(a, Front(b), path);
    }
  }

  lemma {:induction false} TotalOfMore(m: map<string, nat>, part: map<string, nat>)
    requires part.Keys <= m.Keys && forall p :: p in part ==> part[p] == m[p]
    ensures Total(part) <= Total(m)
    ensures Total(part) == Total(m) <==> forall p :: p in m && p !in part ==> m[p] == 0
    decreases |m|
  {
    if p :| p in m && p !in part {
      TotalWithout(m, p);
      TotalOfMore(m - {p}, part);
    } else {
      assert part == m;
    }
  }

  lemma TimedOutAtEnd(w: Wait) returns (last: nat)
    requires w.Ticks() && w.Spec().verdict.TimedOut?
    ensures last + 1 == w.Spec().polls && w.Spec().made == Reads(w, last, |w.paths|)
  {
    var l := RunReads(w, 0, 0, INITIAL);
    last := w.Spec().polls - 1;
  }

  /**
   In every world: the refused count is that of the last poll, as the cache took it, exactly when no log
   that was there before and is not there in the last poll held a candidate, as the cache knew it last: its
   count is kept. When sizes tell the content that is the last poll as it was read.
   */
  lemma VanishedLogsStillCount(w: Wait) returns (last: nat, poll: seq<Made>)
    requires w.cached && w.Ticks() && w.Spec().verdict.TimedOut?
    ensures last + 1 == w.Spec().polls
    ensures |Recall(w.Spec().made)| >= |Reads(w, last, 0)| && poll == Recall(w.Spec().made)[|Reads(w, last, 0)|..]
    ensures var all := Counts(w, Recall(w.Spec().made));
      && (w.Spec().verdict.refused == Total(Counts(w, poll)) <==>
          forall p :: p in all && p !in Counts(w, poll) ==> all[p] == 0)
      && Total(Counts(w, poll)) <= w.Spec().verdict.refused
    ensures Told(w.Spec().made) ==> poll == PollReads(w, last, |w.paths|)
  {
    TimeoutCountsCandidates(w);
    last := TimedOutAtEnd(w);
    ReadsOfPoll(w, last, |w.paths|);
    ToldIffRecalled(w.Spec().made);
    var made, n := Recall(w.Spec().made), |Reads(w, last, 0)|;
    poll := made[n..];
    assert made == made[..n] + poll;
    forall p ensures LastData(made, p) == if LastData(poll, p).Some? then LastData(poll, p) else LastData(made[..n], p) {
      LastDataOf(made[..n], poll, p);
    }
    TotalOfMore(Counts(w, made), Counts(w, poll));
  }

  // ---- a calm world -----------------------------------------------------------------------------

  /** Scanning a log that grew finds the events of before, and then more. */
  ghost predicate ScansGrow(lib: Library) {
    forall a: Bytes, b: Bytes {:trigger lib.scan(a), lib.scan(b)} ::
      a <= b && lib.scan(a).Events? && lib.scan(b).Events? ==> lib.scan(a).events <= lib.scan(b).events
  }

  ghost predicate AllClean(w: Wait) {
    forall n: nat, k: nat {:trigger w.world.read(n, k)} :: k < |w.paths| ==> Clean(w.lib, w.world.read(n, k))
  }

  /** A log that is there stays there. */
  ghost predicate Stays(w: Wait) {
    forall n: nat, k: nat, m: nat, l: nat {:trigger w.world.read(n, k), w.world.read(m, l)} ::
      SamePath(w, k, l) && Before(n, k, m, l) && w.world.read(n, k).Data? ==> w.world.read(m, l).Data?
  }

  ghost predicate NeverBack(w: Wait) {
    forall n: nat, k: nat, m: nat, l: nat {:trigger w.world.wall(n, k), w.world.wall(m, l)} ::
      Before(n, k, m, l) ==> w.world.wall(n, k) <= w.world.wall(m, l)
  }

  /** Append-only logs that stay, with intact chains at every read, and a wall clock that never goes back. */
  ghost predicate Calm(w: Wait) {
    AppendOnly(w) && ScansGrow(w.lib) && AllClean(w) && Stays(w) && NeverBack(w)
  }

  /** The last poll the deadline allows. */
  ghost predicate LastPoll(w: Wait, last: nat) {
    w.world.mono(last) >= w.Deadline() && (last > 0 ==> w.world.mono(last - 1) < w.Deadline())
  }

  /** The log of path k, as it is read in poll n, holds an event of the run that is dated in the window. */
  ghost predicate Hit(w: Wait, n: nat, k: nat)
    requires k < |w.paths|
  {
    w.world.read(n, k).Data? && exists e :: Matches(w, n, k, e)
  }

  lemma HitIff(w: Wait, n: nat, k: nat)
    requires k < |w.paths| && Clean(w.lib, w.world.read(n, k))
    ensures Hit(w, n, k) <==> !Silent(Looks(w, n, k))
    ensures !Looks(w, n, k).Failed?
  {
    var read := w.world.read(n, k);
    if read.Data? {
      var events := w.lib.scan(read.bytes).events;
      JudgeFinds(w.lib, w.q, w.world.wall(n, k), events);
      if Looks(w, n, k).event.Some? {
        assert Matches(w, n, k, Looks(w, n, k).event.value);
      }
    }
  }

  lemma HitLasts(w: Wait, n: nat, k: nat, m: nat, l: nat)
    requires Calm(w) && SamePath(w, k, l) && Before(n, k, m, l) && Hit(w, n, k)
    ensures Hit(w, m, l)
  {
    var a, b := w.world.read(n, k), w.world.read(m, l);
    assert b.Data? && Grown(a, b) && Clean(w.lib, b);
    assert w.lib.scan(a.bytes).events <= w.lib.scan(b.bytes).events;
    var e :| Matches(w, n, k, e);
    assert w.world.wall(n, k) <= w.world.wall(m, l);
    LaterSeconds(w.world.wall(n, k), w.world.wall(m, l));
    assert Matches(w, m, l, e);
  }

  lemma LaterSeconds(a: int, b: int)
    requires a <= b
    ensures a / 1_000_000_000 <= b / 1_000_000_000
  {
  }

  lemma {:induction false} EarlierPollsEnd(w: Wait, last: nat, n: nat)
    requires w.Ticks() && LastPoll(w, last) && n < last
    ensures w.world.mono(n) < w.Deadline()
    decreases last - n
  {
    if n + 1 < last {
      EarlierPollsEnd(w, last, n + 1);
      assert w.Tick(n);
    }
  }

  /** A wait that comes to a hit of the last poll, if not before, finds a match. */
  lemma {:induction false} RunFinds(w: Wait, last: nat, n: nat, k: nat, st: State, hit: nat)
    requires !w.cached && w.Ticks() && AllClean(w) && LastPoll(w, last) && k <= |w.paths|
    requires hit < |w.paths| && Hit(w, last, hit) && Before(n, k, last, hit)
    ensures w.Run(n, k, st).verdict.Found?
    decreases last - n, |w.paths| - k
  {
    RunUnfolds(w, n, k, st);
    if k < |w.paths| {
      assert Clean(w.lib, w.world.read(n, k)) && w.CheckAt(n, k, st) == Looks(w, n, k);
      HitIff(w, n, k);
      if Silent(Looks(w, n, k)) {
        RunFinds(w, last, n, k + 1, w.StateAfter(n, k, st), hit);
      }
    } else {
      EarlierPollsEnd(w, last, n);
      RunFinds(w, last, n + 1, 0, st, hit);
    }
  }

  /** Without one it finds none before, and times out. */
  lemma {:induction false} RunTimesOut(w: Wait, last: nat, n: nat, k: nat, st: State)
    requires !w.cached && w.Ticks() && Calm(w) && LastPoll(w, last) && n <= last && k <= |w.paths|
    requires forall l: nat :: l < |w.paths| ==> !Hit(w, last, l)
    ensures w.Run(n, k, st).verdict.TimedOut?
    decreases last - n, |w.paths| - k
  {
    RunUnfolds(w, n, k, st);
    if k < |w.paths| {
      assert Clean(w.lib, w.world.read(n, k)) && w.CheckAt(n, k, st) == Looks(w, n, k);
      HitIff(w, n, k);
      if Hit(w, n, k) {
        HitLasts(w, n, k, last, k);
      }
      RunTimesOut(w, last, n, k + 1, w.StateAfter(n, k, st));
    } else if n < last {
      EarlierPollsEnd(w, last, n);
      RunTimesOut(w, last, n + 1, 0, st);
    }
  }

  lemma CalmIsTold(w: Wait)
    requires w.cached && w.Ticks() && AppendOnly(w)
    ensures Told(w.Spec().made) && Plain(w).Ticks() && Unseen(w)
  {
    var l := RunReads(w, 0, 0, INITIAL);
    AppendOnlyIsTold(w, w.Spec().polls - 1, l);
    CacheIsInvisible(w);
  }

  lemma CalmIsPlain(w: Wait)
    requires Calm(w)
    ensures Calm(Plain(w))
  {
    var p := Plain(w);
    forall n: nat, k: nat, m: nat, l: nat | SamePath(p, k, l) && Before(n, k, m, l)
      ensures Grown(p.world.read(n, k), p.world.read(m, l))
      ensures p.world.read(n, k).Data? ==> p.world.read(m, l).Data?
    {
      assert SamePath(w, k, l);
    }
    forall n: nat, k: nat | k < |p.paths| ensures Clean(p.lib, p.world.read(n, k)) {
      assert Clean(w.lib, w.world.read(n, k));
    }
  }

  lemma HitAlike(p: Wait, w: Wait, n: nat, k: nat)
    requires p.lib == w.lib && p.q == w.q && p.paths == w.paths && p.world == w.world && k < |w.paths|
    ensures Hit(p, n, k) <==> Hit(w, n, k)
  {
    forall e ensures Matches(p, n, k, e) <==> Matches(w, n, k, e) {
    }
  }

  /**
   Looking early gains and loses nothing: in a calm world a wait finds a match exactly when one look
   at every path, in the last poll the deadline allows, would; and if it finds none it times out.
   */
  lemma EarlyPollsChangeNothing(w: Wait, last: nat)
    requires w.cached && w.Ticks() && Calm(w) && LastPoll(w, last)
    ensures w.Spec().verdict.Found? <==> exists l: nat :: l < |w.paths| && Hit(w, last, l)
    ensures !w.Spec().verdict.Found? ==> w.Spec().verdict.TimedOut?
  {
    var p := Plain(w);
    CalmIsTold(w);
    CalmIsPlain(w);
    if hit: nat :| hit < |w.paths| && Hit(w, last, hit) {
      HitAlike(p, w, last, hit);
      RunFinds(p, last, 0, 0, INITIAL, hit);
    } else {
      forall l: nat | l < |p.paths| ensures !Hit(p, last, l) {
        HitAlike(p, w, last, l);
      }
      RunTimesOut(p, last, 0, 0, INITIAL);
    }
  }

  /** In a calm world the refused count is that of the last poll. */
  lemma CalmCountsLastPoll(w: Wait) returns (last: nat)
    requires w.cached && w.Ticks() && Calm(w) && w.Spec().verdict.TimedOut?
    ensures last + 1 == w.Spec().polls
    ensures w.Spec().verdict.refused == Total(Counts(w, PollReads(w, last, |w.paths|)))
  {
    CalmIsTold(w);
    ToldIffRecalled(w.Spec().made);
    var poll;
    last, poll := VanishedLogsStillCount(w);
    var last' := TimedOutAtEnd(w);
    forall p | p in Counts(w, w.Spec().made) ensures p in Counts(w, poll) {
      StillThere(w, last, p);
    }
  }

  lemma StillThere(w: Wait, last: nat, path: string)
    requires Stays(w) && LastData(Reads(w, last, |w.paths|), path).Some?
    ensures LastData(PollReads(w, last, |w.paths|), path).Some?
  {
    var i := LastDataWasRead(Reads(w, last, |w.paths|), path);
    var m, l := ReadIsOfWorld(w, last, |w.paths|, i);
    assert SamePath(w, l, l) && Before(m, l, last, l);
    assert w.world.read(last, l).Data?;
    InPoll(w, last, |w.paths|, l);
  }

  lemma {:induction false} InPoll(w: Wait, n: nat, k: nat, l: nat)
    requires l < k <= |w.paths| && w.world.read(n, l).Data?
    ensures LastData(PollReads(w, n, k), w.paths[l]).Some?
  {
    var made := PollReads(w, n, k);
    assert Front(made) == PollReads(w, n, k - 1) && Final(made) == w.MadeAt(n, k - 1);
    if l < k - 1 {
      InPoll(w, n, k - 1, l);
    }
  }

  // ---- where the assumption ends ----------------------------------------------------------------

  /** One log that is rewritten at its length after the first poll, watched for two. */
  function Rewritten(lib: Library): Wait {
    Wait(lib, Query("r", "s", "k", 0), ["log"],
         World((n: nat, k: nat) => Data(if n == 0 then [0] else [1]), (n: nat, k: nat) => 0,
               0, (n: nat) => n * POLL_INTERVAL),
         POLL_INTERVAL, true)
  }

  /** A library that finds one trusted event in [1], and none in anything else. */
  function Simple(): Library {
    Library(bytes => Intact, bytes => Events(if bytes == [1] then [Event("s", "k", "r", "")] else []), ts => Some(0))
  }

  lemma RewrittenTicks(lib: Library)
    ensures Rewritten(lib).Ticks() && Plain(Rewritten(lib)).Ticks()
  {
    forall n: nat ensures Rewritten(lib).Tick(n) && Plain(Rewritten(lib)).Tick(n) {
    }
  }

  /** With the cache the second content is never looked at. */
  lemma RewrittenCached(lib: Library)
    requires Rewritten(lib).Ticks() && lib.verify([0]) == Intact && lib.scan([0]) == Events([])
    ensures Rewritten(lib).Spec().verdict == TimedOut(0)
    ensures Rewritten(lib).Spec().made == [Made("log", Data([0])), Made("log", Data([1]))]
  {
    var w := Rewritten(lib);
    var a := w.StateAfter(0, 0, INITIAL);
    var b := w.StateAfter(1, 0, a);
    RunUnfolds(w, 0, 0, INITIAL);
    RunUnfolds(w, 0, 1, a);
    RunUnfolds(w, 1, 0, a);
    RunUnfolds(w, 1, 1, b);
    var m := b.refusedByPath;
    assert m == map["log" := 0];
    TotalWithout(m, "log");
    assert m - {"log"} == map[];
  }

  /** The plain wait ends as its second look does. */
  lemma RewrittenPlain(lib: Library, p: Wait, st: State)
    requires p == Plain(Rewritten(lib)) && p.Ticks() && lib.verify([0]) == Intact && lib.scan([0]) == Events([])
    requires st == p.StateAfter(0, 0, INITIAL)
    ensures p.Spec() == p.Run(1, 0, st)
  {
    RunUnfolds(p, 0, 0, INITIAL);
    RunUnfolds(p, 0, 1, st);
  }

  lemma SimpleFinds(p: Wait, st: State)
    requires p == Plain(Rewritten(Simple()))
    ensures p.CheckAt(1, 0, st).Looked? && p.CheckAt(1, 0, st).event.Some?
  {
    var e := Event("s", "k", "r", "");
    assert p.world.read(1, 0) == Data([1]) && p.lib.scan([1]) == Events([e]);
    assert Trusted(p.lib, p.q, 0, e);
    assert Judge(p.lib, p.q, 0, [e]).event == Some(e);
  }

  /** A log rewritten in place, at the same length, hides an event from the cache that is there. */
  lemma RewriteHidesFromCache(w: Wait)
    requires w == Rewritten(Simple())
    ensures w.cached && w.Ticks() && Plain(w).Ticks()
    ensures w.Spec().verdict.TimedOut? && Plain(w).Spec().verdict.Found?
  {
    RewrittenTicks(Simple());
    RewrittenCached(Simple());
    var p := Plain(w);
    var st := p.StateAfter(0, 0, INITIAL);
    RewrittenPlain(Simple(), p, st);
    RunUnfolds(p, 1, 0, st);
    SimpleFinds(p, st);
  }

  /** Rewritten so, a chain that is broken is passed over, where the plain wait says so. */
  lemma BrokenRewriteIsPassedOver(w: Wait)
    requires w == Rewritten(Breaks([1]))
    ensures w.cached && w.Ticks() && Plain(w).Ticks()
    ensures w.Spec().verdict == TimedOut(0) && PassesOver(w)
    ensures Plain(w).Spec().verdict.Erred? && Plain(w).Spec().verdict.error.ChainBreak?
  {
    RewrittenTicks(Breaks([1]));
    RewrittenCached(Breaks([1]));
    var p := Plain(w);
    var st := p.StateAfter(0, 0, INITIAL);
    RewrittenPlain(Breaks([1]), p, st);
    RunUnfolds(p, 1, 0, st);
    assert p.CheckAt(1, 0, st).Failed?;
    assert Survived(w.Spec(), 1) && !Clean(w.lib, w.Spec().made[1].read);
  }

  /** A log that shrinks and grows back, watched for three polls. */
  function Shrinking(): Wait {
    Rewritten(Quiet()).(timeout := 2 * POLL_INTERVAL,
      world := Rewritten(Quiet()).world.(read := (n: nat, k: nat) => Data(if n == 1 then [] else [0])))
  }

  lemma ShrinkingRun(w: Wait, a: State, b: State, c: State)
    requires w == Shrinking() && w.Ticks()
    requires a == w.StateAfter(0, 0, INITIAL) && b == w.StateAfter(1, 0, a) && c == w.StateAfter(2, 0, b)
    ensures w.Spec().verified == c.verified && w.Spec().made == c.made
  {
    RunUnfolds(w, 0, 0, INITIAL);
    RunUnfolds(w, 0, 1, a);
    RunUnfolds(w, 1, 0, a);
    RunUnfolds(w, 1, 1, b);
    RunUnfolds(w, 2, 0, b);
    RunUnfolds(w, 2, 1, c);
  }

  /** It is verified twice at one size. */
  lemma ShrinkingVerifiesTwice(w: Wait)
    requires w == Shrinking()
    ensures w.cached && w.Ticks() && w.Spec().verified == [("log", 1), ("log", 0), ("log", 1)]
    ensures ComesBack(w.Spec().made)
  {
    RewrittenTicks(Quiet());
    SameTicks(Rewritten(Quiet()), w);
    var a := w.StateAfter(0, 0, INITIAL);
    var b := w.StateAfter(1, 0, a);
    var c := w.StateAfter(2, 0, b);
    ShrinkingRun(w, a, b, c);
    assert BackAt(c.made, 0, 1, 2, "log", 1);
  }
}
