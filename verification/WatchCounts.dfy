/**
 The refused count of a wait that times out, against that of its last poll: the exact condition on the
 reads under which the two are the same for every library and every wall clock, and a log that breaks it.
 */
module WatchCounts {
  import opened Options
  import opened Watch
  import opened WatchProofs
  import opened WatchReads
  import opened WatchCache
  import opened WatchAlways
  import opened WatchEarly

  // ---- counting by content ----------------------------------------------------------------------

  /** What each path was last read as. */
  function Contents(paths: seq<string>, made: seq<Made>): map<string, Bytes> {
    map p | p in paths && LastData(made, p).Some? :: LastData(made, p).value
  }

  /** How many of the paths have this content. */
  function Holders(held: map<string, Bytes>, x: Bytes): nat {
    |set p | p in held && held[p] == x|
  }

  function Each(f: Bytes -> nat, held: map<string, Bytes>): map<string, nat> {
    map p | p in held :: f(held[p])
  }

  lemma HoldersWithout(held: map<string, Bytes>, p: string, x: Bytes)
    requires p in held
    ensures Holders(held, x) == Holders(held - {p}, x) + if held[p] == x then 1 else 0
  {
    var less := held - {p};
    var a, b := set q | q in held && held[q] == x, set q | q in less && less[q] == x;
    assert a == if held[p] == x then b + {p} else b;
  }

  lemma EachWithout(f: Bytes -> nat, held: map<string, Bytes>, p: string)
    requires p in held
    ensures Total(Each(f, held)) == f(held[p]) + Total(Each(f, held - {p}))
  {
    TotalWithout(Each(f, held), p);
    assert Each(f, held) - {p} == Each(f, held - {p});
  }

  lemma HoldersAre(held: map<string, Bytes>, x: Bytes)
    ensures held == map[] ==> Holders(held, x) == 0
    ensures forall p :: p in held && held[p] == x ==> Holders(held, x) > 0
  {
    var s := set p | p in held && held[p] == x;
    assert s <= held.Keys;
    forall p | p in held && held[p] == x ensures |s| > 0 {
      assert p in s;
    }
  }

  /** The sum depends on how many paths have each content, and on nothing else. */
  lemma {:induction false} SameTotals(f: Bytes -> nat, a: map<string, Bytes>, b: map<string, Bytes>)
    requires forall x :: Holders(a, x) == Holders(b, x)
    ensures Total(Each(f, a)) == Total(Each(f, b))
    decreases |a|
  {
    if p :| p in a {
      HoldersAre(a, a[p]);
      var q := SomeHolder(b, a[p]);
      LessAlike(a, b, p, q);
      EachWithout(f, a, p);
      EachWithout(f, b, q);
      SameTotals(f, a - {p}, b - {q});
    } else {
      assert a == map[];
      forall q ensures q !in b {
        if q in b {
          HoldersAre(a, b[q]);
          HoldersAre(b, b[q]);
        }
      }
      assert b == map[];
    }
  }

  lemma LessAlike(a: map<string, Bytes>, b: map<string, Bytes>, p: string, q: string)
    requires p in a && q in b && a[p] == b[q] && forall x :: Holders(a, x) == Holders(b, x)
    ensures forall x :: Holders(a - {p}, x) == Holders(b - {q}, x)
  {
    forall x ensures Holders(a - {p}, x) == Holders(b - {q}, x) {
      HoldersWithout(a, p, x);
      HoldersWithout(b, q, x);
    }
  }

  lemma SomeHolder(held: map<string, Bytes>, x: Bytes) returns (q: string)
    requires Holders(held, x) > 0
    ensures q in held && held[q] == x
  {
    var s := set p | p in held && held[p] == x;
    q :| q in s;
  }

  function Marks(x: Bytes): Bytes -> nat {
    b => if b == x then 1 else 0
  }

  lemma {:induction false} MarkedTotal(held: map<string, Bytes>, x: Bytes)
    ensures Total(Each(Marks(x), held)) == Holders(held, x)
    decreases |held|
  {
    if p :| p in held {
      EachWithout(Marks(x), held, p);
      HoldersWithout(held, p, x);
      MarkedTotal(held - {p}, x);
    } else {
      assert held == map[];
      HoldersAre(held, x);
    }
  }

  lemma CountsAreEach(w: Wait, made: seq<Made>, f: Bytes -> nat)
    requires forall b :: f(b) == LinesOf(w, b)
    ensures Counts(w, made) == Each(f, Contents(w.paths, made))
  {
  }

  // ---- a library that finds one candidate, and a clock that trusts none --------------------------

  /** One event, in this content alone, dated ten seconds after the request. */
  function OneLog(q: Query, x: Bytes): Library {
    Library(
      bytes => Intact,
      bytes => Events(if bytes == x then [Stamped(q, "")] else []),
      ts => Some(Floor(q) + 10 * SECOND))
  }

  /** The clock that stands still. */
  function Still(q: Query): (nat, nat) -> int {
    (n: nat, k: nat) => q.sentAt
  }

  lemma NothingTrusted(u: Wait, x: Bytes, n: nat, k: nat)
    requires u.lib == OneLog(u.q, x) && u.world.wall == Still(u.q) && k < |u.paths| && !u.world.read(n, k).Unreadable?
    ensures Silent(Looks(u, n, k))
  {
    LeapTells(u.q, Floor(u.q) + 10 * SECOND);
    var read := u.world.read(n, k);
    if read.Data? {
      JudgeFinds(u.lib, u.q, u.q.sentAt, u.lib.scan(read.bytes).events);
    }
  }

  lemma OneIsCounted(w: Wait, x: Bytes, b: Bytes)
    requires w.lib == OneLog(w.q, x)
    ensures Marks(x)(b) == LinesOf(w, b)
  {
    var e := Stamped(w.q, "");
    assert Candidate(w.lib, w.q, e);
    if b == x {
      assert w.lib.scan(b).events == [e] && [e][1..] == [];
      assert CandidateCount(w.lib, w.q, [e]) == 1 + CandidateCount(w.lib, w.q, [e][1..]);
    }
  }

  /** A plain wait that finds nothing wrong and nothing to trust runs as long as the patient one. */
  lemma {:induction false} RunsOut(w: Wait, z: Wait, n: nat, k: nat, st: State, sz: State)
    requires w.Ticks() && z.Ticks() && !w.cached && !z.cached && z.lib == Quiet() && Beside(w, z) && k <= |w.paths|
    requires forall m: nat, l: nat {:trigger Looks(w, m, l)} ::
      l < |w.paths| && !w.world.read(m, l).Unreadable? ==> Silent(Looks(w, m, l))
    ensures z.Run(n, k, sz).verdict.TimedOut? ==> w.Run(n, k, st).verdict.TimedOut?
    decreases w.Left(n), |w.paths| - k
  {
    RunUnfolds(w, n, k, st);
    RunUnfolds(z, n, k, sz);
    if k < |w.paths| {
      QuietCheck(z, n, k, sz);
      assert FailsAlike(w, z, n, k);
      assert w.CheckAt(n, k, st) == Looks(w, n, k);
      if !w.world.read(n, k).Unreadable? {
        RunsOut(w, z, n, k + 1, w.StateAfter(n, k, st), z.StateAfter(n, k, sz));
      }
    } else if w.world.mono(n) < w.Deadline() {
      RunsOut(w, z, n + 1, 0, st, sz);
    }
  }

  lemma OneTimesOut(w: Wait, x: Bytes, v: Wait)
    requires w.cached && w.Ticks() && v == With(w, OneLog(w.q, x), Still(w.q))
    requires Patient(w).Ticks() && Patient(w).Spec().verdict.TimedOut?
    ensures v.Ticks() && v.Spec().verdict.TimedOut?
  {
    SameTicks(w, v);
    CacheIsMemory(v);
    var u := Remembered(v);
    forall m: nat, l: nat | l < |u.paths| && !u.world.read(m, l).Unreadable? ensures Silent(Looks(u, m, l)) {
      NothingTrusted(u, x, m, l);
    }
    RunsOut(u, Patient(w), 0, 0, INITIAL, INITIAL);
  }

  // ---- the reads of a wait that times out --------------------------------------------------------

  /** It ends with the last poll the deadline allows, like the patient wait. */
  lemma TimedOutReads(w: Wait, v: Wait) returns (last: nat)
    requires w.Ticks() && v.Ticks() && v == With(w, v.lib, v.world.wall) && v.Spec().verdict.TimedOut?
    requires Patient(w).Ticks() && Patient(w).Spec().verdict.TimedOut?
    ensures last + 1 == v.Spec().polls == Patient(w).Spec().polls
    ensures v.Spec().made == Longest(w) == Reads(w, last, |w.paths|)
  {
    var z := Patient(w);
    last := TimedOutAtEnd(v);
    var other := TimedOutAtEnd(z);
    PollsInTime(v, 0, 0, INITIAL);
    PollsInTime(z, 0, 0, INITIAL);
    if last < other {
      EarlierPollsEnd(z, other, last);
    } else if other < last {
      EarlierPollsEnd(v, last, other);
    }
    SameReads(w, v, last, |w.paths|);
    SameReads(w, z, last, |w.paths|);
  }

  /** The refused count is that of the last poll. */
  ghost predicate CountsLastPoll(w: Wait) {
    w.Ticks() && (w.Spec().verdict.TimedOut? ==>
      w.Spec().polls > 0 && w.Spec().verdict.refused == Total(Counts(w, PollReads(w, w.Spec().polls - 1, |w.paths|))))
  }

  /** As many paths have each content as the cache knew them last as do in the last poll. */
  ghost predicate HeldAlike(w: Wait, last: nat)
    requires w.Ticks()
  {
    forall x: Bytes ::
      Holders(Contents(w.paths, Recall(Longest(w))), x) == Holders(Contents(w.paths, PollReads(w, last, |w.paths|)), x)
  }

  lemma {:induction false} SamePollReads(w: Wait, v: Wait, n: nat, k: nat)
    requires k <= |w.paths| && v.paths == w.paths && v.world.read == w.world.read
    ensures PollReads(v, n, k) == PollReads(w, n, k)
    decreases k
  {
    if k > 0 {
      SamePollReads(w, v, n, k - 1);
    }
  }

  /** The two counts, as sums over contents. */
  lemma CountsAreTotals(w: Wait, v: Wait, last: nat, f: Bytes -> nat)
    requires w.cached && w.Ticks() && v.Ticks() && v == With(w, v.lib, v.world.wall) && v.Spec().verdict.TimedOut?
    requires Patient(w).Ticks() && Patient(w).Spec().verdict.TimedOut? && last + 1 == Patient(w).Spec().polls
    requires forall b :: f(b) == LinesOf(v, b)
    ensures v.Spec().verdict.refused == Total(Each(f, Contents(w.paths, Recall(Longest(w)))))
    ensures v.Spec().polls == last + 1
    ensures Counts(v, PollReads(v, last, |w.paths|)) == Each(f, Contents(w.paths, PollReads(w, last, |w.paths|)))
  {
    TimeoutCountsCandidates(v);
    var l := TimedOutReads(w, v);
    CountsAreEach(v, Recall(Longest(w)), f);
    CountsAreEach(v, PollReads(v, last, |w.paths|), f);
    SamePollReads(w, v, last, |w.paths|);
  }

  /** A content that more or fewer paths have in the last poll makes a library whose count tells. */
  lemma UnlikeIsCounted(w: Wait, last: nat, x: Bytes)
    requires w.cached && w.Ticks() && Patient(w).Ticks() && Patient(w).Spec().verdict.TimedOut?
    requires last + 1 == Patient(w).Spec().polls && CountsLastPoll(With(w, OneLog(w.q, x), Still(w.q)))
    ensures Holders(Contents(w.paths, Recall(Longest(w))), x)
         == Holders(Contents(w.paths, PollReads(w, last, |w.paths|)), x)
  {
    var v := With(w, OneLog(w.q, x), Still(w.q));
    OneTimesOut(w, x, v);
    forall b ensures Marks(x)(b) == LinesOf(v, b) {
      OneIsCounted(v, x, b);
    }
    CountsAreTotals(w, v, last, Marks(x));
    MarkedTotal(Contents(w.paths, Recall(Longest(w))), x);
    MarkedTotal(Contents(w.paths, PollReads(w, last, |w.paths|)), x);
  }

  lemma AlikeIsCounted(w: Wait, last: nat, v: Wait)
    requires w.cached && w.Ticks() && Patient(w).Ticks() && Patient(w).Spec().verdict.TimedOut?
    requires last + 1 == Patient(w).Spec().polls && HeldAlike(w, last) && v == With(w, v.lib, v.world.wall)
    ensures CountsLastPoll(v)
  {
    SameTicks(w, v);
    if v.Spec().verdict.TimedOut? {
      var f: Bytes -> nat := b => LinesOf(v, b);
      CountsAreTotals(w, v, last, f);
      SameTotals(f, Contents(w.paths, Recall(Longest(w))), Contents(w.paths, PollReads(w, last, |w.paths|)));
    }
  }

  /**
   Where no file is unreadable: whatever the library and the wall clock, a wait that times out counts what
   its last poll refused, if and only if each content is that of as many paths in the last poll as it is of
   paths as the cache knew them last.
   */
  lemma CountIsLastPollsIff(w: Wait, last: nat)
    requires w.cached && w.Ticks() && Patient(w).Ticks() && Patient(w).Spec().verdict.TimedOut?
    requires last + 1 == Patient(w).Spec().polls
    ensures (forall lib: Library, wall: (nat, nat) -> int {:trigger With(w, lib, wall)} ::
              CountsLastPoll(With(w, lib, wall)))
            <==> HeldAlike(w, last)
  {
    if HeldAlike(w, last) {
      forall lib: Library, wall: (nat, nat) -> int ensures CountsLastPoll(With(w, lib, wall)) {
        AlikeIsCounted(w, last, With(w, lib, wall));
      }
    }
    if forall lib: Library, wall: (nat, nat) -> int {:trigger With(w, lib, wall)} :: CountsLastPoll(With(w, lib, wall)) {
      forall x: Bytes
        ensures Holders(Contents(w.paths, Recall(Longest(w))), x)
             == Holders(Contents(w.paths, PollReads(w, last, |w.paths|)), x)
      {
        assert CountsLastPoll(With(w, OneLog(w.q, x), Still(w.q)));
        UnlikeIsCounted(w, last, x);
      }
    }
  }

  // ---- a log that vanishes ----------------------------------------------------------------------

  /** One log with one candidate, refused on time, that is gone in the second and last poll. */
  function Vanishing(): Wait {
    var q := Query("r", "s", "k", 0);
    Wait(OneLog(q, [1]), q, ["log"],
         World((n: nat, k: nat) => if n == 0 then Data([1]) else NotExist, Still(q), 0, (n: nat) => n * POLL_INTERVAL),
         POLL_INTERVAL, true)
  }

  /** It is counted, though the last poll refused nothing. */
  lemma VanishedLogIsCounted(w: Wait)
    requires w == Vanishing()
    ensures w.cached && w.Ticks() && w.Spec().verdict == TimedOut(1) && w.Spec().polls == 2
    ensures Total(Counts(w, PollReads(w, 1, 1))) == 0
  {
    forall n: nat ensures w.Tick(n) {
    }
    VanishingRun(w);
    NothingThere(w);
  }

  lemma NothingThere(w: Wait)
    requires w == Vanishing()
    ensures Total(Counts(w, PollReads(w, 1, 1))) == 0
  {
    var poll := PollReads(w, 1, 1);
    assert poll == [] + [w.MadeAt(1, 0)];
    assert Front(poll) == [] && LastData(poll, "log") == None;
    assert Counts(w, poll) == map[];
  }

  /** A wait for one path that finds nothing in its first poll, nor in its second and last. */
  lemma TwoPolls(w: Wait, a: State, b: State)
    requires w.Ticks() && |w.paths| == 1 && w.world.mono(0) < w.Deadline() <= w.world.mono(1)
    requires a == w.StateAfter(0, 0, INITIAL) && b == w.StateAfter(1, 0, a)
    requires Silent(w.CheckAt(0, 0, INITIAL)) && Silent(w.CheckAt(1, 0, a))
    ensures w.Spec().verdict == TimedOut(Total(b.refusedByPath)) && w.Spec().polls == 2
  {
    RunUnfolds(w, 0, 0, INITIAL);
    RunUnfolds(w, 0, 1, a);
    RunUnfolds(w, 1, 0, a);
    RunUnfolds(w, 1, 1, b);
  }

  lemma VanishingRun(w: Wait)
    requires w == Vanishing() && w.Ticks()
    ensures w.Spec().verdict == TimedOut(1) && w.Spec().polls == 2
  {
    var a := w.StateAfter(0, 0, INITIAL);
    var b := w.StateAfter(1, 0, a);
    VanishingStates(w, a, b);
    TwoPolls(w, a, b);
  }

  lemma VanishingStates(w: Wait, a: State, b: State)
    requires w == Vanishing() && a == w.StateAfter(0, 0, INITIAL) && b == w.StateAfter(1, 0, a)
    ensures Silent(w.CheckAt(0, 0, INITIAL)) && Silent(w.CheckAt(1, 0, a)) && Total(b.refusedByPath) == 1
  {
    VanishingCheck(w);
    assert b.refusedByPath == a.refusedByPath == map["log" := 1];
    TotalWithout(b.refusedByPath, "log");
    assert b.refusedByPath - {"log"} == map[];
  }

  lemma VanishingCheck(w: Wait)
    requires w == Vanishing()
    ensures var c := w.CheckAt(0, 0, INITIAL); c.Looked? && c.event.None? && c.refused == 1
  {
    var e := Stamped(w.q, "");
    assert w.CheckAt(0, 0, INITIAL) == Looks(w, 0, 0);
    NothingTrusted(w, [1], 0, 0);
    assert w.lib.scan([1]) == Events([e]);
    JudgeFinds(w.lib, w.q, w.world.wall(0, 0), [e]);
    OneIsCounted(w, [1], [1]);
  }
}
