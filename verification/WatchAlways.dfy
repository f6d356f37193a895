/**
 Two promises of a wait, as conditions on the reads alone, whatever the library makes of their content and
 whatever the wall clock says: the cache is never seen, and no broken chain is passed over. Each holds
 for every library and every clock if and only if its condition does.
 */
module WatchAlways {
  import opened Options
  import opened Watch
  import opened WatchProofs
  import opened WatchReads
  import opened WatchCache

  /** The same files and deadline, with another library and another wall clock. */
  function With(w: Wait, lib: Library, wall: (nat, nat) -> int): Wait {
    w.(lib := lib, world := w.world.(wall := wall))
  }

  /** The library that accepts every chain and finds nothing in any. */
  function Quiet(): Library {
    Library(bytes => Intact, bytes => Events([]), ts => None)
  }

  /** The plain wait that only an unreadable file or the deadline ends. */
  function Patient(w: Wait): Wait {
    Plain(w).(lib := Quiet())
  }

  /** The reads of that wait: no wait on these files makes more. */
  ghost function Longest(w: Wait): seq<Made>
    requires w.Ticks()
  {
    SameTicks(w, Patient(w));
    Patient(w).Spec().made
  }

  // ---- runs on the same files -------------------------------------------------------------------

  /** The same paths, clock and deadline, and the same reads fail. */
  ghost predicate Beside(w: Wait, v: Wait) {
    && v.paths == w.paths && v.world.mono == w.world.mono && v.world.start == w.world.start && v.timeout == w.timeout
    && forall n: nat, k: nat :: FailsAlike(w, v, n, k)
  }

  predicate FailsAlike(w: Wait, v: Wait, n: nat, k: nat) {
    v.world.read(n, k).Unreadable? <==> w.world.read(n, k).Unreadable?
  }

  /** The same files, as they are read, and the same clock and deadline. */
  ghost predicate SameFiles(w: Wait, v: Wait) {
    && v.paths == w.paths && v.world.read == w.world.read
    && v.world.mono == w.world.mono && v.world.start == w.world.start && v.timeout == w.timeout
  }

  lemma {:induction false} SameReads(w: Wait, v: Wait, n: nat, k: nat)
    requires k <= |w.paths| && v.paths == w.paths && v.world.read == w.world.read
    ensures Reads(v, n, k) == Reads(w, n, k)
    decreases n, k
  {
    if k > 0 {
      SameReads(w, v, n, k - 1);
    } else if n > 0 {
      SameReads(w, v, n - 1, |w.paths|);
    }
  }

  lemma {:induction false} RunExtends(w: Wait, n: nat, k: nat, st: State)
    requires w.Ticks() && k <= |w.paths|
    ensures st.made <= w.Run(n, k, st).made
    ensures w.Run(n, k, st).verdict.Erred? ==> st.made < w.Run(n, k, st).made
    decreases w.Left(n), |w.paths| - k
  {
    RunUnfolds(w, n, k, st);
    if k < |w.paths| {
      var c := w.CheckAt(n, k, st);
      if Silent(c) {
        RunExtends(w, n, k + 1, w.StateAfter(n, k, st));
      }
    } else if w.world.mono(n) < w.Deadline() {
      RunExtends(w, n + 1, 0, st);
    }
  }

  /** With the quiet library only a file that cannot be read ends a check. */
  lemma QuietCheck(z: Wait, n: nat, k: nat, sz: State)
    requires z.lib == Quiet() && !z.cached && k < |z.paths|
    ensures Silent(z.CheckAt(n, k, sz)) <==> !z.world.read(n, k).Unreadable?
  {
  }

  /** A wait on these files, cached or not, makes some of the reads of the patient one, from the first on. */
  lemma {:induction false} RunIsPrefix(w: Wait, z: Wait, n: nat, k: nat, st: State, sz: State)
    requires w.Ticks() && z.Ticks() && k <= |w.paths| && z.lib == Quiet() && !z.cached
    requires SameFiles(w, z) && st.made == sz.made
    ensures w.Run(n, k, st).made <= z.Run(n, k, sz).made
    decreases w.Left(n), |w.paths| - k
  {
    RunUnfolds(w, n, k, st);
    RunUnfolds(z, n, k, sz);
    if k < |w.paths| {
      QuietCheck(z, n, k, sz);
      if Silent(w.CheckAt(n, k, st)) {
        RunIsPrefix(w, z, n, k + 1, w.StateAfter(n, k, st), z.StateAfter(n, k, sz));
      } else if !w.world.read(n, k).Unreadable? {
        RunExtends(z, n, k + 1, z.StateAfter(n, k, sz));
      }
    } else if w.world.mono(n) < w.Deadline() {
      RunIsPrefix(w, z, n + 1, 0, st, sz);
    }
  }

  /** The plain check of path k in poll n. */
  function Looks(w: Wait, n: nat, k: nat): Checked
    requires k < |w.paths|
  {
    Check(w.lib, w.q, w.paths[k], w.world.read(n, k), w.world.wall(n, k), None)
  }

  /** Every file that reads, before path l of poll m, is sound and holds nothing to find. */
  ghost predicate SilentTill(w: Wait, m: nat, l: nat) {
    forall n: nat, k: nat {:trigger Looks(w, n, k)} ::
      k < |w.paths| && Before(n, k + 1, m, l) && !w.world.read(n, k).Unreadable? ==> Silent(Looks(w, n, k))
  }

  lemma TooShort(z: Wait, n: nat, k: nat, m: nat, l: nat)
    requires k <= |z.paths| && l < |z.paths| && Before(n, k, m, l)
    ensures !(Reads(z, m, l + 1) <= Reads(z, n, k))
  {
    ReadsGrow(z, n, k, m, l);
  }

  /** A plain wait that finds nothing before a read of the patient one makes that read. */
  lemma {:induction false} Reaches(w: Wait, z: Wait, n: nat, k: nat, st: State, sz: State, m: nat, l: nat)
    returns (end: State)
    requires w.Ticks() && z.Ticks() && !w.cached && !z.cached && z.lib == Quiet() && Beside(w, z)
    requires k <= |w.paths| && l < |w.paths| && Before(n, k, m, l) && SilentTill(w, m, l)
    requires sz.made == Reads(z, n, k) && Reads(z, m, l + 1) <= z.Run(n, k, sz).made && st.made == Reads(w, n, k)
    ensures w.Run(n, k, st) == w.Run(m, l, end) && end.made == Reads(w, m, l)
    decreases w.Left(n), |w.paths| - k
  {
    RunUnfolds(w, n, k, st);
    RunUnfolds(z, n, k, sz);
    if n == m && k == l {
      end := st;
    } else if k < |w.paths| {
      if w.world.read(n, k).Unreadable? {
        TooShort(z, n, k + 1, m, l);
      }
      QuietCheck(z, n, k, sz);
      assert FailsAlike(w, z, n, k);
      assert w.CheckAt(n, k, st) == Looks(w, n, k);
      end := Reaches(w, z, n, k + 1, w.StateAfter(n, k, st), z.StateAfter(n, k, sz), m, l);
    } else {
      if !(w.world.mono(n) < w.Deadline()) {
        TooShort(z, n, k, m, l);
      }
      end := Reaches(w, z, n + 1, 0, st, sz, m, l);
    }
  }

  lemma ComesTo(w: Wait, u: Wait, m: nat, l: nat) returns (end: State)
    requires w.Ticks() && u.Ticks() && !u.cached && Beside(u, Patient(w))
    requires l < |w.paths| && SilentTill(u, m, l) && Reads(w, m, l + 1) <= Longest(w)
    ensures u.Spec() == u.Run(m, l, end) && end.made == Reads(u, m, l)
  {
    var z := Patient(w);
    SameTicks(w, z);
    SameReads(w, z, m, l + 1);
    end := Reaches(u, z, 0, 0, INITIAL, INITIAL, m, l);
  }

  // ---- the cache is not seen --------------------------------------------------------------------

  lemma TakenIsRead(w: Wait, n: nat, k: nat, st: State, plain: State)
    requires w.cached && k < |w.paths| && Kept(w, st) && st.made == Reads(w, n, k)
    requires Told(w.StateAfter(n, k, st).made)
    ensures w.CheckAt(n, k, st) == Plain(w).CheckAt(n, k, plain)
  {
    var m := w.MadeAt(n, k);
    MadeMore(st.made, m);
    var all := st.made + [m];
    ToldFront(all);
    ToldBasis(st.made, m.path);
    assert ToldAt(all, |st.made|) && all[..|st.made|] == st.made;
    CheckAgrees(w, n, k, st, plain);
  }

  lemma ToldSoFar(w: Wait, n: nat, k: nat, st: State)
    requires w.Ticks() && k < |w.paths| && Told(w.Run(n, k, st).made)
    ensures Told(w.StateAfter(n, k, st).made)
  {
    var after, made := w.StateAfter(n, k, st).made, w.Run(n, k, st).made;
    RunUnfolds(w, n, k, st);
    if Silent(w.CheckAt(n, k, st)) {
      RunExtends(w, n, k + 1, w.StateAfter(n, k, st));
    }
    ToldPrefix(made, |after|);
    assert made[..|after|] == after;
  }

  lemma {:induction false} RunsSame(w: Wait, n: nat, k: nat, st: State, plain: State)
    requires w.cached && w.Ticks() && Plain(w).Ticks() && k <= |w.paths| && Kept(w, st) && st.made == Reads(w, n, k)
    requires Told(w.Run(n, k, st).made) && st.refusedByPath == plain.refusedByPath && plain.made == st.made
    ensures var o, p := w.Run(n, k, st), Plain(w).Run(n, k, plain);
      o.verdict == p.verdict && o.polls == p.polls && o.made == p.made
    decreases w.Left(n), |w.paths| - k
  {
    RunUnfolds(w, n, k, st);
    RunUnfolds(Plain(w), n, k, plain);
    if k < |w.paths| {
      ToldSoFar(w, n, k, st);
      TakenIsRead(w, n, k, st, plain);
      if Silent(w.CheckAt(n, k, st)) {
        KeptAfter(w, n, k, st);
        RunsSame(w, n, k + 1, w.StateAfter(n, k, st), Plain(w).StateAfter(n, k, plain));
      }
    } else if w.world.mono(n) < w.Deadline() {
      RunsSame(w, n + 1, 0, st, plain);
    }
  }

  /** The cache is not seen: verdict, polls and reads are those of the plain wait. */
  ghost predicate Unseen(w: Wait)
    requires w.Ticks() && Plain(w).Ticks()
  {
    var o, p := w.Spec(), Plain(w).Spec();
    o.verdict == p.verdict && o.polls == p.polls && o.made == p.made
  }

  /** When every log read to be as long as before is the same as before, the cache is not seen. */
  lemma CacheIsInvisible(w: Wait)
    requires w.cached && w.Ticks() && Told(w.Spec().made)
    ensures Plain(w).Ticks() && Unseen(w)
  {
    SameTicks(w, Plain(w));
    RunsSame(w, 0, 0, INITIAL, INITIAL);
  }

  // ---- when it is seen --------------------------------------------------------------------------

  lemma {:induction false} FirstUntold(made: seq<Made>) returns (j: nat)
    requires !Told(made)
    ensures j < |made| && Told(made[..j]) && !ToldAt(made, j)
  {
    assert made[..|made| - 1] == Front(made);
    ToldFront(made);
    if Told(Front(made)) {
      j := |made| - 1;
    } else {
      j := FirstUntold(Front(made));
      assert Front(made)[..j] == made[..j];
    }
  }

  function Stamped(q: Query, ts: string): Event {
    Event(q.source, q.kind, q.runID, ts)
  }

  /** A library that finds one event in a, another in b, and both dated ten seconds after the request. */
  function TwoLogs(q: Query, a: Bytes, b: Bytes): Library {
    Library(
      bytes => Intact,
      bytes => Events(if bytes == a then [Stamped(q, "a")] else if bytes == b then [Stamped(q, "b")] else []),
      ts => Some(Floor(q) + 10 * SECOND))
  }

  /** A clock that stands still till path l of poll m, and then is ten seconds on. */
  function Leap(q: Query, m: nat, l: nat): (nat, nat) -> int {
    (n: nat, k: nat) => if Before(n, k + 1, m, l) then q.sentAt else q.sentAt + 10 * SECOND
  }

  lemma LeapTells(q: Query, ts: int)
    requires ts == Floor(q) + 10 * SECOND
    ensures !InWindow(q, q.sentAt, ts) && InWindow(q, q.sentAt + 10 * SECOND, ts)
  {
  }

  lemma NothingYet(u: Wait, a: Bytes, b: Bytes, m: nat, l: nat)
    requires u.lib == TwoLogs(u.q, a, b) && u.world.wall == Leap(u.q, m, l)
    ensures SilentTill(u, m, l)
  {
    LeapTells(u.q, Floor(u.q) + 10 * SECOND);
    forall n: nat, k: nat | k < |u.paths| && Before(n, k + 1, m, l) && !u.world.read(n, k).Unreadable?
      ensures Silent(Looks(u, n, k))
    {
      var read := u.world.read(n, k);
      if read.Data? {
        JudgeFinds(u.lib, u.q, u.world.wall(n, k), u.lib.scan(read.bytes).events);
      }
    }
  }

  lemma FoundNow(u: Wait, a: Bytes, b: Bytes, m: nat, l: nat, end: State, e: Event)
    requires u.lib == TwoLogs(u.q, a, b) && u.world.wall == Leap(u.q, m, l) && !u.cached && u.Ticks() && l < |u.paths|
    requires u.world.read(m, l).Data? && u.lib.scan(u.world.read(m, l).bytes) == Events([e]) && FieldsMatch(u.q, e)
    ensures u.Run(m, l, end).verdict == Found(e)
  {
    LeapTells(u.q, Floor(u.q) + 10 * SECOND);
    assert !Before(m, l + 1, m, l);
    assert Trusted(u.lib, u.q, u.world.wall(m, l), e);
    RunUnfolds(u, m, l, end);
    assert u.CheckAt(m, l, end).event == Some(e);
  }

  /** A read that is as long as the one before, and other, is taken for it: here two waits find two events. */
  lemma UntoldIsSeen(w: Wait, m: nat, l: nat, a: Bytes, b: Bytes)
    requires w.cached && w.Ticks() && l < |w.paths| && Reads(w, m, l + 1) <= Longest(w)
    requires w.world.read(m, l) == Data(b) && Basis(Reads(w, m, l), w.paths[l]) == Some(a) && |a| == |b| && a != b
    ensures var v := With(w, TwoLogs(w.q, a, b), Leap(w.q, m, l));
      v.Ticks() && Plain(v).Ticks() && v.Spec().verdict != Plain(v).Spec().verdict
  {
    var v := With(w, TwoLogs(w.q, a, b), Leap(w.q, m, l));
    var p, r := Plain(v), Remembered(v);
    SameTicks(w, v);
    SameTicks(w, p);
    SameReads(w, v, m, l);
    NothingYet(p, a, b, m, l);
    var end := ComesTo(w, p, m, l);
    FoundNow(p, a, b, m, l, end, Stamped(w.q, "b"));
    CacheIsMemory(v);
    NothingYet(r, a, b, m, l);
    end := ComesTo(w, r, m, l);
    FoundNow(r, a, b, m, l, end, Stamped(w.q, "a"));
  }

  ghost predicate NeverSeen(w: Wait) {
    w.Ticks() && Plain(w).Ticks() && Unseen(w)
  }

  lemma LongestIsOfWorld(w: Wait, j: nat) returns (m: nat, l: nat)
    requires w.Ticks() && j < |Longest(w)|
    ensures l < |w.paths| && Longest(w)[j] == w.MadeAt(m, l) && Longest(w)[..j] == Reads(w, m, l)
    ensures Reads(w, m, l + 1) <= Longest(w)
  {
    var z := Patient(w);
    SameTicks(w, z);
    var e := RunReads(z, 0, 0, INITIAL);
    SameReads(w, z, z.Spec().polls - 1, e);
    m, l := ReadIsOfWorld(w, z.Spec().polls - 1, e, j);
    assert Longest(w)[..j + 1] == Longest(w)[..j] + [Longest(w)[j]];
  }

  /** The reads of a wait are some of the longest, whatever its library and its clock. */
  lemma WithIsPrefix(w: Wait, v: Wait)
    requires w.Ticks() && v == With(w, v.lib, v.world.wall)
    ensures v.Ticks() && v.Spec().made <= Longest(w)
  {
    SameTicks(w, v);
    SameTicks(w, Patient(w));
    RunIsPrefix(v, Patient(w), 0, 0, INITIAL, INITIAL);
  }

  /**
   Whatever the library and the wall clock, the cache is not seen, if and only if every log that is read
   to be as long as before is the same as before.
   */
  lemma CacheIsInvisibleIff(w: Wait)
    requires w.cached && w.Ticks()
    ensures (forall lib: Library, wall: (nat, nat) -> int {:trigger With(w, lib, wall)} :: NeverSeen(With(w, lib, wall)))
            <==> Told(Longest(w))
  {
    if Told(Longest(w)) {
      forall lib: Library, wall: (nat, nat) -> int ensures NeverSeen(With(w, lib, wall)) {
        var v := With(w, lib, wall);
        WithIsPrefix(w, v);
        ToldPrefix(Longest(w), |v.Spec().made|);
        assert Longest(w)[..|v.Spec().made|] == v.Spec().made;
        CacheIsInvisible(v);
      }
    } else {
      var made := Longest(w);
      var j := FirstUntold(made);
      var m, l := LongestIsOfWorld(w, j);
      var path := w.paths[l];
      ToldBasis(made[..j], path);
      var a, b := LastData(made[..j], path).value, made[j].read.bytes;
      UntoldIsSeen(w, m, l, a, b);
      assert !NeverSeen(With(w, TwoLogs(w.q, a, b), Leap(w.q, m, l)));
    }
  }

  // ---- nothing broken is passed over ------------------------------------------------------------

  /** A log that is not there yet, or reads, verifies and scans. */
  predicate Clean(lib: Library, read: Read) {
    read.NotExist? || (read.Data? && lib.verify(read.bytes) == Intact && lib.scan(read.bytes).Events?)
  }

  /** The wait went on from a read that was not clean, or ended well with it. */
  ghost predicate PassesOver(w: Wait)
    requires w.Ticks()
  {
    !CleanFrom(w.lib, w.Spec(), 0)
  }

  /** The content of every log that was read was verified, then or before. */
  ghost predicate AllVetted(made: seq<Made>) {
    forall j: nat :: j < |made| && made[j].read.Data? ==> VettedBy(made, j)
  }

  ghost predicate VettedBy(made: seq<Made>, j: nat)
    requires j < |made|
  {
    exists i: nat :: i <= j && Vetted(made, i) && made[i].read == made[j].read
  }

  /** A read, but not the one the wait failed with. */
  predicate Survived(o: Outcome, j: nat) {
    j < |o.made| && !(o.verdict.Erred? && j == |o.made| - 1)
  }

  ghost predicate CleanFrom(lib: Library, o: Outcome, from: nat) {
    forall j: nat :: from <= j && Survived(o, j) ==> Clean(lib, o.made[j].read)
  }

  /** The plain wait stops at a read that is not clean. */
  lemma {:induction false} PlainIsClean(w: Wait, n: nat, k: nat, st: State)
    requires !w.cached && w.Ticks() && k <= |w.paths|
    ensures CleanFrom(w.lib, w.Run(n, k, st), |st.made|)
    decreases w.Left(n), |w.paths| - k
  {
    RunUnfolds(w, n, k, st);
    if k < |w.paths| {
      var c, after := w.CheckAt(n, k, st), w.StateAfter(n, k, st);
      assert c == Looks(w, n, k) && (!c.Failed? ==> Clean(w.lib, w.world.read(n, k)));
      assert after.made[|st.made|] == w.MadeAt(n, k);
      if Silent(c) {
        RunExtends(w, n, k + 1, after);
        PlainIsClean(w, n, k + 1, after);
        assert w.Run(n, k, st).made[|st.made|] == after.made[|st.made|];
      }
    } else if w.world.mono(n) < w.Deadline() {
      PlainIsClean(w, n + 1, 0, st);
      assert w.Run(n, k, st) == w.Run(n + 1, 0, st);
    }
  }

  /** The cache makes of a read that was verified what it is. */
  lemma {:induction false} VettedIsTaken(made: seq<Made>, j: nat)
    requires j < |made|
    ensures |Recall(made)| == |made| && Recall(made)[j] == Taken(made[..j], made[j])
    ensures Vetted(made, j) ==> Recall(made)[j] == made[j]
  {
    ToldIffRecalled(made);
    if j == |made| - 1 {
      assert made[..j] == Front(made);
      ToldIffRecalled(Front(made));
      BasisIsAsLong(made[..j], made[j].path);
    } else {
      VettedIsTaken(Front(made), j);
      assert Front(made)[..j] == made[..j];
    }
  }

  /** Every read that was not the failing one, and had been verified, was clean; and no other is an error. */
  lemma VettedIsClean(w: Wait, j: nat)
    requires w.cached && w.Ticks() && Survived(w.Spec(), j)
    ensures Vetted(w.Spec().made, j) || !w.Spec().made[j].read.Data? ==> Clean(w.lib, w.Spec().made[j].read)
  {
    var o := w.Spec();
    CacheIsMemory(w);
    VettedIsTaken(o.made, j);
    PlainIsClean(Remembered(w), 0, 0, INITIAL);
    assert Survived(Remembered(w).Spec(), j);
  }

  /** When the content of every read was verified, then or before, nothing broken is passed over. */
  lemma NothingBrokenIsIgnored(w: Wait)
    requires w.cached && w.Ticks() && AllVetted(w.Spec().made)
    ensures !PassesOver(w)
  {
    var o := w.Spec();
    if PassesOver(w) {
      var j: nat :| Survived(o, j) && !Clean(w.lib, o.made[j].read);
      VettedIsClean(w, j);
      assert VettedBy(o.made, j);
      var i: nat :| i <= j && Vetted(o.made, i) && o.made[i].read == o.made[j].read;
      VettedIsClean(w, i);
    }
  }

  /** A wait that fails names what is wrong with its last read. */
  lemma {:induction false} RunNamesFailure(w: Wait, n: nat, k: nat, st: State)
    requires w.Ticks() && k <= |w.paths|
    ensures var o := w.Run(n, k, st);
      o.verdict.Erred? ==> o.made != [] && FailsWith(w, Final(o.made), o.verdict.error)
    decreases w.Left(n), |w.paths| - k
  {
    RunUnfolds(w, n, k, st);
    if k < |w.paths| {
      var c := w.CheckAt(n, k, st);
      if Silent(c) {
        RunNamesFailure(w, n, k + 1, w.StateAfter(n, k, st));
      }
    } else if w.world.mono(n) < w.Deadline() {
      RunNamesFailure(w, n + 1, 0, st);
    }
  }

  /** A check of this read, with no cache, fails with this error, whatever the time. */
  predicate FailsWith(w: Wait, m: Made, error: Error) {
    match error
    case ReadError(why) => m.read == Unreadable(why)
    case VerifyError(why) => m.read.Data? && w.lib.verify(m.read.bytes) == Unverifiable(why)
    case ChainBreak(path, line, found, expected) =>
      path == m.path && m.read.Data? && w.lib.verify(m.read.bytes) == Broken(line, found, expected)
    case ScanError(why) =>
      m.read.Data? && w.lib.verify(m.read.bytes) == Intact && w.lib.scan(m.read.bytes) == Unscannable(why)
  }

  lemma ErrorIsOfLastRead(w: Wait)
    requires w.Ticks()
    ensures var o := w.Spec();
      o.verdict.Erred? ==> o.made != [] && FailsWith(w, Final(o.made), o.verdict.error)
  {
    RunNamesFailure(w, 0, 0, INITIAL);
  }

  // ---- when something is ------------------------------------------------------------------------

  lemma VettedFront(made: seq<Made>, i: nat)
    requires made != [] && i < |made| - 1
    ensures Vetted(Front(made), i) == Vetted(made, i) && Front(made)[i] == made[i]
  {
    assert Front(made)[..i] == made[..i];
  }

  /** What the cache holds was verified. */
  lemma {:induction false} BasisWasVetted(made: seq<Made>, path: string) returns (i: nat)
    requires Basis(made, path).Some?
    ensures i < |made| && Vetted(made, i) && made[i].read == Data(Basis(made, path).value)
  {
    var b, m := Basis(Front(made), path), Final(made);
    if Of(m, path) && !AsLong(b, m.read.bytes) {
      i := |made| - 1;
      assert made[..i] == Front(made);
      BasisIsAsLong(Front(made), path);
    } else {
      i := BasisWasVetted(Front(made), path);
      VettedFront(made, i);
    }
  }

  lemma TakenWasVetted(made: seq<Made>, j: nat) returns (i: nat)
    requires j < |made| && made[j].read.Data?
    ensures i <= j && Vetted(made, i) && made[i].read == Taken(made[..j], made[j]).read
  {
    BasisIsAsLong(made[..j], made[j].path);
    if Vetted(made, j) {
      i := j;
    } else {
      i := BasisWasVetted(made[..j], made[j].path);
      assert made[..j][..i] == made[..i];
    }
  }

  /** A library to which one content alone is a broken chain. */
  function Breaks(b: Bytes): Library {
    Library(bytes => if bytes == b then Broken(0, "", "") else Intact, bytes => Events([]), ts => None)
  }

  /** Till a read whose content was never verified the cached wait meets nothing that is broken. */
  lemma NoneBrokenYet(w: Wait, b: Bytes, m: nat, l: nat)
    requires l < |w.paths| && w.lib == Breaks(b)
    requires var made := Reads(w, m, l + 1);
      forall i: nat {:trigger made[i]} :: i < |made| && Vetted(made, i) ==> made[i].read != Data(b)
    ensures SilentTill(Remembered(w), m, l + 1)
  {
    var u := Remembered(w);
    var all := Reads(w, m, l + 1);
    forall n: nat, k: nat | k < |u.paths| && Before(n, k + 1, m, l + 1) && !u.world.read(n, k).Unreadable?
      ensures Silent(Looks(u, n, k))
    {
      var read := u.world.read(n, k);
      if read.Data? {
        ReadsGrow(w, n, k + 1, m, l + 1);
        var made := Reads(w, n, k + 1);
        var j := |made| - 1;
        var i := TakenWasVetted(made, j);
        assert made[..i] == all[..i] && made[i] == all[i];
        assert made[..j] == Reads(w, n, k);
        assert read != Data(b);
      }
    }
  }

  /** The wait goes on from a read, and does not end with it as a failure. */
  lemma GoesOn(w: Wait, u: Wait, m: nat, l: nat, j: nat)
    requires w.Ticks() && u.Ticks() && !u.cached && Beside(u, Patient(w)) && l < |w.paths|
    requires SilentTill(u, m, l + 1) && !w.world.read(m, l).Unreadable?
    requires Reads(w, m, l + 1) <= Longest(w) && j == |Reads(u, m, l)|
    ensures Survived(u.Spec(), j)
  {
    var end := ComesTo(w, u, m, l);
    RunUnfolds(u, m, l, end);
    assert FailsAlike(u, Patient(w), m, l);
    assert u.CheckAt(m, l, end) == Looks(u, m, l) && Silent(Looks(u, m, l));
    RunExtends(u, m, l + 1, u.StateAfter(m, l, end));
  }

  /** A broken chain that is as long as the log was, with a content that was never verified, is passed over. */
  lemma UnvettedIsPassedOver(w: Wait, m: nat, l: nat, b: Bytes)
    requires w.cached && w.Ticks() && l < |w.paths| && Reads(w, m, l + 1) <= Longest(w) && w.world.read(m, l) == Data(b)
    requires var made := Reads(w, m, l + 1);
      forall i: nat {:trigger made[i]} :: i < |made| && Vetted(made, i) ==> made[i].read != Data(b)
    ensures var v := With(w, Breaks(b), w.world.wall); v.Ticks() && PassesOver(v)
  {
    var v := With(w, Breaks(b), w.world.wall);
    SameTicks(w, v);
    SameReads(w, v, m, l + 1);
    NoneBrokenYet(v, b, m, l);
    var j := |Reads(Remembered(v), m, l)|;
    CacheIsMemory(v);
    GoesOn(w, Remembered(v), m, l, j);
    SurvivesToo(v, j);
    ReadsRecalled(v, m, l);
    ToldIffRecalled(Reads(v, m, l));
    SameReads(w, v, m, l);
    ReadThere(w, v, m, l, j);
  }

  lemma SurvivesToo(v: Wait, j: nat)
    requires v.cached && v.Ticks() && Remembered(v).Ticks() && Survived(Remembered(v).Spec(), j)
    ensures Survived(v.Spec(), j)
  {
    CacheIsMemory(v);
    ToldIffRecalled(v.Spec().made);
  }

  lemma ReadThere(w: Wait, v: Wait, m: nat, l: nat, j: nat)
    requires w.Ticks() && v.Ticks() && v == With(w, v.lib, v.world.wall) && l < |w.paths| && j == |Reads(w, m, l)|
    requires Reads(w, m, l + 1) <= Longest(w) && j < |v.Spec().made|
    ensures v.Spec().made[j] == w.MadeAt(m, l)
  {
    WithIsPrefix(w, v);
    assert Reads(w, m, l + 1)[j] == w.MadeAt(m, l);
  }

  ghost predicate NeverPassesOver(w: Wait) {
    w.Ticks() && !PassesOver(w)
  }

  lemma VettedPrefix(made: seq<Made>, n: nat)
    requires AllVetted(made) && n <= |made|
    ensures AllVetted(made[..n])
  {
    forall j: nat | j < n && made[..n][j].read.Data? ensures VettedBy(made[..n], j) {
      assert VettedBy(made, j);
      var i: nat :| i <= j && Vetted(made, i) && made[i].read == made[j].read;
      VettedThere(made, n, i);
    }
  }

  lemma VettedThere(made: seq<Made>, n: nat, i: nat)
    requires i < n <= |made|
    ensures made[..n][i] == made[i] && Vetted(made[..n], i) == Vetted(made, i)
  {
    assert made[..n][..i] == made[..i];
  }

  /**
   Whatever the library and the wall clock, no broken chain is passed over, if and only if the content of
   every log that is read was verified, then or before in the wait.
   */
  lemma NothingBrokenIsIgnoredIff(w: Wait)
    requires w.cached && w.Ticks()
    ensures (forall lib: Library, wall: (nat, nat) -> int {:trigger With(w, lib, wall)} ::
              NeverPassesOver(With(w, lib, wall)))
            <==> AllVetted(Longest(w))
  {
    var made := Longest(w);
    if AllVetted(made) {
      forall lib: Library, wall: (nat, nat) -> int ensures NeverPassesOver(With(w, lib, wall)) {
        var v := With(w, lib, wall);
        WithIsPrefix(w, v);
        VettedPrefix(made, |v.Spec().made|);
        assert made[..|v.Spec().made|] == v.Spec().made;
        NothingBrokenIsIgnored(v);
      }
    } else {
      var j: nat :| j < |made| && made[j].read.Data? && !VettedBy(made, j);
      var m, l := LongestIsOfWorld(w, j);
      UnvettedAt(w, made, j, m, l);
      UnvettedIsPassedOver(w, m, l, made[j].read.bytes);
      assert !NeverPassesOver(With(w, Breaks(made[j].read.bytes), w.world.wall));
    }
  }

  lemma UnvettedAt(w: Wait, made: seq<Made>, j: nat, m: nat, l: nat)
    requires j < |made| && !VettedBy(made, j) && l < |w.paths|
    requires made[..j] == Reads(w, m, l) && Reads(w, m, l + 1) <= made
    ensures var all := Reads(w, m, l + 1);
      forall i: nat {:trigger all[i]} :: i < |all| && Vetted(all, i) ==> all[i].read != made[j].read
  {
    var all := Reads(w, m, l + 1);
    forall i: nat | i < |all| && Vetted(all, i) ensures all[i].read != made[j].read {
      assert all[..i] == made[..i] && all[i] == made[i];
    }
  }

  /** Reads that are told by their size leave nothing to be passed over. */
  lemma ToldIsVetted(made: seq<Made>)
    requires Told(made)
    ensures AllVetted(made)
  {
    forall j: nat | j < |made| && made[j].read.Data? ensures VettedBy(made, j) {
      ToldPrefix(made, j);
      ToldBasis(made[..j], made[j].path);
      assert ToldAt(made, j);
      var i := TakenWasVetted(made, j);
    }
  }
}
