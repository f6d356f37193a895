/** A wait that keeps a cache, run beside the plain wait that it amounts to. */
module WatchCache {
  import opened Watch
  import opened WatchProofs
  import opened WatchReads

  /** The reads a wait makes before it comes to path k of poll n. */
  function Reads(w: Wait, n: nat, k: nat): seq<Made>
    requires k <= |w.paths|
    decreases n, k
  {
    if k > 0 then Reads(w, n, k - 1) + [w.MadeAt(n, k - 1)]
    else if n > 0 then Reads(w, n - 1, |w.paths|)
    else []
  }

  /** The wait that reads, verifies and scans every path on every poll. */
  function Plain(w: Wait): Wait {
    w.(cached := false)
  }

  function Memory(w: Wait, n: nat, k: nat): Read {
    if k < |w.paths| then Taken(Reads(w, n, k), w.MadeAt(n, k)).read else w.world.read(n, k)
  }

  /** The plain wait in a world where a log that is as long as it last was has not changed. */
  function Remembered(w: Wait): Wait {
    Plain(w).(world := w.world.(read := (n: nat, k: nat) => Memory(w, n, k)))
  }

  lemma SameTicks(w: Wait, v: Wait)
    requires w.Ticks() && v.world.mono == w.world.mono && v.world.start == w.world.start
    ensures v.Ticks()
  {
    forall m: nat ensures v.Tick(m) {
      assert w.Tick(m);
    }
  }

  lemma {:induction false} ReadsRecalled(w: Wait, n: nat, k: nat)
    requires k <= |w.paths|
    ensures Reads(Remembered(w), n, k) == Recall(Reads(w, n, k))
    decreases n, k
  {
    if k > 0 {
      ReadsRecalled(w, n, k - 1);
      var made, m := Reads(w, n, k - 1), w.MadeAt(n, k - 1);
      assert Front(made + [m]) == made && Final(made + [m]) == m;
      assert Remembered(w).MadeAt(n, k - 1) == Taken(made, m);
    } else if n > 0 {
      ReadsRecalled(w, n - 1, |w.paths|);
    }
  }

  // ---- one check --------------------------------------------------------------------------------

  /** The cache is that of this content. */
  predicate CacheIs(w: Wait, path: string, c: Cache, bytes: Bytes) {
    c.size == |bytes| && Load(w.lib, path, bytes) == Good(c.events)
  }

  /** The caches are those of the reads made, and so is the list of sizes. */
  ghost predicate Kept(w: Wait, st: State) {
    && (forall p :: p in st.caches <==> Basis(st.made, p).Some?)
    && (forall p :: p in st.caches ==> CacheIs(w, p, st.caches[p], Basis(st.made, p).value))
    && st.verified == Sizes(st.made)
  }

  lemma CheckAgrees(w: Wait, n: nat, k: nat, st: State, plain: State)
    requires w.cached && k < |w.paths| && Kept(w, st) && st.made == Reads(w, n, k)
    ensures w.CheckAt(n, k, st) == Remembered(w).CheckAt(n, k, plain)
    ensures Remembered(w).world.read(n, k) == Taken(st.made, w.MadeAt(n, k)).read
  {
    var path := w.paths[k];
    assert path in st.caches <==> Basis(st.made, path).Some?;
  }

  lemma MadeMore(made: seq<Made>, m: Made)
    ensures Front(made + [m]) == made && Final(made + [m]) == m && (made + [m])[..|made|] == made
    ensures Recall(made + [m]) == Recall(made) + [Taken(made, m)]
  {
    var all := made + [m];
    assert Front(all) == made && all[..|made|] == made;
  }

  /** The list of sizes grows exactly when the check verifies. */
  lemma SizesAgree(w: Wait, n: nat, k: nat, st: State)
    requires w.cached && k < |w.paths| && Kept(w, st) && st.made == Reads(w, n, k)
    ensures var after := w.StateAfter(n, k, st);
      after.made == st.made + [w.MadeAt(n, k)] && after.verified == Sizes(after.made)
  {
    var m := w.MadeAt(n, k);
    MadeMore(st.made, m);
    BasisIsAsLong(st.made, m.path);
    assert m.path in st.caches <==> Basis(st.made, m.path).Some?;
  }

  lemma KeptAfter(w: Wait, n: nat, k: nat, st: State)
    requires w.cached && k < |w.paths| && Kept(w, st) && st.made == Reads(w, n, k) && !w.CheckAt(n, k, st).Failed?
    ensures Kept(w, w.StateAfter(n, k, st))
  {
    var m, after := w.MadeAt(n, k), w.StateAfter(n, k, st);
    MadeMore(st.made, m);
    SizesAgree(w, n, k, st);
    forall p ensures p in after.caches <==> Basis(after.made, p).Some? {
      assert p in st.caches <==> Basis(st.made, p).Some?;
    }
    forall p | p in after.caches ensures CacheIs(w, p, after.caches[p], Basis(after.made, p).value) {
      assert p in st.caches <==> Basis(st.made, p).Some?;
    }
  }

  // ---- the whole run ----------------------------------------------------------------------------

  /** The outcome of the cached wait and that of the plain one. */
  predicate Agree(o: Outcome, plain: Outcome) {
    o.verdict == plain.verdict && o.polls == plain.polls && plain.made == Recall(o.made) && o.verified == Sizes(o.made)
  }

  /** After one check of each wait they agree still. */
  lemma StepsAgree(w: Wait, n: nat, k: nat, st: State, plain: State)
    requires w.cached && k < |w.paths| && Kept(w, st) && st.made == Reads(w, n, k)
    requires st.refusedByPath == plain.refusedByPath && plain.made == Recall(st.made)
    ensures w.CheckAt(n, k, st) == Remembered(w).CheckAt(n, k, plain)
    ensures var after, plain' := w.StateAfter(n, k, st), Remembered(w).StateAfter(n, k, plain);
      && after.refusedByPath == plain'.refusedByPath && plain'.made == Recall(after.made)
      && after.made == Reads(w, n, k + 1) && after.verified == Sizes(after.made)
  {
    CheckAgrees(w, n, k, st, plain);
    SizesAgree(w, n, k, st);
    MadeMore(st.made, w.MadeAt(n, k));
  }

  lemma {:induction false} RunsAgree(w: Wait, n: nat, k: nat, st: State, plain: State)
    requires w.cached && w.Ticks() && k <= |w.paths| && Kept(w, st) && st.made == Reads(w, n, k)
    requires st.refusedByPath == plain.refusedByPath && plain.made == Recall(st.made)
    ensures Remembered(w).Ticks() && Agree(w.Run(n, k, st), Remembered(w).Run(n, k, plain))
    decreases w.Left(n), |w.paths| - k
  {
    RunUnfolds(w, n, k, st);
    var v := Remembered(w);
    SameTicks(w, v);
    RunUnfolds(v, n, k, plain);
    if k < |w.paths| {
      StepsAgree(w, n, k, st, plain);
      if Silent(w.CheckAt(n, k, st)) {
        KeptAfter(w, n, k, st);
        RunsAgree(w, n, k + 1, w.StateAfter(n, k, st), v.StateAfter(n, k, plain));
      }
    } else if w.world.mono(n) < w.Deadline() {
      RunsAgree(w, n + 1, 0, st, plain);
    }
  }

  /**
   The cache, for every world: a wait returns what the plain wait would, in the world where a log that is
   as long as when it was last read has not changed; and it verifies a chain when the length is new.
   */
  lemma CacheIsMemory(w: Wait)
    requires w.cached && w.Ticks()
    ensures Remembered(w).Ticks() && Agree(w.Spec(), Remembered(w).Spec())
  {
    RunsAgree(w, 0, 0, INITIAL, INITIAL);
  }

  /** A path is verified twice at one size exactly when a size that was read leaves and comes back. */
  lemma SizesAreVerifiedOnceIff(w: Wait)
    requires w.cached && w.Ticks()
    ensures Distinct(w.Spec().verified) <==> !ComesBack(w.Spec().made)
  {
    CacheIsMemory(w);
    DistinctIff(w.Spec().made);
  }

  // ---- the reads a run makes --------------------------------------------------------------------

  /** They are those of the world in their order, up to where the run ends. */
  lemma {:induction false} RunReads(w: Wait, n: nat, k: nat, st: State) returns (l: nat)
    requires w.Ticks() && k <= |w.paths| && st.made == Reads(w, n, k)
    ensures var o := w.Run(n, k, st);
      && o.polls > 0 && l <= |w.paths| && o.made == Reads(w, o.polls - 1, l) && Before(n, k, o.polls - 1, l)
      && (if o.verdict.TimedOut? then l == |w.paths| else l > 0 && Before(n, k + 1, o.polls - 1, l))
    decreases w.Left(n), |w.paths| - k
  {
    RunUnfolds(w, n, k, st);
    if k < |w.paths| {
      var c := w.CheckAt(n, k, st);
      if Silent(c) {
        l := RunReads(w, n, k + 1, w.StateAfter(n, k, st));
      } else {
        l := k + 1;
      }
    } else if w.world.mono(n) < w.Deadline() {
      l := RunReads(w, n + 1, 0, st);
    } else {
      l := k;
    }
  }

  lemma {:induction false} ReadsGrow(w: Wait, n: nat, k: nat, m: nat, l: nat)
    requires k <= |w.paths| && l <= |w.paths| && Before(n, k, m, l)
    ensures Reads(w, n, k) <= Reads(w, m, l)
    decreases m, l
  {
    if n < m || k < l {
      if l > 0 {
        ReadsGrow(w, n, k, m, l - 1);
      } else {
        ReadsGrow(w, n, k, m - 1, |w.paths|);
      }
    }
  }

  /** Each of them is a read of the world, of a path, before the end. */
  lemma {:induction false} ReadIsOfWorld(w: Wait, n: nat, k: nat, i: nat) returns (m: nat, l: nat)
    requires k <= |w.paths| && i < |Reads(w, n, k)|
    ensures l < |w.paths| && Before(m, l + 1, n, k)
    ensures Reads(w, n, k)[i] == w.MadeAt(m, l) && Reads(w, n, k)[..i] == Reads(w, m, l)
    decreases n, k
  {
    if k > 0 {
      var made := Reads(w, n, k - 1);
      if i == |made| {
        m, l := n, k - 1;
      } else {
        m, l := ReadIsOfWorld(w, n, k - 1, i);
        assert Reads(w, n, k)[..i] == made[..i];
      }
    } else {
      m, l := ReadIsOfWorld(w, n - 1, |w.paths|, i);
    }
  }

  // ---- append-only logs -------------------------------------------------------------------------

  lemma EarlierIsShorter(w: Wait, n: nat, k: nat, i: nat, j: nat)
    requires AppendOnly(w) && k <= |w.paths| && i < j < |Reads(w, n, k)|
    requires Of(Reads(w, n, k)[i], Reads(w, n, k)[j].path) && Reads(w, n, k)[j].read.Data?
    ensures Reads(w, n, k)[i].read.bytes <= Reads(w, n, k)[j].read.bytes
  {
    var made := Reads(w, n, k);
    var m, l := ReadIsOfWorld(w, n, k, j);
    assert made[i] == Reads(w, m, l)[i];
    var a, b := ReadIsOfWorld(w, m, l, i);
    assert SamePath(w, b, l) && Before(a, b, m, l);
    assert Grown(w.world.read(a, b), w.world.read(m, l));
  }

  /** Logs that are only appended to are told by their size, and no size of theirs comes back. */
  lemma AppendOnlyIsTold(w: Wait, n: nat, k: nat)
    requires AppendOnly(w) && k <= |w.paths|
    ensures Told(Reads(w, n, k)) && !ComesBack(Reads(w, n, k))
  {
    var made := Reads(w, n, k);
    forall j: nat | j < |made| ensures ToldAt(made, j) {
      var m := made[j];
      if m.read.Data? && AsLong(LastData(made[..j], m.path), m.read.bytes) {
        var i := LastDataWasRead(made[..j], m.path);
        EarlierIsShorter(w, n, k, i, j);
      }
    }
    if ComesBack(made) {
      var i: nat, j: nat, l: nat, path: string, size: nat :| BackAt(made, i, j, l, path, size);
      EarlierIsShorter(w, n, k, i, j);
      EarlierIsShorter(w, n, k, j, l);
      assert false;
    }
  }

  /** Over append-only logs a path's chain is verified at most once for each size the wait sees. */
  lemma EachSizeIsVerifiedOnce(w: Wait)
    requires w.cached && w.Ticks() && AppendOnly(w)
    ensures Distinct(w.Spec().verified)
  {
    var l := RunReads(w, 0, 0, INITIAL);
    AppendOnlyIsTold(w, w.Spec().polls - 1, l);
    SizesAreVerifiedOnceIff(w);
  }
}
