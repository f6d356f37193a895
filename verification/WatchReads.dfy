/**
 What the cache of a wait does, for every world: the wait is the plain one, which reads, verifies and
 scans everything every time, except that it takes a log that is as long as when it was last read for
 the one it verified. From that: when the cache is not seen, when a broken chain can be passed over, and
 when a size is verified twice.
 */
module WatchReads {
  import opened Options
  import opened Watch

  // ---- over the reads made ----------------------------------------------------------------------

  function Front(made: seq<Made>): seq<Made>
    requires made != []
  {
    made[..|made| - 1]
  }

  function Final(made: seq<Made>): Made
    requires made != []
  {
    made[|made| - 1]
  }

  /** This is a read of that path, and the log was there. */
  predicate Of(m: Made, path: string) {
    m.path == path && m.read.Data?
  }

  /** What the path was last read as. */
  function LastData(made: seq<Made>, path: string): Option<Bytes> {
    if made == [] then None
    else if Of(Final(made), path) then Some(Final(made).read.bytes)
    else LastData(Front(made), path)
  }

  predicate AsLong(b: Option<Bytes>, bytes: Bytes) {
    b.Some? && |b.value| == |bytes|
  }

  /** What the events that the cache holds for the path were scanned from. */
  function Basis(made: seq<Made>, path: string): Option<Bytes> {
    if made == [] then None
    else
      var b, m := Basis(Front(made), path), Final(made);
      if Of(m, path) && !AsLong(b, m.read.bytes) then Some(m.read.bytes) else b
  }

  /** What the cache makes of a read: a log as long as it was is the log it was. */
  function Taken(before: seq<Made>, m: Made): Made {
    if m.read.Data? && AsLong(Basis(before, m.path), m.read.bytes) then m.(read := Data(Basis(before, m.path).value)) else m
  }

  function Recall(made: seq<Made>): seq<Made> {
    if made == [] then [] else Recall(Front(made)) + [Taken(Front(made), Final(made))]
  }

  /** The chain of this read was verified. */
  predicate Vetted(made: seq<Made>, j: nat)
    requires j < |made|
  {
    made[j].read.Data? && !AsLong(LastData(made[..j], made[j].path), made[j].read.bytes)
  }

  /** The sizes of the paths as they were verified. */
  function Sizes(made: seq<Made>): seq<(string, nat)> {
    if made == [] then []
    else if Vetted(made, |made| - 1) then Sizes(Front(made)) + [(Final(made).path, |Final(made).read.bytes|)]
    else Sizes(Front(made))
  }

  lemma {:induction false} BasisIsAsLong(made: seq<Made>, path: string)
    ensures Basis(made, path).Some? <==> LastData(made, path).Some?
    ensures Basis(made, path).Some? ==> |Basis(made, path).value| == |LastData(made, path).value|
  {
    if made != [] {
      BasisIsAsLong(Front(made), path);
    }
  }

  /** What the cache holds was read: of this path, as long as it was last read, and nothing else since. */
  lemma {:induction false} BasisWasRead(made: seq<Made>, path: string) returns (i: nat)
    requires Basis(made, path).Some?
    ensures i < |made| && Of(made[i], path) && made[i].read.bytes == Basis(made, path).value
    ensures forall j :: i <= j < |made| && Of(made[j], path) ==> |made[j].read.bytes| == |made[i].read.bytes|
  {
    var b, m := Basis(Front(made), path), Final(made);
    if Of(m, path) && !AsLong(b, m.read.bytes) {
      i := |made| - 1;
    } else {
      i := BasisWasRead(Front(made), path);
      assert Front(made)[i] == made[i];
      forall j | i <= j < |made| && Of(made[j], path) ensures |made[j].read.bytes| == |made[i].read.bytes| {
        if j < |made| - 1 {
          assert Front(made)[j] == made[j];
        }
      }
    }
  }

  lemma {:induction false} LastDataWasRead(made: seq<Made>, path: string) returns (i: nat)
    requires LastData(made, path).Some?
    ensures i < |made| && Of(made[i], path) && made[i].read.bytes == LastData(made, path).value
    ensures forall j :: i < j < |made| ==> !Of(made[j], path)
  {
    if Of(Final(made), path) {
      i := |made| - 1;
    } else {
      i := LastDataWasRead(Front(made), path);
    }
  }

  // ---- logs whose size tells their content ------------------------------------------------------

  /** This read, when as long as the one of its path before it, is the same. */
  predicate ToldAt(made: seq<Made>, j: nat)
    requires j < |made|
  {
    made[j].read.Data? && AsLong(LastData(made[..j], made[j].path), made[j].read.bytes)
    ==> LastData(made[..j], made[j].path).value == made[j].read.bytes
  }

  predicate Told(made: seq<Made>) {
    forall j: nat :: j < |made| ==> ToldAt(made, j)
  }

  lemma ToldFront(made: seq<Made>)
    requires made != []
    ensures Told(made) <==> Told(Front(made)) && ToldAt(made, |made| - 1)
  {
    forall j: nat | j < |made| - 1 ensures ToldAt(made, j) <==> ToldAt(Front(made), j) {
      assert Front(made)[..j] == made[..j];
    }
    if Told(made) {
      forall j: nat | j < |Front(made)| ensures ToldAt(Front(made), j) {
        assert ToldAt(made, j);
      }
    }
  }

  lemma {:induction false} ToldPrefix(made: seq<Made>, n: nat)
    requires Told(made) && n <= |made|
    ensures Told(made[..n])
  {
    forall j: nat | j < n ensures ToldAt(made[..n], j) {
      assert made[..n][..j] == made[..j];
      assert ToldAt(made, j);
    }
  }

  /** Then the cache holds what was last read. */
  lemma {:induction false} ToldBasis(made: seq<Made>, path: string)
    requires Told(made)
    ensures Basis(made, path) == LastData(made, path)
  {
    if made != [] {
      ToldFront(made);
      ToldBasis(Front(made), path);
      assert made[..|made| - 1] == Front(made);
    }
  }

  /** The cache makes of the reads what they are exactly when each of them is told by its size. */
  lemma {:induction false} ToldIffRecalled(made: seq<Made>)
    ensures |Recall(made)| == |made| && (Told(made) <==> Recall(made) == made)
  {
    if made != [] {
      var m := Final(made);
      assert made[..|made| - 1] == Front(made);
      assert made == Front(made) + [m];
      ToldFront(made);
      ToldIffRecalled(Front(made));
      if Told(Front(made)) {
        ToldBasis(Front(made), m.path);
      }
      assert Recall(made) == made <==> Recall(Front(made)) == Front(made) && Taken(Front(made), m) == m;
    }
  }

  // ---- which sizes are verified twice -----------------------------------------------------------

  predicate SizeIs(m: Made, path: string, size: nat) {
    Of(m, path) && |m.read.bytes| == size
  }

  /** The size of a path leaves a value and comes back to it. */
  ghost predicate ComesBack(made: seq<Made>) {
    exists i: nat, j: nat, k: nat, path: string, size: nat :: BackAt(made, i, j, k, path, size)
  }

  predicate BackAt(made: seq<Made>, i: nat, j: nat, k: nat, path: string, size: nat) {
    && i < j < k < |made|
    && SizeIs(made[i], path, size) && SizeIs(made[k], path, size)
    && Of(made[j], path) && !SizeIs(made[j], path, size)
  }

  ghost predicate Distinct(vs: seq<(string, nat)>) {
    forall i, j :: 0 <= i < j < |vs| ==> vs[i] != vs[j]
  }

  /** Every size that was read was verified, then or before. */
  lemma {:induction false} SizesAreRead(made: seq<Made>, path: string, size: nat)
    ensures (path, size) in Sizes(made) <==> exists i: nat :: i < |made| && SizeIs(made[i], path, size)
  {
    if made != [] {
      var f, m, n := Front(made), Final(made), |made| - 1;
      SizesAreRead(f, path, size);
      assert forall i: nat :: i < n ==> f[i] == made[i];
      assert made[..n] == f && made[n] == m;
      if SizeIs(m, path, size) && !Vetted(made, n) {
        var i := LastDataWasRead(f, path);
        assert SizeIs(f[i], path, size);
      }
    }
  }

  lemma DistinctMore(vs: seq<(string, nat)>, v: (string, nat))
    ensures Distinct(vs + [v]) <==> Distinct(vs) && v !in vs
  {
    var ws := vs + [v];
    if Distinct(ws) {
      forall i | 0 <= i < |vs| ensures vs[i] != v {
        assert ws[i] == vs[i] && ws[|vs|] == v;
      }
      forall i, j | 0 <= i < j < |vs| ensures vs[i] != vs[j] {
        assert ws[i] == vs[i] && ws[j] == vs[j];
      }
    }
  }

  /** A size comes back with the last read: it was read before, and another since. */
  ghost predicate BackNow(made: seq<Made>)
    requires made != []
  {
    exists i: nat, j: nat :: EndsBack(made, i, j)
  }

  predicate EndsBack(made: seq<Made>, i: nat, j: nat)
    requires made != []
  {
    var m := Final(made);
    m.read.Data? && BackAt(made, i, j, |made| - 1, m.path, |m.read.bytes|)
  }

  lemma BackFront(made: seq<Made>)
    requires made != []
    ensures ComesBack(made) <==> ComesBack(Front(made)) || BackNow(made)
  {
    if ComesBack(made) && !BackNow(made) {
      var i: nat, j: nat, k: nat, path: string, size: nat :| BackAt(made, i, j, k, path, size);
      assert k == |made| - 1 ==> EndsBack(made, i, j);
      assert Front(made)[i] == made[i] && Front(made)[j] == made[j] && Front(made)[k] == made[k];
      assert BackAt(Front(made), i, j, k, path, size);
    }
    if ComesBack(Front(made)) {
      var i: nat, j: nat, k: nat, path: string, size: nat :| BackAt(Front(made), i, j, k, path, size);
      assert BackAt(made, i, j, k, path, size);
    }
  }

  lemma VettedIsBack(made: seq<Made>)
    requires made != [] && Vetted(made, |made| - 1)
    ensures BackNow(made) <==> (Final(made).path, |Final(made).read.bytes|) in Sizes(Front(made))
  {
    var f, n := Front(made), |made| - 1;
    var path, size := Final(made).path, |Final(made).read.bytes|;
    SizesAreRead(f, path, size);
    assert made[..n] == f;
    if (path, size) in Sizes(f) {
      var i: nat :| i < |f| && SizeIs(f[i], path, size);
      SomeData(f, path, i);
      var j := LastDataWasRead(f, path);
      assert f[i] == made[i] && f[j] == made[j];
      assert EndsBack(made, i, j);
    }
    if BackNow(made) {
      var i: nat, j: nat :| EndsBack(made, i, j);
      assert f[i] == made[i];
    }
  }

  lemma {:induction false} SomeData(made: seq<Made>, path: string, i: nat)
    requires i < |made| && Of(made[i], path)
    ensures LastData(made, path).Some?
  {
    if i < |made| - 1 {
      SomeData(Front(made), path, i);
    }
  }

  lemma SkippedIsNotBack(made: seq<Made>)
    requires made != [] && !Vetted(made, |made| - 1) && BackNow(made)
    ensures ComesBack(Front(made))
  {
    var f, n := Front(made), |made| - 1;
    var path, s := Final(made).path, |Final(made).read.bytes|;
    var i: nat, j: nat :| EndsBack(made, i, j);
    assert made[..n] == f && f[j] == made[j] && f[i] == made[i];
    SomeData(f, path, j);
    var k := LastDataWasRead(f, path);
    assert f[k] == made[k];
    assert BackAt(f, i, j, k, path, s);
  }

  /** A path is verified twice at one size exactly when its size leaves a value and comes back to it. */
  lemma {:induction false} DistinctIff(made: seq<Made>)
    ensures Distinct(Sizes(made)) <==> !ComesBack(made)
  {
    if made != [] {
      BackFront(made);
      DistinctIff(Front(made));
      if Vetted(made, |made| - 1) {
        VettedIsBack(made);
        DistinctMore(Sizes(Front(made)), (Final(made).path, |Final(made).read.bytes|));
      } else if BackNow(made) {
        SkippedIsNotBack(made);
      }
    }
  }
}
