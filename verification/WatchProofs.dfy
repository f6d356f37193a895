/** What a wait on logs written by others can be trusted for. */
module WatchProofs {
  import opened Watch

  // ---- the trust window -------------------------------------------------------------------------

  /** The window in whole seconds: from the request's own second to the one after this poll's. */
  predicate InSeconds(q: Query, now: int, ts: int) {
    q.sentAt / 1_000_000_000 <= ts / 1_000_000_000 <= now / 1_000_000_000 + 1
  }

  lemma WindowIsWholeSeconds(q: Query, now: int, ts: int)
    ensures InWindow(q, now, ts) <==> InSeconds(q, now, ts)
  {
  }

  /** Nothing a second or more before the request, nor two seconds after now, is ever accepted. */
  lemma WindowIsSound(q: Query, now: int, ts: int)
    requires InWindow(q, now, ts)
    ensures q.sentAt - 1_000_000_000 < ts < now + 2_000_000_000
  {
  }

  /** The event is of this kind, from this source, in this run, and its time can be read. */
  predicate OfRun(lib: Library, q: Query, e: Event) {
    e.source == q.source && e.kind == q.kind && e.runID == q.runID && lib.parseTS(e.ts).Some?
  }

  /** And that time is in the window. */
  predicate Evidence(lib: Library, q: Query, now: int, e: Event) {
    OfRun(lib, q, e) && InSeconds(q, now, lib.parseTS(e.ts).value)
  }

  lemma TrustedIff(lib: Library, q: Query, now: int, e: Event)
    ensures Trusted(lib, q, now, e) <==> Evidence(lib, q, now, e)
    ensures Candidate(lib, q, e) <==> OfRun(lib, q, e)
  {
  }

  lemma MulOrder(d: int, m: int, k: int)
    requires d > 0 && m <= k
    ensures d * m <= d * k
  {
    assert d * (k - m) >= 0;
    assert d * (k - m) == d * k - d * m;
  }

  /** Truncate finds the greatest multiple that is not past t. */
  lemma GreatestMultiple(t: int, d: int, m: int)
    requires d > 0 && d * m <= t
    ensures d * m <= Truncate(t, d) <= t
  {
    var k := t / d;
    assert Truncate(t, d) == d * k && t < d * k + d == d * (k + 1);
    if m > k {
      MulOrder(d, k + 1, m);
    } else {
      MulOrder(d, m, k);
    }
  }

  /** Truncating to a precision that divides a second never goes below the second. */
  lemma TruncateKeepsSecond(t: int, precision: int, n: int)
    requires precision > 0 && n > 0 && precision * n == SECOND
    ensures Truncate(t, SECOND) <= Truncate(t, precision) <= t
  {
    var a := t / SECOND;
    assert precision * (n * a) == (precision * n) * a;
    GreatestMultiple(t, precision, n * a);
  }

  /**
   A genuine reaction at t, between the request and this poll, is never refused on time: not when its
   stamp is truncated to any precision that divides a second, nor when it runs up to a second ahead.
   */
  lemma ReactionIsAccepted(q: Query, now: int, t: int, ahead: int, precision: int, n: int)
    requires q.sentAt <= t <= now && 0 <= ahead <= 1_000_000_000
    requires precision > 0 && n > 0 && precision * n == 1_000_000_000
    ensures InWindow(q, now, Truncate(t + ahead, precision))
  {
    TruncateKeepsSecond(t + ahead, precision, n);
  }

  // ---- what Judge finds -------------------------------------------------------------------------

  /** How many of the events are of the run, and can be dated. */
  function CandidateCount(lib: Library, q: Query, events: seq<Event>): nat {
    if events == [] then 0
    else (if OfRun(lib, q, events[0]) then 1 else 0) + CandidateCount(lib, q, events[1..])
  }

  predicate NoEvidence(lib: Library, q: Query, now: int, events: seq<Event>) {
    forall e :: e in events ==> !Evidence(lib, q, now, e)
  }

  /** The first event to be trusted, and how many were refused on time before it. */
  ghost predicate FirstEvidence(lib: Library, q: Query, now: int, events: seq<Event>, e: Event, refused: nat) {
    exists n :: 0 <= n < |events| && events[n] == e && Evidence(lib, q, now, e)
             && NoEvidence(lib, q, now, events[..n]) && refused == CandidateCount(lib, q, events[..n])
  }

  /** Judge finds the first event that is to be trusted, if there is one; up to it, it refused every candidate. */
  lemma {:induction false} JudgeFinds(lib: Library, q: Query, now: int, events: seq<Event>)
    ensures var j := Judge(lib, q, now, events);
      match j.event
      case Some(e) => FirstEvidence(lib, q, now, events, e, j.refused)
      case None => NoEvidence(lib, q, now, events) && j.refused == CandidateCount(lib, q, events)
  {
    if events != [] {
      var e, rest := events[0], events[1..];
      TrustedIff(lib, q, now, e);
      assert events == [e] + rest;
      if Evidence(lib, q, now, e) {
        assert events[..0] == [];
      } else {
        JudgeFinds(lib, q, now, rest);
        var j := Judge(lib, q, now, rest);
        if j.event.Some? {
          FirstLater(lib, q, now, events, j.event.value, j.refused);
        }
      }
    }
  }

  lemma FirstLater(lib: Library, q: Query, now: int, events: seq<Event>, e: Event, refused: nat)
    requires events != [] && !Evidence(lib, q, now, events[0]) && FirstEvidence(lib, q, now, events[1..], e, refused)
    ensures FirstEvidence(lib, q, now, events, e, refused + if OfRun(lib, q, events[0]) then 1 else 0)
  {
    var rest := events[1..];
    var n :| 0 <= n < |rest| && rest[n] == e && Evidence(lib, q, now, e)
          && NoEvidence(lib, q, now, rest[..n]) && refused == CandidateCount(lib, q, rest[..n]);
    assert events[..n + 1][1..] == rest[..n] && events[..n + 1] == [events[0]] + rest[..n];
    assert events[n + 1] == e;
  }

  // ---- termination ------------------------------------------------------------------------------

  lemma {:induction false} MonoGrows(w: Wait, n: nat)
    requires w.Ticks()
    ensures w.world.mono(n) >= w.world.start + n * POLL_INTERVAL
  {
    if n > 0 {
      MonoGrows(w, n - 1);
      assert w.Tick(n - 1);
    }
  }

  /** The polls of a run: every one before the last ended before the deadline. */
  lemma {:induction false} PollsInTime(w: Wait, n: nat, k: nat, st: State)
    requires w.Ticks() && k <= |w.paths|
    requires n > 0 ==> w.world.mono(n - 1) < w.Deadline()
    ensures var p := w.Run(n, k, st).polls;
      p > n && (p > 1 ==> w.world.mono(p - 2) < w.Deadline())
    ensures w.Run(n, k, st).verdict.TimedOut? ==> w.world.mono(w.Run(n, k, st).polls - 1) >= w.Deadline()
    decreases w.Left(n), |w.paths| - k
  {
    RunUnfolds(w, n, k, st);
    if k < |w.paths| {
      PollsInTime(w, n, k + 1, w.StateAfter(n, k, st));
    } else if w.world.mono(n) < w.Deadline() {
      PollsInTime(w, n + 1, 0, st);
    }
  }

  function CeilDiv(a: int, d: int): int
    requires d > 0
  {
    (a + d - 1) / d
  }

  /** Between two polls pass at least 200 milliseconds. */
  ghost predicate Sleeps(world: World) {
    world.start <= world.mono(0) && forall n: nat :: world.mono(n) + 200_000_000 <= world.mono(n + 1)
  }

  lemma SleepsIff(w: Wait)
    ensures w.Ticks() <==> Sleeps(w.world)
  {
    if w.Ticks() {
      forall n: nat ensures w.world.mono(n) + 200_000_000 <= w.world.mono(n + 1) {
        assert w.Tick(n);
      }
    }
  }

  /** A wait polls at least once, and at most once more than the intervals the timeout holds. */
  lemma WaitStops(w: Wait)
    requires Sleeps(w.world)
    ensures w.Ticks() && 1 <= w.Spec().polls
    ensures w.Spec().polls <= (if w.timeout > 0 then CeilDiv(w.timeout, 200_000_000) else 0) + 1
  {
    SleepsIff(w);
    PollsInTime(w, 0, 0, INITIAL);
    var p := w.Spec().polls;
    if p > 1 {
      MonoGrows(w, p - 2);
    }
  }

  // ---- the logs ---------------------------------------------------------------------------------

  /** The read of path k in poll n comes before that of path l in poll m, or is the same. */
  predicate Before(n: nat, k: nat, m: nat, l: nat) {
    n < m || (n == m && k <= l)
  }

  predicate Grown(a: Read, b: Read) {
    a.Data? && b.Data? ==> a.bytes <= b.bytes
  }

  predicate SamePath(w: Wait, k: nat, l: nat) {
    k < |w.paths| && l < |w.paths| && w.paths[k] == w.paths[l]
  }

  /** Every log is only ever appended to. */
  ghost predicate AppendOnly(w: Wait) {
    forall n: nat, k: nat, m: nat, l: nat {:trigger w.world.read(n, k), w.world.read(m, l)} ::
      SamePath(w, k, l) && Before(n, k, m, l) ==> Grown(w.world.read(n, k), w.world.read(m, l))
  }
}
