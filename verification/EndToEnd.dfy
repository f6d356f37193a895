/**
 The rehearsal and the file watcher together: what a pass says about the logs of other programs, when
 the watcher a run asks is the one that polls files.
 */
module EndToEnd {
  import opened Runner
  import opened RunnerProofs
  import opened Cli
  import opened CliProofs
  import Watch
  import WatchProofs
  import WatchReads
  import WatchEarly

  /** The files a run watches, and for each attempt of each step the world and the moment it was sent. */
  datatype Watching = Watching(
    lib: Watch.Library, paths: seq<string>, world: (nat, nat) -> Watch.World, sentAt: (nat, nat) -> int)

  /** The wait runStep makes for a declared event. */
  function WaitOf(j: Job, ws: Watching, a: nat): Watch.Wait
    requires j.step.wanted.event.Some?
  {
    var e := j.step.wanted.event.value;
    var q := Watch.Query(j.RunID(), e.source, e.kind, ws.sentAt(j.index, a));
    Watch.Wait(ws.lib, q, ws.paths, ws.world(j.index, a), e.within, true)
  }

  predicate Hears(heard: Watched, v: Watch.Verdict) {
    match v
    case Found(_) => heard.Seen?
    case TimedOut(refused) => heard == NotSeen(refused)
    case Erred(_) => heard.WatchFailed?
  }

  /** What this step hears of its event after this attempt is what the file watcher's wait returns. */
  ghost predicate HearsFiles(j: Job, ws: Watching, a: nat) {
    j.step.wanted.event.Some? ==>
      WaitOf(j, ws, a).Ticks() && Hears(j.out.watched(j.index, a), WaitOf(j, ws, a).Spec().verdict)
  }

  ghost predicate WatchesFiles(r: Rehearsal, ws: Watching) {
    forall i: nat, a: nat {:trigger ws.sentAt(i, a)} :: i < |r.steps| ==> HearsFiles(r.JobAt(i), ws, a)
  }

  /**
   A watched file held this event of this run, in a chain that verified, as it was read at (m, l); and the
   event was dated as the run's own when the wait ended, at (n, k), with the file as long as then.
   */
  ghost predicate Recorded(j: Job, ws: Watching, a: nat, n: nat, k: nat, m: nat, l: nat, e: Watch.Event)
    requires j.step.wanted.event.Some?
  {
    var w, want := WaitOf(j, ws, a), j.step.wanted.event.value;
    && WatchEarly.Witnessed(w, e, n, k, m, l)
    && e.source == want.source && e.kind == want.kind
    && e.runID == (if j.step.headers.runID != "" then j.step.headers.runID else j.runID)
    && ws.lib.parseTS(e.ts).Some?
    && ws.sentAt(j.index, a) - 1_000_000_000 < ws.lib.parseTS(e.ts).value
    && ws.lib.parseTS(e.ts).value < ws.world(j.index, a).wall(n, k) + 2_000_000_000
    && (n > 0 ==> ws.world(j.index, a).mono(n - 1) < ws.world(j.index, a).start + want.within)
  }

  /** The step matched in time, and its event stood in a watched file. */
  ghost predicate Evidenced(j: Job, ws: Watching)
    requires j.step.wanted.event.Some?
  {
    exists a: nat, n: nat, k: nat, m: nat, l: nat, e :: HoldsAt(j, a) && Recorded(j, ws, a, n, k, m, l, e)
  }

  lemma SeenIsRecorded(j: Job, ws: Watching, a: nat) returns (n: nat, k: nat, m: nat, l: nat, e: Watch.Event)
    requires j.step.wanted.event.Some? && HearsFiles(j, ws, a) && j.out.watched(j.index, a).Seen?
    ensures Recorded(j, ws, a, n, k, m, l, e)
  {
    var w := WaitOf(j, ws, a);
    k, m, l := WatchEarly.MatchIsTrustworthy(w);
    e := w.Spec().verdict.event;
    n := w.Spec().polls - 1;
    WatchProofs.TrustedIff(w.lib, w.q, w.world.wall(n, k), e);
    WatchProofs.WindowIsSound(w.q, w.world.wall(n, k), w.lib.parseTS(e.ts).value);
    WatchProofs.PollsInTime(w, 0, 0, Watch.INITIAL);
  }

  lemma HeldIsEvidenced(j: Job, ws: Watching)
    requires j.step.wanted.event.Some? && Holds(j) && forall a: nat :: HearsFiles(j, ws, a)
    ensures Evidenced(j, ws)
  {
    var a: nat :| HoldsAt(j, a);
    assert EventSeen(j, a);
    var n, k, m, l, e := SeenIsRecorded(j, ws, a);
  }

  /**
   A run that passed has, for every event its steps declared, a record of it in a watched file, whatever
   the programs that wrote the file did to it meanwhile: from an intact chain, under the run's own id, and
   dated from the second before its request at the earliest.
   */
  lemma PassedMeansEvidenced(r: Rehearsal, res: Result, ws: Watching, i: nat)
    requires r.Returns(res) && res.status == Passed && WatchesFiles(r, ws)
    requires i < |r.steps| && r.steps[i].wanted.event.Some?
    ensures Evidenced(r.JobAt(i), ws)
  {
    VerdictIsRight(r, res);
    forall a: nat ensures HearsFiles(r.JobAt(i), ws, a) {
      var _ := ws.sentAt(i, a);
    }
    HeldIsEvidenced(r.JobAt(i), ws);
  }

  /** A run of these scenarios, with --fail-on-skip, that ended with the exit code for OK. */
  ghost predicate EndedOK(settings: Settings, env: Surroundings, ls: seq<Loaded>, f: Finished) {
    RanAll(env, ls, f.ran) && FinishedWell(settings, f) && settings.failOnSkip && ExitCode(f.error) == ExitOK
  }

  /** Each of these scenarios watched files. */
  ghost predicate AllWatchFiles(env: Surroundings, ls: seq<Loaded>, ws: seq<Watching>) {
    |ws| == |ls| && forall n :: 0 <= n < |ls| ==> WatchesFiles(RehearsalOf(env, ls, n), ws[n])
  }

  predicate Declares(ls: seq<Loaded>, n: nat, i: nat) {
    n < |ls| && i < |ls[n].steps| && ls[n].steps[i].wanted.event.Some?
  }

  /** The same from the exit code: OK under --fail-on-skip means every declared event was recorded. */
  lemma StrictOKMeansEvidenced(settings: Settings, env: Surroundings, ls: seq<Loaded>, f: Finished, ws: seq<Watching>)
    requires EndedOK(settings, env, ls, f) && AllWatchFiles(env, ls, ws)
    ensures forall n: nat, i: nat :: Declares(ls, n, i) ==> Evidenced(RehearsalOf(env, ls, n).JobAt(i), ws[n])
  {
    ExitFollowsVerdicts(settings, env, ls, f);
    forall n: nat, i: nat | Declares(ls, n, i) ensures Evidenced(RehearsalOf(env, ls, n).JobAt(i), ws[n]) {
      PassedMeansEvidenced(RehearsalOf(env, ls, n), f.ran[n], ws[n], i);
    }
  }

  /**
   The lines a run counts as refused on time, when it misses an event, are those of this run and kind that
   can be dated, in each watched file as the wait knew it last.
   */
  lemma RefusedLinesAreCounted(j: Job, ws: Watching, a: nat, refused: nat)
    requires j.step.wanted.event.Some? && HearsFiles(j, ws, a) && j.out.watched(j.index, a) == NotSeen(refused)
    ensures var w := WaitOf(j, ws, a);
      refused == Watch.Total(WatchEarly.Counts(w, WatchReads.Recall(w.Spec().made)))
  {
    WatchEarly.TimeoutCountsCandidates(WaitOf(j, ws, a));
  }

  /**
   In a calm world the polling is not felt: the event of a match counts as seen exactly when one look
   at every file, in the last poll the window of the event allows, finds it.
   */
  lemma EventSeenIffThereAtLast(j: Job, ws: Watching, a: nat, last: nat)
    requires j.step.wanted.event.Some? && j.tgt.hasWatcher && HearsFiles(j, ws, a)
    requires WatchEarly.Calm(WaitOf(j, ws, a)) && WatchEarly.LastPoll(WaitOf(j, ws, a), last)
    ensures EventSeen(j, a) <==> exists l: nat :: l < |ws.paths| && WatchEarly.Hit(WaitOf(j, ws, a), last, l)
    ensures !j.out.watched(j.index, a).WatchFailed?
  {
    WatchEarly.EarlyPollsChangeNothing(WaitOf(j, ws, a), last);
  }
}
