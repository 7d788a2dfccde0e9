/** What a segmented download guarantees, over every server and every interleaving. */
module DownloadTheorems {
  import opened Bytes
  import opened Coordinator
  import opened DownloadStream
  import opened Segments
  import opened ParallelDownload
  import opened Wrappers
  import Window

  lemma SplitJobFits(remote: seq<byte>, total: nat, limits: seq<Window.Limit>)
    requires limits != []
    ensures SplitJob(remote, total, limits).Bounded() <==> |limits| <= total
  {
    var job := SplitJob(remote, total, limits);
    NonEmptyIffEnoughBytes(total, |limits|);
    forall i | 0 <= i < |limits|
      ensures job.configs[i].base + job.configs[i].total <= total
      ensures job.configs[i].total == Ranges(total, |limits|)[i].len
    {
      StartWithin(total, |limits|, i);
    }
  }

  /** Once the byte counts add up, every stream has moved its whole segment. */
  lemma FullCountMeansEveryByte(job: Job, w: World, moved: seq<nat>)
    requires WorldInv(job, w) && job.Bounded() && |moved| == |job.configs|
    requires forall i :: 0 <= i < |moved| ==> moved[i] <= w.streams[i].transferred
    requires Sum(moved) == Sum(seq(|job.configs|, i requires 0 <= i < |job.configs| => job.configs[i].total))
    ensures forall i :: 0 <= i < |moved| ==> w.streams[i].transferred == moved[i] == job.configs[i].total
  {
    var lens := seq(|job.configs|, i requires 0 <= i < |job.configs| => job.configs[i].total);
    forall i | 0 <= i < |moved|
      ensures moved[i] <= w.streams[i].transferred <= lens[i]
    {
      assert Inv(job.configs[i], job.remote, w.streams[i]);
    }
    SumMonotone(moved, lens);
  }

  /**
   * A parallel download of a file with at least as many bytes as streams that
   * succeeds has copied it exactly: the local file is the first `total` bytes
   * of the remote one, and the remote one has that many. This holds even
   * against a server that reports end of file early.
   */
  lemma DownloadSegmentsCopies(remote: seq<byte>, total: nat, limits: seq<Window.Limit>, cancelled: bool,
                               actions: seq<Action>, w: World, verdict: Outcome)
    requires limits != [] && |limits| <= total
    requires RunAll(SplitJob(remote, total, limits), cancelled, actions) == Some(w)
    requires w.tokens.Joined() && Verdict(w.tokens.Outcomes(), w.tokens.outer, total, verdict)
    requires verdict.Ok?
    ensures verdict == Ok(total) && total <= |remote| && w.file == remote[..total]
  {
    var job := SplitJob(remote, total, limits);
    EveryWorldIsOk(job, cancelled, actions);
    SplitJobFits(remote, total, limits);
    NoGenuineFailure(w.tokens.Outcomes(), w.tokens.outer, total, verdict);
    FullCountMovesEverySegment(remote, total, limits, w);
    CompleteStreamsMeanCompleteFile(remote, total, limits, w);
  }

  lemma FullCountMovesEverySegment(remote: seq<byte>, total: nat, limits: seq<Window.Limit>, w: World)
    requires limits != [] && |limits| <= total && WorldInv(SplitJob(remote, total, limits), w) && w.tokens.Joined()
    requires Sum(AllMoved(w.tokens.Outcomes())) == total
    ensures forall i :: 0 <= i < |limits| ==> w.streams[i].transferred == SplitRange(total, |limits|, i).len
  {
    var job := SplitJob(remote, total, limits);
    var results := w.tokens.Outcomes();
    SplitJobFits(remote, total, limits);
    LengthsSumToTotal(total, |limits|);
    assert Lengths(total, |limits|) == seq(|job.configs|, i requires 0 <= i < |job.configs| => job.configs[i].total);
    forall i | 0 <= i < |results|
      ensures AllMoved(results)[i] <= w.streams[i].transferred
    {
      assert Inv(job.configs[i], remote, w.streams[i]);
    }
    FullCountMeansEveryByte(job, w, AllMoved(results));
  }

  lemma CompleteStreamsMeanCompleteFile(remote: seq<byte>, total: nat, limits: seq<Window.Limit>, w: World)
    requires limits != [] && 0 < total && |w.streams| == |limits|
    requires var job := SplitJob(remote, total, limits); job.Bounded() && FileHolds(job, w.streams, w.file)
    requires forall i :: 0 <= i < |limits| ==> w.streams[i].transferred == SplitRange(total, |limits|, i).len
    ensures total <= |remote| && w.file == remote[..total]
  {
    forall p | 0 <= p < total
      ensures p < |w.file| && p < |remote| && w.file[p] == remote[p]
    {
      OwnerStoredIt(remote, total, limits, w, p);
    }
    OwnerStoredIt(remote, total, limits, w, total - 1);
  }

  lemma OwnerStoredIt(remote: seq<byte>, total: nat, limits: seq<Window.Limit>, w: World, p: nat)
    requires limits != [] && p < total && |w.streams| == |limits|
    requires FileHolds(SplitJob(remote, total, limits), w.streams, w.file)
    requires forall i :: 0 <= i < |limits| ==> w.streams[i].transferred == SplitRange(total, |limits|, i).len
    ensures p < |w.file| && p < |remote| && w.file[p] == remote[p]
  {
    var i := Owner(total, |limits|, p);
    assert Matches(w.file, remote, SplitJob(remote, total, limits).configs[i].base, w.streams[i].transferred);
  }

  /** If the caller never cancels, any failed stream surfaces as a genuine stream failure. */
  lemma DownloadFailuresAreGenuine(job: Job, actions: seq<Action>, w: World, verdict: Outcome)
    requires job.Valid() && RunAll(job, false, actions) == Some(w) && CancelOuter !in actions
    requires w.tokens.Joined() && Verdict(w.tokens.Outcomes(), w.tokens.outer, job.total, verdict)
    requires exists i :: 0 <= i < |w.streams| && w.streams[i].phase.Finished? && w.streams[i].phase.outcome.Err?
    ensures verdict.Err? && verdict.error.StreamFailed?
  {
    EveryWorldIsOk(job, false, actions);
    OuterStaysClear(job, actions);
    var k :| 0 <= k < |w.streams| && w.streams[k].phase.Finished? && w.streams[k].phase.outcome.Err?;
    assert w.tokens.results[k].value.Err?;
    FailuresAreGenuine(w.tokens, job.total, verdict);
    var j :| 0 <= j < |w.streams| && w.tokens.Outcomes()[j] == verdict;
    StreamErrorsOnly(job, actions, j);
  }

  lemma {:induction false} OuterStaysClear(job: Job, actions: seq<Action>)
    requires RunAll(job, false, actions).Some? && CancelOuter !in actions
    ensures !RunAll(job, false, actions).value.tokens.outer
  {
    if actions != [] {
      OuterStaysClear(job, actions[..|actions| - 1]);
    }
  }

  /** A stream never ends with the driver's own "incomplete" error. */
  lemma {:induction false} StreamErrorsOnly(job: Job, actions: seq<Action>, j: nat)
    requires job.Valid() && RunAll(job, false, actions).Some? && j < |job.configs|
    ensures var w := RunAll(job, false, actions).value;
            |w.streams| == |job.configs| && (w.streams[j].phase.Finished? && w.streams[j].phase.outcome.Err? ==>
              !w.streams[j].phase.outcome.error.Incomplete?)
  {
    if actions != [] {
      var n := |actions| - 1;
      StreamErrorsOnly(job, actions[..n], j);
      var w := RunAll(job, false, actions[..n]).value;
      if actions[n].Act? && actions[n].i == j {
        FillFrame(job.configs[j], w.streams[j]);
      }
    }
  }

  /**
   * At every point the aggregate is the sum of the last reported positions and
   * the emitted values never decrease or exceed the total; a successful run
   * ends on exactly the total.
   */
  lemma DownloadProgressIsHonest(remote: seq<byte>, total: nat, limits: seq<Window.Limit>, cancelled: bool,
                                 actions: seq<Action>, w: World)
    requires limits != [] && |limits| <= total
    requires RunAll(SplitJob(remote, total, limits), cancelled, actions) == Some(w)
    ensures w.progress.Valid() && w.progress.aggregate <= total
    ensures forall verdict :: w.tokens.Joined() && Verdict(w.tokens.Outcomes(), w.tokens.outer, total, verdict)
              ==> EndsHonestly(w.progress, verdict, total)
  {
    var job := SplitJob(remote, total, limits);
    EveryWorldIsOk(job, cancelled, actions);
    SplitJobFits(remote, total, limits);
    LengthsSumToTotal(total, |limits|);
    var lens := Lengths(total, |limits|);
    forall i | 0 <= i < |limits|
      ensures w.progress.lastSeen[i] <= lens[i]
    {
      assert Inv(job.configs[i], remote, w.streams[i]);
    }
    SumMonotone(w.progress.lastSeen, lens);
    forall verdict | w.tokens.Joined() && Verdict(w.tokens.Outcomes(), w.tokens.outer, total, verdict)
      ensures EndsHonestly(w.progress, verdict, total)
    {
      forall i | 0 <= i < |limits|
        ensures Moved(w.tokens.Outcomes()[i]) <= w.progress.lastSeen[i]
      {
        assert Inv(job.configs[i], remote, w.streams[i]);
      }
      EndIsHonest(w.progress, w.tokens.Outcomes(), w.tokens.outer, total, verdict);
    }
  }

  /** A stream reports on opening its file, on its closing flush, and, when its own interval has passed, on storing bytes. */
  predicate Reports(s: State, s': State, e: Event, timer: bool) {
    e == Open(true) || e == Close(true) || (e.Receive? && timer && s.transferred < s'.transferred)
  }

  lemma ReportedIffReports(c: Config, remote: seq<byte>, s: State, e: Event, timer: bool)
    requires Inv(c, remote, s) && Enabled(s, e)
    ensures var s' := Step(c, remote, s, e);
            && s.transferred <= s'.transferred
            && Reported(s, e, s', timer) == if Reports(s, s', e, timer) then Some(s'.transferred) else None
  {
    StepReports(c, remote, s, e, timer);
  }

  lemma ProgressAfter(job: Job, w: World, a: Action)
    requires Shaped(job, w) && a.Act? && Possible(job, w, a)
    ensures var s' := Step(job.configs[a.i], job.remote, w.streams[a.i], a.e);
            var report := Reported(w.streams[a.i], a.e, s', a.timer);
            && Apply(job, w, a).streams == w.streams[a.i := s']
            && Apply(job, w, a).progress == if report.Some? then w.progress.Record(a.i, report.value, a.due) else w.progress
  {
  }

  /**
   * Over every run: a stream's step that reports, and no other step, notes the
   * bytes stored as that stream's position and, when the shared interval has
   * passed, emits the new sum of all positions.
   */
  lemma DueReportsAreEmitted(job: Job, cancelled: bool, actions: seq<Action>, w: World, a: Action)
    requires job.Valid() && RunAll(job, cancelled, actions) == Some(w) && Shaped(job, w) && a.Act? && Possible(job, w, a)
    ensures var w' := Apply(job, w, a);
            && |w'.streams| == |w.streams|
            && (if Reports(w.streams[a.i], w'.streams[a.i], a.e, a.timer)
                then Emitted(w.progress, w'.progress, a.i, w'.streams[a.i].transferred, a.due)
                else w'.progress == w.progress)
  {
    EveryWorldIsOk(job, cancelled, actions);
    var s, s' := w.streams[a.i], Step(job.configs[a.i], job.remote, w.streams[a.i], a.e);
    ReportedIffReports(job.configs[a.i], job.remote, s, a.e, a.timer);
    ProgressAfter(job, w, a);
    assert Views(w.streams)[a.i] == ViewOf(s);
    if Reports(s, s', a.e, a.timer) {
      RecordEmits(w.progress, a.i, s'.transferred, a.due);
    }
  }

  /** Every READ of every stream stays inside that stream's segment, and so inside the file's first `total` bytes. */
  lemma ReadsStayInTheirSegment(remote: seq<byte>, total: nat, limits: seq<Window.Limit>, cancelled: bool,
                                actions: seq<Action>, w: World, i: nat, q: Request)
    requires limits != [] && |limits| <= total
    requires RunAll(SplitJob(remote, total, limits), cancelled, actions) == Some(w)
    requires i < |limits| && |w.streams| == |limits| && q in w.streams[i].log
    ensures var c := SplitJob(remote, total, limits).configs[i];
            0 < q.len && q.offset + q.len <= c.total && c.base + c.total <= total
  {
    EveryWorldIsOk(SplitJob(remote, total, limits), cancelled, actions);
    SplitJobFits(remote, total, limits);
    assert Inv(SplitJob(remote, total, limits).configs[i], remote, w.streams[i]);
  }

  /** READs of different streams never ask for a common byte. */
  lemma ReadsOfStreamsAreDisjoint(remote: seq<byte>, total: nat, limits: seq<Window.Limit>, cancelled: bool,
                                actions: seq<Action>, w: World, i: nat, j: nat, q: Request, r: Request)
    requires limits != [] && |limits| <= total
    requires RunAll(SplitJob(remote, total, limits), cancelled, actions) == Some(w)
    requires i < j < |limits| && |w.streams| == |limits| && q in w.streams[i].log && r in w.streams[j].log
    ensures var job := SplitJob(remote, total, limits);
            job.configs[i].base + q.offset + q.len <= job.configs[j].base + r.offset
  {
    ReadsStayInTheirSegment(remote, total, limits, cancelled, actions, w, i, q);
    RangesAreDisjoint(total, |limits|, i, j);
  }

  // ---------- Honest servers: when a clean run succeeds ----------

  /** The events stream `i` went through, in order. */
  function EventsOf(actions: seq<Action>, i: nat): seq<Event> {
    if actions == [] then [] else
      var n := |actions| - 1;
      var earlier := EventsOf(actions[..n], i);
      if actions[n].Act? && actions[n].i == i then earlier + [actions[n].e] else earlier
  }

  function Unopened(c: Config): State {
    Enter(c).(phase := Opening)
  }

  /** Seen by itself, each stream of a parallel run is a run of its own machine. */
  lemma {:induction false} StreamsRunTheirMachines(job: Job, cancelled: bool, actions: seq<Action>, i: nat)
    requires job.Valid() && RunAll(job, cancelled, actions).Some? && i < |job.configs|
    ensures |RunAll(job, cancelled, actions).value.streams| == |job.configs|
    ensures Run(job.configs[i], job.remote, Unopened(job.configs[i]), EventsOf(actions, i))
         == Some(RunAll(job, cancelled, actions).value.streams[i])
  {
    if actions != [] {
      var n := |actions| - 1;
      StreamsRunTheirMachines(job, cancelled, actions[..n], i);
      if actions[n].Act? && actions[n].i == i {
        RunAppend(job.configs[i], job.remote, Unopened(job.configs[i]), EventsOf(actions[..n], i), actions[n].e);
      }
    }
  }

  ghost predicate HonestServer(job: Job, cancelled: bool, actions: seq<Action>)
    requires job.Valid() && RunAll(job, cancelled, actions).Some?
  {
    forall i :: 0 <= i < |job.configs| ==>
      && Run(job.configs[i], job.remote, Unopened(job.configs[i]), EventsOf(actions, i)).Some?
      && HonestRun(job.configs[i], job.remote, Unopened(job.configs[i]), EventsOf(actions, i))
  }

  lemma HonestStreamsComplete(job: Job, cancelled: bool, actions: seq<Action>, w: World, i: nat)
    requires job.Valid() && RunAll(job, cancelled, actions) == Some(w) && HonestServer(job, cancelled, actions)
    requires i < |job.configs| && |w.streams| == |job.configs| && w.streams[i].phase.Finished? && w.streams[i].phase.outcome.Ok?
    ensures w.streams[i].phase.outcome.moved == Goal(job.configs[i], job.remote)
  {
    StreamsRunTheirMachines(job, cancelled, actions, i);
    RunKeepsComplete(job.configs[i], job.remote, Unopened(job.configs[i]), EventsOf(actions, i));
    RunKeepsInv(job.configs[i], job.remote, Unopened(job.configs[i]), EventsOf(actions, i));
  }

  /**
   * With an honest server, a file that is long enough, no cancellation and no
   * stream failure, the driver reports success exactly when there are at least
   * as many bytes as streams. With fewer, the empty leading segments read as
   * "size unknown", are copied to end of file, and the count overshoots.
   */
  lemma CleanRunsSucceedIffSegmentsAreNonEmpty(
    remote: seq<byte>, total: nat, limits: seq<Window.Limit>, actions: seq<Action>, w: World, verdict: Outcome)
    requires limits != [] && 0 < total <= |remote|
    requires RunAll(SplitJob(remote, total, limits), false, actions) == Some(w)
    requires HonestServer(SplitJob(remote, total, limits), false, actions)
    requires w.tokens.Joined() && !w.tokens.outer && forall o <- w.tokens.Outcomes() :: o.Ok?
    requires Verdict(w.tokens.Outcomes(), false, total, verdict)
    ensures verdict == Ok(total) <==> |limits| <= total
  {
    var job, n := SplitJob(remote, total, limits), |limits|;
    EveryWorldIsOk(job, false, actions);
    var results := w.tokens.Outcomes();
    forall i | 0 <= i < n
      ensures AllMoved(results)[i] == Goal(job.configs[i], remote)
    {
      assert results[i] in results;
      HonestStreamsComplete(job, false, actions, w, i);
    }
    CleanCounts(remote, total, limits, AllMoved(results));
  }

  /** What one complete stream moves: its segment, or, when that is empty, everything to end of file. */
  lemma GoalOfSegment(remote: seq<byte>, total: nat, limits: seq<Window.Limit>, i: nat)
    requires i < |limits| && 0 < total <= |remote|
    ensures var range := SplitRange(total, |limits|, i);
            Goal(SplitJob(remote, total, limits).configs[i], remote) == if range.len > 0 then range.len else |remote| - range.start
  {
    StartWithin(total, |limits|, i);
  }

  /** Complete streams add up to the total exactly when no segment is empty. */
  lemma CleanCounts(remote: seq<byte>, total: nat, limits: seq<Window.Limit>, moved: seq<nat>)
    requires limits != [] && 0 < total <= |remote| && |moved| == |limits|
    requires forall i :: 0 <= i < |limits| ==> moved[i] == Goal(SplitJob(remote, total, limits).configs[i], remote)
    ensures Sum(moved) == total <==> |limits| <= total
  {
    var n := |limits|;
    var lens := Lengths(total, n);
    LengthsSumToTotal(total, n);
    NonEmptyIffEnoughBytes(total, n);
    forall i | 0 <= i < n
      ensures lens[i] == Ranges(total, n)[i].len <= moved[i] && (lens[i] > 0 ==> moved[i] == lens[i])
    {
      GoalOfSegment(remote, total, limits, i);
    }
    SumMonotone(lens, moved);
    if n <= total {
      assert moved == lens;
    } else {
      GoalOfSegment(remote, total, limits, 0);
      FewBytesEmptyFirst(total, n);
      assert lens[0] != moved[0];
    }
  }

  lemma FewBytesEmptyFirst(total: nat, streams: nat)
    requires 0 < total < streams
    ensures SplitRange(total, streams, 0) == Range(0, 0)
  {
  }
}
