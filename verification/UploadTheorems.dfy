/** What a segmented upload guarantees, over every server and every interleaving. */
module UploadTheorems {
  import opened Bytes
  import opened Coordinator
  import opened UploadStream
  import opened Segments
  import opened ParallelUpload
  import opened Wrappers
  import Window

  /** A stream that has ended has started, so every handle was open and the truncation had happened. */
  lemma JoinedMeansOpened(job: Job, w: World)
    requires job.Valid() && WorldInv(job, w) && w.tokens.Joined()
    ensures 0 in w.handles
  {
    assert w.tokens.results[0].Some?;
    assert Views(w.streams)[0].outcome.Some?;
    assert w.streams[0].phase.Finished?;
  }

  /**
   * A parallel upload that succeeds has replaced the remote file, whatever it
   * held before, by exactly the first `total` bytes of the local one. There is
   * no condition on the number of streams: an empty segment uploads nothing.
   */
  lemma UploadSegmentsCopies(local: seq<byte>, total: nat, limits: seq<Window.Limit>, before: seq<byte>, cancelled: bool,
                             actions: seq<Action>, w: World, verdict: Outcome)
    requires limits != [] && RunAll(SplitJob(local, total, limits), before, cancelled, actions) == Some(w)
    requires w.tokens.Joined() && Verdict(w.tokens.Outcomes(), w.tokens.outer, total, verdict) && verdict.Ok?
    ensures verdict == Ok(total) && total <= |local| && w.file == local[..total]
  {
    var job := SplitJob(local, total, limits);
    EveryWorldIsOk(job, before, cancelled, actions);
    JoinedMeansOpened(job, w);
    NoGenuineFailure(w.tokens.Outcomes(), w.tokens.outer, total, verdict);
    FullCountMovesEverySegment(local, total, limits, w);
    CompleteStreamsMeanCompleteFile(local, total, limits, w);
  }

  lemma FullCountMovesEverySegment(local: seq<byte>, total: nat, limits: seq<Window.Limit>, w: World)
    requires limits != [] && WorldInv(SplitJob(local, total, limits), w) && w.tokens.Joined()
    requires Sum(AllMoved(w.tokens.Outcomes())) == total
    ensures forall i :: 0 <= i < |limits| ==> w.streams[i].transferred == SplitRange(total, |limits|, i).len
  {
    var job := SplitJob(local, total, limits);
    var moved, lens := AllMoved(w.tokens.Outcomes()), Lengths(total, |limits|);
    LengthsSumToTotal(total, |limits|);
    forall i | 0 <= i < |limits|
      ensures moved[i] <= w.streams[i].transferred <= lens[i]
    {
      ResultsArePositions(job, w, i);
    }
    SumMonotone(moved, lens);
  }

  /** What a stream reports is its acknowledged prefix, which never exceeds its segment. */
  lemma ResultsArePositions(job: Job, w: World, i: nat)
    requires job.Valid() && WorldInv(job, w) && i < |job.configs|
    ensures w.streams[i].transferred <= |job.SourceOf(i)|
    ensures w.tokens.results[i].Some? ==>
              && Moved(w.tokens.results[i].value) <= w.streams[i].transferred
              && (w.tokens.results[i].value.Ok? ==> w.tokens.results[i].value.moved == |job.SourceOf(i)|)
  {
    var s := w.streams[i];
    assert Inv(job.configs[i], job.SourceOf(i), s);
    assert Views(w.streams)[i] == ViewOf(s);
    if s.acked < |s.sent| {
      WritesEndByCursor(job.configs[i], job.SourceOf(i), s.sent, s.nextOffset, s.acked);
    }
  }

  lemma CompleteStreamsMeanCompleteFile(local: seq<byte>, total: nat, limits: seq<Window.Limit>, w: World)
    requires limits != [] && |w.streams| == |limits|
    requires FileHolds(SplitJob(local, total, limits), w.streams, w.file, true)
    requires forall i :: 0 <= i < |limits| ==> w.streams[i].transferred == SplitRange(total, |limits|, i).len
    ensures total <= |local| && w.file == local[..total]
  {
    forall p | 0 <= p < total
      ensures p < |w.file| && p < |local| && w.file[p] == local[p]
    {
      OwnerHoldsIt(local, total, limits, w, p);
    }
    if total > 0 {
      OwnerHoldsIt(local, total, limits, w, total - 1);
    }
  }

  lemma OwnerHoldsIt(local: seq<byte>, total: nat, limits: seq<Window.Limit>, w: World, p: nat)
    requires limits != [] && p < total && |w.streams| == |limits|
    requires FileHolds(SplitJob(local, total, limits), w.streams, w.file, true)
    requires forall i :: 0 <= i < |limits| ==> w.streams[i].transferred == SplitRange(total, |limits|, i).len
    ensures p < |w.file| && p < |local| && w.file[p] == local[p]
  {
    var i := Owner(total, |limits|, p);
    assert Matches(w.file, local, SplitJob(local, total, limits).configs[i].base, w.streams[i].transferred);
  }

  /** With no cancellation and no stream failure, the upload succeeds exactly when the local file has not shrunk. */
  lemma CleanUploadsSucceedIffFileIsWhole(local: seq<byte>, total: nat, limits: seq<Window.Limit>, before: seq<byte>,
                                          actions: seq<Action>, w: World, verdict: Outcome)
    requires limits != [] && RunAll(SplitJob(local, total, limits), before, false, actions) == Some(w)
    requires w.tokens.Joined() && forall i :: 0 <= i < |limits| && i < |w.tokens.results| ==> w.tokens.Outcomes()[i].Ok?
    requires Verdict(w.tokens.Outcomes(), false, total, verdict)
    ensures verdict == Ok(total) <==> total <= |local|
  {
    var job := SplitJob(local, total, limits);
    EveryWorldIsOk(job, before, false, actions);
    var moved := AllMoved(w.tokens.Outcomes());
    forall i | 0 <= i < |limits|
      ensures moved[i] == |job.SourceOf(i)|
    {
      ResultsArePositions(job, w, i);
    }
    SourcesAddUp(local, total, limits, moved);
  }

  /** The segments of the local file add up to the total exactly when it is long enough. */
  lemma SourcesAddUp(local: seq<byte>, total: nat, limits: seq<Window.Limit>, moved: seq<nat>)
    requires limits != [] && |moved| == |limits|
    requires forall i :: 0 <= i < |limits| ==> moved[i] == |SplitJob(local, total, limits).SourceOf(i)|
    ensures Sum(moved) == total <==> total <= |local|
  {
    LengthsSumToTotal(total, |limits|);
    forall i | 0 <= i < |limits|
      ensures moved[i] <= Lengths(total, |limits|)[i] && (total <= |local| ==> moved[i] == Lengths(total, |limits|)[i])
      ensures |local| < total && i == |limits| - 1 ==> moved[i] < Lengths(total, |limits|)[i]
    {
      SourceIsSegment(local, total, limits, i);
    }
    SumsAgreeIffNoneIsShort(moved, Lengths(total, |limits|), |local| < total);
  }

  lemma SumsAgreeIffNoneIsShort(moved: seq<nat>, lens: seq<nat>, short: bool)
    requires |moved| == |lens| > 0 && forall i :: 0 <= i < |lens| ==> moved[i] <= lens[i]
    requires if short then moved[|lens| - 1] < lens[|lens| - 1] else forall i :: 0 <= i < |lens| ==> moved[i] == lens[i]
    ensures Sum(moved) == Sum(lens) <==> !short
  {
    SumMonotone(moved, lens);
    if !short { assert moved == lens; }
  }

  /** A stream's source is its segment, cut off where the local file ends; only a short file cuts the last one. */
  lemma SourceIsSegment(local: seq<byte>, total: nat, limits: seq<Window.Limit>, i: nat)
    requires i < |limits|
    ensures var source, len := |SplitJob(local, total, limits).SourceOf(i)|, Lengths(total, |limits|)[i];
            && source <= len && (total <= |local| ==> source == len)
            && (|local| < total && i == |limits| - 1 ==> source < len)
  {
    StartWithin(total, |limits|, i);
    if |local| < total { LastSegmentReachesTheEnd(total, |limits|); }
  }

  lemma LastSegmentReachesTheEnd(total: nat, streams: nat)
    requires 0 < total && 0 < streams
    ensures var last := SplitRange(total, streams, streams - 1); last.len > 0 && last.start + last.len == total
  {
    StartWithin(total, streams, streams - 1);
    var seg := total / streams;
    if streams <= total {
      NonEmptyIffEnoughBytes(total, streams);
      assert Ranges(total, streams)[streams - 1].len > 0;
    } else {
      assert seg == 0;
    }
  }

  /**
   * At every point of a parallel upload, whatever failed or was cancelled, the
   * server holds the acknowledged prefix of every segment and every applied
   * WRITE, and nothing is sent before the truncation.
   */
  lemma AcknowledgedBytesAreDurable(job: Job, before: seq<byte>, cancelled: bool, actions: seq<Action>, w: World, i: nat)
    requires job.Valid() && RunAll(job, before, cancelled, actions) == Some(w) && i < |job.configs|
    ensures |w.streams| == |job.configs|
    ensures Matches(w.file, job.local, job.configs[i].base, w.streams[i].transferred)
    ensures Intact(job, w.streams[i], i, w.file)
    ensures w.streams[i].sent != [] ==> 0 in w.handles && |w.file| <= job.total
  {
    EveryWorldIsOk(job, before, cancelled, actions);
  }

  /** Any two different WRITEs of a run are disjoint, and all of them stay inside their own segment. */
  lemma WritesNeverOverlap(local: seq<byte>, total: nat, limits: seq<Window.Limit>, before: seq<byte>, cancelled: bool,
                           actions: seq<Action>, w: World, i: nat, m: nat, j: nat, n: nat)
    requires limits != [] && RunAll(SplitJob(local, total, limits), before, cancelled, actions) == Some(w)
    requires |w.streams| == |limits| && i <= j < |limits| && m < |w.streams[i].sent| && n < |w.streams[j].sent|
    requires i == j ==> m < n
    ensures var job := SplitJob(local, total, limits);
            && job.configs[i].base <= job.configs[i].base + w.streams[i].sent[m].offset
            && job.configs[i].base + End(w.streams[i].sent[m]) <= job.configs[j].base + w.streams[j].sent[n].offset
            && job.configs[j].base + End(w.streams[j].sent[n]) <= job.configs[j].base + job.configs[j].len
  {
    var job := SplitJob(local, total, limits);
    EveryWorldIsOk(job, before, cancelled, actions);
    var s, s' := w.streams[i], w.streams[j];
    assert Inv(job.configs[i], job.SourceOf(i), s) && Inv(job.configs[j], job.SourceOf(j), s');
    WritesEndByCursor(job.configs[j], job.SourceOf(j), s'.sent, s'.nextOffset, n);
    if i == j {
      WritesAreDisjoint(job.configs[i], job.SourceOf(i), s.sent, s.nextOffset, m, n);
    } else {
      WritesEndByCursor(job.configs[i], job.SourceOf(i), s.sent, s.nextOffset, m);
      RangesAreDisjoint(total, |limits|, i, j);
    }
  }

  /** The joined results are the outcomes the streams ended with. */
  lemma ResultsAreOutcomes(job: Job, w: World)
    requires job.Valid() && WorldInv(job, w) && w.tokens.Joined()
    ensures |w.tokens.results| == |w.streams| == |job.configs|
    ensures forall i :: 0 <= i < |w.streams| ==> w.streams[i].phase == Finished(w.tokens.Outcomes()[i])
  {
    forall i | 0 <= i < |w.streams|
      ensures w.streams[i].phase == Finished(w.tokens.Outcomes()[i])
    {
      assert Views(w.streams)[i] == ViewOf(w.streams[i]);
    }
  }

  /** If the caller never cancels, any failed stream surfaces as a genuine stream failure. */
  lemma UploadFailuresAreGenuine(job: Job, before: seq<byte>, actions: seq<Action>, w: World, verdict: Outcome)
    requires job.Valid() && RunAll(job, before, false, actions) == Some(w) && CancelOuter !in actions
    requires w.tokens.Joined() && Verdict(w.tokens.Outcomes(), w.tokens.outer, job.total, verdict)
    requires exists i :: 0 <= i < |w.streams| && w.streams[i].phase.Finished? && w.streams[i].phase.outcome.Err?
    ensures verdict.Err? && verdict.error.StreamFailed?
  {
    EveryWorldIsOk(job, before, false, actions);
    OuterStaysClear(job, before, actions);
    ResultsAreOutcomes(job, w);
    FailuresAreGenuine(w.tokens, job.total, verdict);
    var j :| 0 <= j < |w.streams| && w.tokens.Outcomes()[j] == verdict;
    StreamErrorsOnly(job, before, actions, j);
  }

  lemma {:induction false} OuterStaysClear(job: Job, before: seq<byte>, actions: seq<Action>)
    requires RunAll(job, before, false, actions).Some? && CancelOuter !in actions
    ensures !RunAll(job, before, false, actions).value.tokens.outer
  {
    if actions != [] {
      OuterStaysClear(job, before, actions[..|actions| - 1]);
    }
  }

  /** A stream never ends with the driver's own "incomplete" error. */
  lemma {:induction false} StreamErrorsOnly(job: Job, before: seq<byte>, actions: seq<Action>, j: nat)
    requires job.Valid() && RunAll(job, before, false, actions).Some? && j < |job.configs|
    ensures var w := RunAll(job, before, false, actions).value;
            |w.streams| == |job.configs| && (w.streams[j].phase.Finished? && w.streams[j].phase.outcome.Err? ==>
              !w.streams[j].phase.outcome.error.Incomplete?)
  {
    if actions != [] {
      StreamErrorsOnly(job, before, actions[..|actions| - 1], j);
    }
  }

  /** The aggregate is the sum of the reported positions, never exceeds the total, and ends on it. */
  lemma UploadProgressIsHonest(local: seq<byte>, total: nat, limits: seq<Window.Limit>, before: seq<byte>, cancelled: bool,
                               actions: seq<Action>, w: World)
    requires limits != [] && RunAll(SplitJob(local, total, limits), before, cancelled, actions) == Some(w)
    ensures w.progress.Valid() && w.progress.aggregate <= total
    ensures forall verdict :: w.tokens.Joined() && Verdict(w.tokens.Outcomes(), w.tokens.outer, total, verdict)
              ==> EndsHonestly(w.progress, verdict, total)
  {
    var job, lens := SplitJob(local, total, limits), Lengths(total, |limits|);
    EveryWorldIsOk(job, before, cancelled, actions);
    LengthsSumToTotal(total, |limits|);
    forall i | 0 <= i < |limits|
      ensures w.progress.lastSeen[i] <= lens[i]
    {
      ResultsArePositions(job, w, i);
      assert Views(w.streams)[i] == ViewOf(w.streams[i]);
    }
    SumMonotone(w.progress.lastSeen, lens);
    forall verdict | w.tokens.Joined() && Verdict(w.tokens.Outcomes(), w.tokens.outer, total, verdict)
      ensures EndsHonestly(w.progress, verdict, total)
    {
      forall i | 0 <= i < |limits|
        ensures Moved(w.tokens.Outcomes()[i]) <= w.progress.lastSeen[i]
      {
        ResultsAreReported(job, w, i);
      }
      EndIsHonest(w.progress, w.tokens.Outcomes(), w.tokens.outer, total, verdict);
    }
  }

  /** A stream reports on entry, on leaving in order, and, when its own interval has passed, on an acknowledgement. */
  predicate Reports(s: State, e: Event, timer: bool) {
    e == Close || (e.CheckToken? && s.acked == 0) || (e == Ack(true) && timer)
  }

  lemma ReportedIffReports(c: Config, src: seq<byte>, s: State, e: Event, timer: bool)
    requires Enabled(c, s, e)
    ensures var s' := Step(c, src, s, e);
            && s.transferred <= s'.transferred
            && Reported(s, e, s', timer) == if Reports(s, e, timer) then Some(s'.transferred) else None
  {
  }

  lemma ProgressAfter(job: Job, w: World, a: Action)
    requires Shaped(job, w) && a.Act? && Possible(job, w, a)
    ensures var s' := Step(job.configs[a.i], job.SourceOf(a.i), w.streams[a.i], a.e);
            var report := Reported(w.streams[a.i], a.e, s', a.timer);
            && Apply(job, w, a).streams == w.streams[a.i := s']
            && Apply(job, w, a).progress == if report.Some? then w.progress.Record(a.i, report.value, a.due) else w.progress
  {
  }

  /**
   * Over every run: a stream's step that reports, and no other step, notes the
   * bytes acknowledged as that stream's position and, when the shared interval
   * has passed, emits the new sum of all positions.
   */
  lemma DueReportsAreEmitted(job: Job, before: seq<byte>, cancelled: bool, actions: seq<Action>, w: World, a: Action)
    requires job.Valid() && RunAll(job, before, cancelled, actions) == Some(w) && Shaped(job, w) && a.Act? && Possible(job, w, a)
    ensures var w' := Apply(job, w, a);
            && |w'.streams| == |w.streams|
            && (if Reports(w.streams[a.i], a.e, a.timer)
                then Emitted(w.progress, w'.progress, a.i, w'.streams[a.i].transferred, a.due)
                else w'.progress == w.progress)
  {
    EveryWorldIsOk(job, before, cancelled, actions);
    var s, s' := w.streams[a.i], Step(job.configs[a.i], job.SourceOf(a.i), w.streams[a.i], a.e);
    ReportedIffReports(job.configs[a.i], job.SourceOf(a.i), s, a.e, a.timer);
    ProgressAfter(job, w, a);
    assert Views(w.streams)[a.i] == ViewOf(s);
    if Reports(s, a.e, a.timer) {
      RecordEmits(w.progress, a.i, s'.transferred, a.due);
    }
  }

  lemma ResultsAreReported(job: Job, w: World, i: nat)
    requires job.Valid() && WorldInv(job, w) && w.tokens.Joined() && i < |job.configs|
    ensures Moved(w.tokens.Outcomes()[i]) <= w.progress.lastSeen[i]
  {
    ResultsArePositions(job, w, i);
    assert Views(w.streams)[i] == ViewOf(w.streams[i]);
  }

  /**
   * The single-stream path, which has no byte count to check: one unlimited
   * stream over the whole file that ends well has copied the whole file.
   */
  lemma SingleUploadCopies(local: seq<byte>, c: Config, before: seq<byte>, cancelled: bool, actions: seq<Action>, w: World)
    requires c.Valid() && c.base == 0 && c.len == |local|
    requires RunAll(Job(local, |local|, [c]), before, cancelled, actions) == Some(w)
    requires |w.streams| == 1 && w.streams[0].phase.Finished? && w.streams[0].phase.outcome.Ok?
    ensures w.streams[0].phase.outcome == Ok(|local|) && w.file == local
  {
    var job := Job(local, |local|, [c]);
    EveryWorldIsOk(job, before, cancelled, actions);
    assert Inv(job.configs[0], job.SourceOf(0), w.streams[0]);
    assert Matches(w.file, local, job.configs[0].base, w.streams[0].transferred);
  }
}
