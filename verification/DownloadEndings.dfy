/** How parallel downloads end: no READ after an abort, boundedly many steps, and never a world with nothing left to do. */
module DownloadEndings {
  import opened Bytes
  import opened Coordinator
  import opened DownloadStream
  import opened Segments
  import opened ParallelDownload
  import opened DownloadTheorems
  import Window

  // ---------- Aborts ----------

  /** A stream that has failed, other than by not opening its local file. */
  predicate FailedInLoop(s: State) {
    s.phase.Finished? && s.phase.outcome.Err? && s.phase.outcome.error != StreamFailed(OpenLocal)
  }

  /** The caller has cancelled, or some stream has failed in its loop. */
  ghost predicate Aborted(w: World) {
    w.tokens.outer || exists i :: 0 <= i < |w.streams| && FailedInLoop(w.streams[i])
  }

  lemma FailingStepsSettle(c: Config, remote: seq<byte>, s: State, e: Event)
    requires Enabled(s, e)
    ensures var s' := Step(c, remote, s, e);
            FailedInLoop(s') <==> s'.phase.Finished? && s'.phase.outcome.Err? && !e.Open?
  {
    if e.CheckToken? {
      FillFrame(c, s);
    }
  }

  lemma StepKeepsAborted(job: Job, w: World, a: Action)
    requires Shaped(job, w) && Possible(job, w, a) && (w.tokens.Seen() <==> Aborted(w))
    ensures Apply(job, w, a).tokens.Seen() <==> Aborted(Apply(job, w, a))
  {
    var w' := Apply(job, w, a);
    if a.Act? {
      FailingStepsSettle(job.configs[a.i], job.remote, w.streams[a.i], a.e);
      if i :| 0 <= i < |w.streams| && FailedInLoop(w.streams[i]) {
        assert FailedInLoop(w'.streams[i]);
      }
      if FailedInLoop(w'.streams[a.i]) {
        assert w'.tokens.Seen();
      }
    }
  }

  /**
   * The streams find their token cancelled exactly when the caller has
   * cancelled or a stream has failed in its loop; one that could not open its
   * local file aborts nobody.
   */
  lemma {:induction false} AbortedIffCancelledOrFailed(job: Job, cancelled: bool, actions: seq<Action>)
    requires RunAll(job, cancelled, actions).Some?
    ensures Shaped(job, RunAll(job, cancelled, actions).value)
    ensures RunAll(job, cancelled, actions).value.tokens.Seen() <==> Aborted(RunAll(job, cancelled, actions).value)
  {
    if actions != [] {
      var n := |actions| - 1;
      AbortedIffCancelledOrFailed(job, cancelled, actions[..n]);
      StepKeepsAborted(job, RunAll(job, cancelled, actions[..n]).value, actions[n]);
    }
  }

  /** No stream has issued a READ between the two worlds, and the token stays cancelled. */
  ghost predicate SameReads(job: Job, w: World, w': World) {
    && Shaped(job, w) && Shaped(job, w') && w'.tokens.Seen()
    && forall i :: 0 <= i < |job.configs| ==> w'.streams[i].log == w.streams[i].log
  }

  lemma StepAfterAbort(job: Job, w: World, a: Action)
    requires Shaped(job, w) && Possible(job, w, a) && w.tokens.Seen()
    ensures SameReads(job, w, Apply(job, w, a))
  {
  }

  lemma SameReadsAddUp(job: Job, w: World, w': World, w'': World)
    requires SameReads(job, w, w') && SameReads(job, w', w'')
    ensures SameReads(job, w, w'')
  {
  }

  lemma {:induction false} NothingIsReadAfterSeen(job: Job, cancelled: bool, before: seq<Action>, after: seq<Action>)
    requires RunAll(job, cancelled, before).Some? && RunAll(job, cancelled, before + after).Some?
    requires RunAll(job, cancelled, before).value.tokens.Seen() && Shaped(job, RunAll(job, cancelled, before).value)
    ensures SameReads(job, RunAll(job, cancelled, before).value, RunAll(job, cancelled, before + after).value)
  {
    if after == [] {
      assert before + after == before;
    } else {
      var n := |after| - 1;
      assert (before + after)[..|before + after| - 1] == before + after[..n];
      NothingIsReadAfterSeen(job, cancelled, before, after[..n]);
      var w, w' := RunAll(job, cancelled, before).value, RunAll(job, cancelled, before + after[..n]).value;
      StepAfterAbort(job, w', after[n]);
      SameReadsAddUp(job, w, w', Apply(job, w', after[n]));
    }
  }

  /**
   * Once the caller has cancelled or a stream has failed in its loop, no stream
   * issues another READ, however the run goes on.
   */
  lemma NothingIsReadAfterAbort(job: Job, cancelled: bool, before: seq<Action>, after: seq<Action>)
    requires RunAll(job, cancelled, before).Some? && RunAll(job, cancelled, before + after).Some?
    requires Aborted(RunAll(job, cancelled, before).value)
    ensures SameReads(job, RunAll(job, cancelled, before).value, RunAll(job, cancelled, before + after).value)
  {
    AbortedIffCancelledOrFailed(job, cancelled, before);
    NothingIsReadAfterSeen(job, cancelled, before, after);
  }

  // ---------- Bounds ----------

  /** How many of the actions are steps of some stream. */
  function Steps(actions: seq<Action>): nat {
    if actions == [] then 0 else
      var n := |actions| - 1;
      Steps(actions[..n]) + if actions[n].Act? then 1 else 0
  }

  function Ranks(streams: seq<State>): (ranks: seq<nat>)
    ensures |ranks| == |streams|
    ensures forall i :: 0 <= i < |streams| ==> ranks[i] == Rank(streams[i])
  {
    seq(|streams|, i requires 0 <= i < |streams| => Rank(streams[i]))
  }

  lemma ActRaisesRanks(job: Job, w: World, a: Action)
    requires WorldInv(job, w) && a.Act? && Possible(job, w, a)
    ensures Sum(Ranks(w.streams)) < Sum(Ranks(Apply(job, w, a).streams))
  {
    var s' := Step(job.configs[a.i], job.remote, w.streams[a.i], a.e);
    StepRaisesRank(job.configs[a.i], job.remote, w.streams[a.i], a.e);
    SumUpdate(Ranks(w.streams), a.i, Rank(s'));
    assert Ranks(w.streams)[a.i := Rank(s')] == Ranks(w.streams[a.i := s']);
  }

  lemma {:induction false} StepsAreRanked(job: Job, cancelled: bool, actions: seq<Action>)
    requires job.Valid() && RunAll(job, cancelled, actions).Some?
    ensures Steps(actions) <= Sum(Ranks(RunAll(job, cancelled, actions).value.streams))
  {
    if actions != [] {
      var n := |actions| - 1;
      StepsAreRanked(job, cancelled, actions[..n]);
      EveryWorldIsOk(job, cancelled, actions[..n]);
      if actions[n].Act? {
        ActRaisesRanks(job, RunAll(job, cancelled, actions[..n]).value, actions[n]);
      }
    }
  }

  /** The most steps each stream can take. */
  function StreamBounds(job: Job): (bounds: seq<nat>)
    ensures |bounds| == |job.configs|
    ensures forall i :: 0 <= i < |bounds| ==> bounds[i] == 2 * Goal(job.configs[i], job.remote) + 4
  {
    seq(|job.configs|, i requires 0 <= i < |job.configs| => 2 * Goal(job.configs[i], job.remote) + 4)
  }

  /** Whatever the server answers and however the streams interleave, together they take boundedly many steps. */
  lemma ParallelRunsAreBounded(job: Job, cancelled: bool, actions: seq<Action>)
    requires job.Valid() && RunAll(job, cancelled, actions).Some?
    ensures Steps(actions) <= Sum(StreamBounds(job))
  {
    var w := RunAll(job, cancelled, actions).value;
    StepsAreRanked(job, cancelled, actions);
    EveryWorldIsOk(job, cancelled, actions);
    forall i | 0 <= i < |job.configs|
      ensures Ranks(w.streams)[i] <= StreamBounds(job)[i]
    {
      RankIsBounded(job.configs[i], job.remote, w.streams[i]);
    }
    SumMonotone(Ranks(w.streams), StreamBounds(job));
  }

  /** For a split with enough bytes that is twice the total and four steps a stream. */
  lemma SplitDownloadsAreBounded(remote: seq<byte>, total: nat, limits: seq<Window.Limit>, cancelled: bool, actions: seq<Action>)
    requires limits != [] && |limits| <= total
    requires RunAll(SplitJob(remote, total, limits), cancelled, actions).Some?
    ensures Steps(actions) <= 2 * total + 4 * |limits|
  {
    var job := SplitJob(remote, total, limits);
    ParallelRunsAreBounded(job, cancelled, actions);
    SplitJobFits(remote, total, limits);
    LengthsSumToTotal(total, |limits|);
    SumScaled(Lengths(total, |limits|), StreamBounds(job), 2, 4);
  }

  // ---------- Progress ----------

  predicate IsCancellation(a: Action) {
    a.CancelOuter? || a.e.CancelSeen?
  }

  /** In every world, until every stream has ended, some step other than a cancellation is possible. */
  lemma ParallelNeverStuck(job: Job, w: World)
    requires WorldInv(job, w)
    ensures w.tokens.Joined() <==> forall a :: Possible(job, w, a) ==> IsCancellation(a)
  {
    forall i | 0 <= i < |job.configs|
      ensures w.tokens.results[i].Some? <==> w.streams[i].phase.Finished?
    {
      assert Views(w.streams)[i] == ViewOf(w.streams[i]);
    }
    if !w.tokens.Joined() {
      var i :| 0 <= i < |w.tokens.results| && w.tokens.results[i].None?;
      StreamCanStep(job, w, i);
    }
  }

  lemma StreamCanStep(job: Job, w: World, i: nat)
    requires Shaped(job, w) && i < |job.configs| && !w.streams[i].phase.Finished?
    ensures exists a :: Possible(job, w, a) && !IsCancellation(a)
  {
    var s := w.streams[i];
    var e := match s.phase
             case Opening => Open(true)
             case Top => CheckToken(w.tokens.Seen())
             case Waiting => if s.inflight == [] then Drained else Receive(SayEof, true)
             case Closing(_) => Close(true);
    assert Possible(job, w, Act(i, e, false, false));
  }
}
