/** How parallel uploads end: at most one refill after an abort, boundedly many steps, and never a world with nothing left to do. */
module UploadEndings {
  import opened Bytes
  import opened UploadStream
  import opened Segments
  import opened ParallelUpload
  import Window

  // ---------- Aborts ----------

  predicate Failed(s: State) {
    s.phase.Finished? && s.phase.outcome.Err?
  }

  /** The caller has cancelled, or some stream has failed. */
  ghost predicate Aborted(w: World) {
    w.tokens.outer || exists i :: 0 <= i < |w.streams| && Failed(w.streams[i])
  }

  lemma StepKeepsAborted(job: Job, w: World, a: Action)
    requires Shaped(job, w) && Possible(job, w, a) && (w.tokens.Seen() <==> Aborted(w))
    ensures Apply(job, w, a).tokens.Seen() <==> Aborted(Apply(job, w, a))
  {
    var w' := Apply(job, w, a);
    if a.Act? {
      if i :| 0 <= i < |w.streams| && Failed(w.streams[i]) {
        assert Failed(w'.streams[i]);
      }
      if Failed(w'.streams[a.i]) {
        assert w'.tokens.Seen();
      }
    }
  }

  /** The streams find their token cancelled exactly when the caller has cancelled or a stream has failed. */
  lemma {:induction false} AbortedIffCancelledOrFailed(job: Job, before: seq<byte>, cancelled: bool, actions: seq<Action>)
    requires RunAll(job, before, cancelled, actions).Some?
    ensures var w := RunAll(job, before, cancelled, actions).value;
            Shaped(job, w) && (w.tokens.Seen() <==> Aborted(w))
  {
    if actions != [] {
      var n := |actions| - 1;
      AbortedIffCancelledOrFailed(job, before, cancelled, actions[..n]);
      StepKeepsAborted(job, RunAll(job, before, cancelled, actions[..n]).value, actions[n]);
    }
  }

  /** The WRITEs a stream can still issue without looking at its token again. */
  function Refill(c: Config, s: State): int {
    if s.phase.Filling? then c.depth - s.InFlight() else 0
  }

  /** Nothing is unsent again, and what is newly sent comes out of the refill. */
  ghost predicate SendsOnlyItsRefill(c: Config, s: State, s': State) {
    s.sent <= s'.sent && |s'.sent| + Refill(c, s') <= |s.sent| + Refill(c, s) && 0 <= Refill(c, s')
  }

  lemma StepSpendsRefill(c: Config, src: seq<byte>, s: State, e: Event)
    requires Inv(c, src, s) && Enabled(c, s, e) && e != CheckToken(false)
    ensures SendsOnlyItsRefill(c, s, Step(c, src, s, e))
  {
    StepKeepsInv(c, src, s, e);
  }

  /** The streams of the second world have sent no more than what they had left to send in the first. */
  ghost predicate OnlyRefills(job: Job, w: World, w': World) {
    && Shaped(job, w) && Shaped(job, w') && w'.tokens.Seen()
    && forall i :: 0 <= i < |job.configs| ==> SendsOnlyItsRefill(job.configs[i], w.streams[i], w'.streams[i])
  }

  lemma StepAfterAbort(job: Job, w: World, a: Action)
    requires WorldInv(job, w) && Possible(job, w, a) && w.tokens.Seen()
    ensures OnlyRefills(job, w, Apply(job, w, a))
  {
    if a.Act? {
      StepSpendsRefill(job.configs[a.i], job.SourceOf(a.i), w.streams[a.i], a.e);
    }
    forall i | 0 <= i < |job.configs|
      ensures SendsOnlyItsRefill(job.configs[i], w.streams[i], Apply(job, w, a).streams[i])
    {
      assert Inv(job.configs[i], job.SourceOf(i), w.streams[i]);
    }
  }

  lemma RefillsAddUp(job: Job, w: World, w': World, w'': World)
    requires OnlyRefills(job, w, w') && OnlyRefills(job, w', w'')
    ensures OnlyRefills(job, w, w'')
  {
  }

  lemma {:induction false} OnlyRefillsAfterSeen(job: Job, file: seq<byte>, cancelled: bool, before: seq<Action>, after: seq<Action>)
    requires job.Valid() && RunAll(job, file, cancelled, before).Some? && RunAll(job, file, cancelled, before + after).Some?
    requires RunAll(job, file, cancelled, before).value.tokens.Seen()
    ensures OnlyRefills(job, RunAll(job, file, cancelled, before).value, RunAll(job, file, cancelled, before + after).value)
  {
    EveryWorldIsOk(job, file, cancelled, before);
    if after == [] {
      assert before + after == before;
    } else {
      var n := |after| - 1;
      assert (before + after)[..|before + after| - 1] == before + after[..n];
      OnlyRefillsAfterSeen(job, file, cancelled, before, after[..n]);
      EveryWorldIsOk(job, file, cancelled, before + after[..n]);
      var w' := RunAll(job, file, cancelled, before + after[..n]).value;
      StepAfterAbort(job, w', after[n]);
      RefillsAddUp(job, RunAll(job, file, cancelled, before).value, w', Apply(job, w', after[n]));
    }
  }

  /**
   * Once the caller has cancelled or a stream has failed, a stream in the middle
   * of refilling its pipeline can send at most the WRITEs that refill still takes,
   * and every other stream sends none, however the run goes on.
   */
  lemma OnlyRefillsAfterAbort(job: Job, file: seq<byte>, cancelled: bool, before: seq<Action>, after: seq<Action>, i: nat)
    requires job.Valid() && RunAll(job, file, cancelled, before).Some? && RunAll(job, file, cancelled, before + after).Some?
    requires Aborted(RunAll(job, file, cancelled, before).value) && i < |job.configs|
    ensures var w, w' := RunAll(job, file, cancelled, before).value, RunAll(job, file, cancelled, before + after).value;
            && Shaped(job, w) && Shaped(job, w') && w.streams[i].sent <= w'.streams[i].sent
            && |w'.streams[i].sent| - |w.streams[i].sent|
               <= if w.streams[i].phase.Filling? then job.configs[i].depth - w.streams[i].InFlight() else 0
  {
    var w := RunAll(job, file, cancelled, before).value;
    AbortedIffCancelledOrFailed(job, file, cancelled, before);
    OnlyRefillsAfterSeen(job, file, cancelled, before, after);
    assert SendsOnlyItsRefill(job.configs[i], w.streams[i], RunAll(job, file, cancelled, before + after).value.streams[i]);
  }

  // ---------- Bounds ----------

  /** How many of the actions are not the caller's cancellation. */
  function Steps(actions: seq<Action>): nat {
    if actions == [] then 0 else
      var n := |actions| - 1;
      Steps(actions[..n]) + if actions[n].CancelOuter? then 0 else 1
  }

  lemma DistanceIsNat(c: Config, src: seq<byte>, s: State)
    requires Inv(c, src, s)
    ensures 0 <= Distance(src, s)
  {
    IndicesFit(s.applied, |s.sent|);
  }

  function Left(src: seq<byte>, s: State): nat {
    if Distance(src, s) < 0 then 0 else Distance(src, s)
  }

  /** The steps each stream has left. */
  function AllLeft(job: Job, streams: seq<State>): (left: seq<nat>)
    requires |streams| == |job.configs|
    ensures |left| == |streams|
    ensures forall i :: 0 <= i < |streams| ==> left[i] == Left(job.SourceOf(i), streams[i])
  {
    seq(|streams|, i requires 0 <= i < |streams| => Left(job.SourceOf(i), streams[i]))
  }

  lemma ActUsesUpSteps(job: Job, w: World, a: Action)
    requires WorldInv(job, w) && a.Act? && Possible(job, w, a)
    ensures Shaped(job, Apply(job, w, a))
    ensures Sum(AllLeft(job, Apply(job, w, a).streams)) < Sum(AllLeft(job, w.streams))
  {
    var c, src, s := job.configs[a.i], job.SourceOf(a.i), w.streams[a.i];
    var s' := Step(c, src, s, a.e);
    StepKeepsInv(c, src, s, a.e);
    StepLowersDistance(c, src, s, a.e);
    DistanceIsNat(c, src, s');
    SumUpdate(AllLeft(job, w.streams), a.i, Left(src, s'));
    assert AllLeft(job, w.streams)[a.i := Left(src, s')] == AllLeft(job, w.streams[a.i := s']);
  }

  /** Every handle is opened at most once. */
  lemma HandlesFit(job: Job, w: World, a: Action)
    requires Shaped(job, w) && Possible(job, w, a) && forall h <- w.handles :: h < |job.configs|
    ensures var w' := Apply(job, w, a);
            && (forall h <- w'.handles :: h < |job.configs|)
            && |w'.handles| == |w.handles| + if a.OpenRemote? then 1 else 0
  {
  }

  /** The most steps a stream can take. */
  function StreamBounds(job: Job): (bounds: seq<nat>)
    ensures |bounds| == |job.configs|
    ensures forall i :: 0 <= i < |bounds| ==> bounds[i] == 5 * |job.SourceOf(i)| + 4
  {
    seq(|job.configs|, i requires 0 <= i < |job.configs| => 5 * |job.SourceOf(i)| + 4)
  }

  /** `steps` taken and those left never exceed the streams' bounds and the handles opened. */
  ghost predicate WithinBudget(job: Job, w: World, steps: nat) {
    && |w.streams| == |job.configs| && (forall h <- w.handles :: h < |job.configs|)
    && steps + Sum(AllLeft(job, w.streams)) <= Sum(StreamBounds(job)) + |w.handles|
  }

  lemma StepKeepsBudget(job: Job, w: World, a: Action, steps: nat)
    requires WorldInv(job, w) && Possible(job, w, a) && WithinBudget(job, w, steps)
    ensures WithinBudget(job, Apply(job, w, a), steps + if a.CancelOuter? then 0 else 1)
  {
    HandlesFit(job, w, a);
    if a.Act? {
      ActUsesUpSteps(job, w, a);
    }
  }

  lemma {:induction false} StepsAreUsedUp(job: Job, before: seq<byte>, cancelled: bool, actions: seq<Action>)
    requires job.Valid() && RunAll(job, before, cancelled, actions).Some?
    ensures WithinBudget(job, RunAll(job, before, cancelled, actions).value, Steps(actions))
  {
    if actions == [] {
      assert AllLeft(job, Start(job, before, cancelled).streams) == StreamBounds(job);
    } else {
      var n := |actions| - 1;
      StepsAreUsedUp(job, before, cancelled, actions[..n]);
      EveryWorldIsOk(job, before, cancelled, actions[..n]);
      StepKeepsBudget(job, RunAll(job, before, cancelled, actions[..n]).value, actions[n], Steps(actions[..n]));
    }
  }

  /** However the server schedules its work and the streams interleave, an upload takes boundedly many steps. */
  lemma ParallelRunsAreBounded(job: Job, before: seq<byte>, cancelled: bool, actions: seq<Action>)
    requires job.Valid() && RunAll(job, before, cancelled, actions).Some?
    ensures Steps(actions) <= Sum(StreamBounds(job)) + |job.configs|
  {
    StepsAreUsedUp(job, before, cancelled, actions);
    IndicesFit(RunAll(job, before, cancelled, actions).value.handles, |job.configs|);
  }

  /** For a split that is five times the total and five steps a stream. */
  lemma SplitUploadsAreBounded(local: seq<byte>, total: nat, limits: seq<Window.Limit>, before: seq<byte>, cancelled: bool,
                               actions: seq<Action>)
    requires limits != [] && RunAll(SplitJob(local, total, limits), before, cancelled, actions).Some?
    ensures Steps(actions) <= 5 * total + 5 * |limits|
  {
    var job := SplitJob(local, total, limits);
    ParallelRunsAreBounded(job, before, cancelled, actions);
    LengthsSumToTotal(total, |limits|);
    SumScaled(Lengths(total, |limits|), StreamBounds(job), 5, 4);
  }

  // ---------- Progress ----------

  /** A cancellation, a failing acknowledgement, or the server applying a WRITE nobody waits for. */
  predicate IsDetour(w: World, a: Action) {
    match a
    case CancelOuter => true
    case OpenRemote(_) => false
    case Act(i, e, _, _) =>
      e.CancelSeen? || e == Ack(false)
      || (e.Land? && i < |w.streams| && (w.streams[i].phase.Waiting? ==> e.j != w.streams[i].acked))
  }

  /** In every world, until every stream has ended, some step without cancellation or failure is possible. */
  lemma ParallelNeverStuck(job: Job, w: World)
    requires job.Valid() && WorldInv(job, w)
    ensures w.tokens.Joined() <==> forall a :: Possible(job, w, a) ==> IsDetour(w, a)
  {
    forall i | 0 <= i < |job.configs|
      ensures w.tokens.results[i].Some? <==> w.streams[i].phase.Finished?
    {
      assert Views(w.streams)[i] == ViewOf(w.streams[i]);
    }
    if w.tokens.Joined() {
      JoinedIsIdle(job, w);
    } else if AllOpen(job, w) {
      var i :| 0 <= i < |w.tokens.results| && w.tokens.results[i].None?;
      StreamCanStep(job, w, i);
    } else {
      HandleCanOpen(job, w);
    }
  }

  lemma JoinedIsIdle(job: Job, w: World)
    requires job.Valid() && WorldInv(job, w) && forall i :: 0 <= i < |job.configs| ==> w.streams[i].phase.Finished?
    ensures forall a :: Possible(job, w, a) ==> IsDetour(w, a)
  {
    assert w.streams[0].phase.Finished?;
  }

  lemma HandleCanOpen(job: Job, w: World)
    requires Shaped(job, w) && !AllOpen(job, w)
    ensures exists a :: Possible(job, w, a) && !IsDetour(w, a)
  {
    var i :| 0 <= i < |job.configs| && i !in w.handles;
    assert Possible(job, w, OpenRemote(if 0 in w.handles then i else 0));
  }

  lemma StreamCanStep(job: Job, w: World, i: nat)
    requires Shaped(job, w) && AllOpen(job, w) && i < |job.configs| && !w.streams[i].phase.Finished?
    requires w.streams[i].acked <= |w.streams[i].sent|
    ensures exists a :: Possible(job, w, a) && !IsDetour(w, a)
  {
    var c, s := job.configs[i], w.streams[i];
    var e := match s.phase
             case Top => CheckToken(w.tokens.Seen())
             case Filling => if s.InFlight() < c.depth then Issue(true) else Full
             case Waiting => if s.InFlight() == 0 then Drained else if s.acked in s.applied then Ack(true) else Land(s.acked)
             case Closing(_) => Close;
    assert Possible(job, w, Act(i, e, false, false));
  }
}
