/** A parallel download can always be brought to success: the theorems about successful runs are about runs that exist. */
module DownloadLiveness {
  import opened Bytes
  import opened Coordinator
  import opened DownloadStream
  import opened ParallelDownload
  import opened DownloadTheorems
  import opened Wrappers
  import Window

  /** What happens next when nobody cancels, the disk works and the server answers in full. */
  function NextEvent(c: Config, s: State): (e: Event)
    requires c.Valid() && !s.phase.Finished?
    ensures Enabled(s, e)
  {
    match s.phase
    case Opening => Open(true)
    case Top => CheckToken(false)
    case Waiting => if s.inflight == [] then Drained else Receive(Prefix(c.readLen), true)
    case Closing(_) => Close(true)
  }

  ghost predicate Healthy(c: Config, remote: seq<byte>, s: State) {
    && Inv(c, remote, s) && CompleteOnExit(c, remote, s)
    && s.phase != Closing(true) && (s.phase.Finished? ==> s.phase.outcome.Ok?)
  }

  lemma NextKeepsHealthy(c: Config, remote: seq<byte>, s: State)
    requires Healthy(c, remote, s) && !s.phase.Finished?
    ensures var s' := Step(c, remote, s, NextEvent(c, s));
            Healthy(c, remote, s') && Rank(s) < Rank(s')
  {
    StepKeepsInv(c, remote, s, NextEvent(c, s));
    StepKeepsComplete(c, remote, s, NextEvent(c, s));
    StepRaisesRank(c, remote, s, NextEvent(c, s));
  }

  /** Nobody has failed or cancelled. */
  ghost predicate AllHealthy(job: Job, w: World) {
    && Shaped(job, w) && !w.tokens.Seen()
    && forall i :: 0 <= i < |job.configs| ==> Healthy(job.configs[i], job.remote, w.streams[i])
  }

  /** A run so far without failure or cancellation, against an honest server. */
  ghost predicate GoodRun(job: Job, actions: seq<Action>, w: World) {
    job.Valid() && RunAll(job, false, actions) == Some(w) && HonestServer(job, false, actions) && AllHealthy(job, w)
  }

  /** One step on for stream `i`, the others standing still. */
  lemma NextStep(job: Job, actions: seq<Action>, w: World, i: nat) returns (a: Action, w': World)
    requires GoodRun(job, actions, w) && i < |job.configs| && !w.streams[i].phase.Finished?
    ensures GoodRun(job, actions + [a], w') && |w'.streams| == |w.streams|
    ensures w'.streams == w.streams[i := w'.streams[i]] && Rank(w.streams[i]) < Rank(w'.streams[i])
  {
    a := Act(i, NextEvent(job.configs[i], w.streams[i]), true, true);
    assert (actions + [a])[..|actions + [a]| - 1] == actions;
    HealthyStep(job, w, i);
    w' := Apply(job, w, a);
    HonestStep(job, actions, w, a);
  }

  lemma HealthyStep(job: Job, w: World, i: nat)
    requires job.Valid() && AllHealthy(job, w) && i < |job.configs| && !w.streams[i].phase.Finished?
    ensures var a := Act(i, NextEvent(job.configs[i], w.streams[i]), true, true);
            && Possible(job, w, a) && AllHealthy(job, Apply(job, w, a))
            && HonestEvent(job.configs[i], job.remote, w.streams[i], a.e)
            && Rank(w.streams[i]) < Rank(Apply(job, w, a).streams[i])
  {
    NextKeepsHealthy(job.configs[i], job.remote, w.streams[i]);
  }

  lemma HonestStep(job: Job, actions: seq<Action>, w: World, a: Action)
    requires job.Valid() && RunAll(job, false, actions) == Some(w) && HonestServer(job, false, actions)
    requires RunAll(job, false, actions + [a]).Some? && a.Act? && a.i < |job.configs| && |w.streams| == |job.configs|
    requires Enabled(w.streams[a.i], a.e) && HonestEvent(job.configs[a.i], job.remote, w.streams[a.i], a.e)
    ensures HonestServer(job, false, actions + [a])
  {
    assert (actions + [a])[..|actions + [a]| - 1] == actions;
    forall j | 0 <= j < |job.configs|
      ensures Run(job.configs[j], job.remote, Unopened(job.configs[j]), EventsOf(actions + [a], j)).Some?
      ensures HonestRun(job.configs[j], job.remote, Unopened(job.configs[j]), EventsOf(actions + [a], j))
    {
      StreamsRunTheirMachines(job, false, actions, j);
      if j == a.i {
        RunAppend(job.configs[j], job.remote, Unopened(job.configs[j]), EventsOf(actions, j), a.e);
      }
    }
  }

  /** Every stream can be finished on its own, the others standing still. */
  lemma {:induction false} FinishStream(job: Job, actions: seq<Action>, w: World, i: nat) returns (longer: seq<Action>, w': World)
    requires GoodRun(job, actions, w) && i < |job.configs|
    ensures GoodRun(job, longer, w') && w'.streams[i].phase.Finished?
    ensures forall j :: 0 <= j < |job.configs| && j != i ==> w'.streams[j] == w.streams[j]
    decreases 2 * Goal(job.configs[i], job.remote) + 4 - Rank(w.streams[i])
  {
    longer, w' := actions, w;
    if !w.streams[i].phase.Finished? {
      var a, next := NextStep(job, actions, w, i);
      RankIsBounded(job.configs[i], job.remote, next.streams[i]);
      longer, w' := FinishStream(job, actions + [a], next, i);
    }
  }

  lemma {:induction false} FinishStreams(job: Job, k: nat) returns (actions: seq<Action>, w: World)
    requires job.Valid() && k <= |job.configs|
    ensures GoodRun(job, actions, w)
    ensures forall i :: 0 <= i < k ==> w.streams[i].phase.Finished?
  {
    if k == 0 {
      actions, w := [], Start(job, false);
    } else {
      actions, w := FinishStreams(job, k - 1);
      actions, w := FinishStream(job, actions, w, k - 1);
    }
  }

  /** With an honest server every stream can end with what its goal is. */
  lemma CleanRunExists(remote: seq<byte>, total: nat, limits: seq<Window.Limit>) returns (actions: seq<Action>, w: World)
    requires limits != []
    ensures RunAll(SplitJob(remote, total, limits), false, actions) == Some(w) && w.tokens.Joined() && !w.tokens.outer
    ensures HonestServer(SplitJob(remote, total, limits), false, actions)
    ensures var job := SplitJob(remote, total, limits);
            && |w.tokens.Outcomes()| == |limits|
            && forall i :: 0 <= i < |limits| ==> w.tokens.Outcomes()[i] == Ok(Goal(job.configs[i], remote))
  {
    var job := SplitJob(remote, total, limits);
    actions, w := FinishStreams(job, |limits|);
    EveryWorldIsOk(job, false, actions);
    forall i | 0 <= i < |limits|
      ensures w.tokens.results[i] == Some(Ok(Goal(job.configs[i], remote)))
    {
      assert Healthy(job.configs[i], remote, w.streams[i]);
      assert Views(w.streams)[i] == ViewOf(w.streams[i]);
    }
  }

  /**
   * With fewer bytes than streams some clean run exists, too, with every stream
   * ending well, and the driver calls it incomplete.
   */
  lemma FewBytesEndIncomplete(remote: seq<byte>, total: nat, limits: seq<Window.Limit>) returns (actions: seq<Action>, w: World)
    requires limits != [] && 0 < total <= |remote| && total < |limits|
    ensures RunAll(SplitJob(remote, total, limits), false, actions) == Some(w) && w.tokens.Joined() && !w.tokens.outer
    ensures HonestServer(SplitJob(remote, total, limits), false, actions) && forall o <- w.tokens.Outcomes() :: o.Ok?
    ensures var moved := Sum(AllMoved(w.tokens.Outcomes()));
            moved != total && Verdict(w.tokens.Outcomes(), w.tokens.outer, total, Err(Incomplete(moved, total)))
  {
    actions, w := CleanRunExists(remote, total, limits);
    CleanCounts(remote, total, limits, AllMoved(w.tokens.Outcomes()));
  }

  /** For every file and every split with enough bytes, some schedule ends in success. */
  lemma SuccessIsReachable(remote: seq<byte>, total: nat, limits: seq<Window.Limit>) returns (actions: seq<Action>, w: World)
    requires limits != [] && |limits| <= total <= |remote|
    ensures RunAll(SplitJob(remote, total, limits), false, actions) == Some(w) && w.tokens.Joined()
    ensures Verdict(w.tokens.Outcomes(), w.tokens.outer, total, Ok(total))
  {
    actions, w := CleanRunExists(remote, total, limits);
    CleanCounts(remote, total, limits, AllMoved(w.tokens.Outcomes()));
  }
}
