/** A parallel upload can always be brought to success. */
module UploadLiveness {
  import opened Bytes
  import opened Coordinator
  import opened UploadStream
  import opened ParallelUpload
  import opened UploadTheorems
  import opened Wrappers
  import Window

  /** What happens next when nobody cancels or fails and the server applies the oldest WRITE when it is waited for. */
  function NextEvent(c: Config, s: State): (e: Event)
    requires s.acked <= |s.sent| && !s.phase.Finished?
    ensures Enabled(c, s, e)
  {
    match s.phase
    case Top => CheckToken(false)
    case Filling => if s.InFlight() < c.depth then Issue(true) else Full
    case Waiting => if s.InFlight() == 0 then Drained else if s.acked in s.applied then Ack(true) else Land(s.acked)
    case Closing(_) => Close
  }

  ghost predicate Healthy(c: Config, src: seq<byte>, s: State) {
    Inv(c, src, s) && s.phase != Closing(true) && (s.phase.Finished? ==> s.phase.outcome.Ok?)
  }

  lemma NextKeepsHealthy(c: Config, src: seq<byte>, s: State)
    requires Healthy(c, src, s) && !s.phase.Finished?
    ensures var s' := Step(c, src, s, NextEvent(c, s));
            Healthy(c, src, s') && 0 <= Distance(src, s') < Distance(src, s)
  {
    var s' := Step(c, src, s, NextEvent(c, s));
    StepKeepsInv(c, src, s, NextEvent(c, s));
    StepLowersDistance(c, src, s, NextEvent(c, s));
    IndicesFit(s'.applied, |s'.sent|);
  }

  ghost predicate AllHealthy(job: Job, w: World) {
    && Shaped(job, w) && !w.tokens.Seen()
    && forall i :: 0 <= i < |job.configs| ==> Healthy(job.configs[i], job.SourceOf(i), w.streams[i])
  }

  /** The handles can be opened in order, the probe stream's first. */
  lemma {:induction false} OpenHandles(job: Job, before: seq<byte>, k: nat) returns (actions: seq<Action>, w: World)
    requires job.Valid() && k <= |job.configs|
    ensures RunAll(job, before, false, actions) == Some(w) && AllHealthy(job, w)
    ensures forall i :: i in w.handles <==> 0 <= i < k
  {
    if k == 0 {
      actions, w := [], Start(job, before, false);
    } else {
      actions, w := OpenHandles(job, before, k - 1);
      var a := OpenRemote(k - 1);
      assert (actions + [a])[..|actions + [a]| - 1] == actions;
      actions, w := actions + [a], Apply(job, w, a);
    }
  }

  /** Every stream can be finished on its own, the others standing still. */
  lemma {:induction false} FinishStream(job: Job, before: seq<byte>, actions: seq<Action>, w: World, i: nat)
    returns (longer: seq<Action>, w': World)
    requires job.Valid() && RunAll(job, before, false, actions) == Some(w) && AllHealthy(job, w) && AllOpen(job, w) && i < |job.configs|
    ensures RunAll(job, before, false, longer) == Some(w') && AllHealthy(job, w') && AllOpen(job, w')
    ensures w'.streams[i].phase.Finished? && forall j :: 0 <= j < |job.configs| && j != i ==> w'.streams[j] == w.streams[j]
    decreases Distance(job.SourceOf(i), w.streams[i])
  {
    var c, s := job.configs[i], w.streams[i];
    longer, w' := actions, w;
    if !s.phase.Finished? {
      NextKeepsHealthy(c, job.SourceOf(i), s);
      var a := Act(i, NextEvent(c, s), true, true);
      assert (actions + [a])[..|actions + [a]| - 1] == actions;
      longer, w' := FinishStream(job, before, actions + [a], Apply(job, w, a), i);
    }
  }

  lemma {:induction false} FinishStreams(job: Job, before: seq<byte>, k: nat) returns (actions: seq<Action>, w: World)
    requires job.Valid() && k <= |job.configs|
    ensures RunAll(job, before, false, actions) == Some(w) && AllHealthy(job, w) && AllOpen(job, w)
    ensures forall i :: 0 <= i < k ==> w.streams[i].phase.Finished?
  {
    if k == 0 {
      actions, w := OpenHandles(job, before, |job.configs|);
    } else {
      actions, w := FinishStreams(job, before, k - 1);
      actions, w := FinishStream(job, before, actions, w, k - 1);
    }
  }

  /** For every local file, every split and whatever the remote file held, some schedule ends in success. */
  lemma SuccessIsReachable(local: seq<byte>, total: nat, limits: seq<Window.Limit>, before: seq<byte>)
    returns (actions: seq<Action>, w: World)
    requires limits != [] && total <= |local|
    ensures RunAll(SplitJob(local, total, limits), before, false, actions) == Some(w) && w.tokens.Joined()
    ensures Verdict(w.tokens.Outcomes(), w.tokens.outer, total, Ok(total))
  {
    var job := SplitJob(local, total, limits);
    actions, w := FinishStreams(job, before, |limits|);
    EveryWorldIsOk(job, before, false, actions);
    forall i | 0 <= i < |limits|
      ensures w.tokens.results[i] == Some(Ok(|job.SourceOf(i)|))
    {
      assert Healthy(job.configs[i], job.SourceOf(i), w.streams[i]);
      assert Views(w.streams)[i] == ViewOf(w.streams[i]);
      ResultsArePositions(job, w, i);
    }
    SourcesAddUp(local, total, limits, AllMoved(w.tokens.Outcomes()));
  }
}
