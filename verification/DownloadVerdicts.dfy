/** What a segmented download reports, told from the events of its streams. */
module DownloadVerdicts {
  import opened Bytes
  import opened Coordinator
  import opened DownloadOutcomes
  import opened DownloadStream
  import opened DownloadTheorems
  import opened ParallelDownload
  import opened Wrappers

  /** Per stream, the failures among its events. */
  ghost function FailuresOf(job: Job, actions: seq<Action>): (failures: seq<set<Cause>>)
    ensures |failures| == |job.configs|
    ensures forall i :: 0 <= i < |failures| ==> failures[i] == Failures(job.configs[i], job.remote, Unopened(job.configs[i]), EventsOf(actions, i))
  {
    seq(|job.configs|, i requires 0 <= i < |job.configs| => Failures(job.configs[i], job.remote, Unopened(job.configs[i]), EventsOf(actions, i)))
  }

  lemma OnlyTheCallerCancels(job: Job, w: World, a: Action)
    requires Shaped(job, w) && Possible(job, w, a)
    ensures Apply(job, w, a).tokens.outer <==> w.tokens.outer || a.CancelOuter?
  {
  }

  lemma {:induction false} OuterComesFromCaller(job: Job, cancelled: bool, actions: seq<Action>)
    requires RunAll(job, cancelled, actions).Some?
    ensures RunAll(job, cancelled, actions).value.tokens.outer <==> cancelled || CancelOuter in actions
  {
    if actions != [] {
      var n := |actions| - 1;
      OuterComesFromCaller(job, cancelled, actions[..n]);
      OnlyTheCallerCancels(job, RunAll(job, cancelled, actions[..n]).value, actions[n]);
      LastOrEarlier(actions, CancelOuter);
    }
  }

  /** A joined result is a failure exactly of the causes among its stream's events. */
  lemma ResultsTellFailures(job: Job, cancelled: bool, actions: seq<Action>, w: World, i: nat)
    requires job.Valid() && RunAll(job, cancelled, actions) == Some(w) && w.tokens.Joined() && i < |job.configs|
    ensures |w.tokens.results| == |job.configs|
    ensures Genuine(w.tokens.Outcomes()[i]) <==> FailuresOf(job, actions)[i] != {}
    ensures forall cause :: w.tokens.Outcomes()[i] == Err(StreamFailed(cause)) <==> cause in FailuresOf(job, actions)[i]
  {
    EveryWorldIsOk(job, cancelled, actions);
    assert Views(w.streams)[i] == ViewOf(w.streams[i]);
    assert w.streams[i].phase == Finished(w.tokens.Outcomes()[i]);
    StreamsRunTheirMachines(job, cancelled, actions, i);
    OutcomesComeFromEvents(job.configs[i], job.remote, Unopened(job.configs[i]), EventsOf(actions, i));
    assert Inv(job.configs[i], job.remote, w.streams[i]);
    if cause :| cause in FailuresOf(job, actions)[i] {
      assert w.streams[i].phase == Finished(Err(StreamFailed(cause)));
    }
  }

  lemma ResultsAreExplained(job: Job, cancelled: bool, actions: seq<Action>, w: World)
    requires job.Valid() && RunAll(job, cancelled, actions) == Some(w) && w.tokens.Joined()
    ensures Explains(FailuresOf(job, actions), w.tokens.Outcomes())
  {
    EveryWorldIsOk(job, cancelled, actions);
    forall i | 0 <= i < |job.configs|
      ensures Genuine(w.tokens.Outcomes()[i]) <==> FailuresOf(job, actions)[i] != {}
      ensures forall cause :: w.tokens.Outcomes()[i] == Err(StreamFailed(cause)) <==> cause in FailuresOf(job, actions)[i]
    {
      ResultsTellFailures(job, cancelled, actions, w, i);
    }
  }

  /**
   * Over every run: the download reports the cancellation exactly when the
   * caller cancelled and no failure is among the streams' events, and the
   * failure of a cause exactly when that is the failure of the first stream
   * with one.
   */
  lemma DownloadVerdictsComeFromEvents(job: Job, cancelled: bool, actions: seq<Action>, w: World, verdict: Outcome)
    requires job.Valid() && RunAll(job, cancelled, actions) == Some(w) && w.tokens.Joined()
    requires Verdict(w.tokens.Outcomes(), w.tokens.outer, job.total, verdict)
    ensures verdict == Err(Cancelled)
            <==> (cancelled || CancelOuter in actions) && forall i :: 0 <= i < |job.configs| ==> FailuresOf(job, actions)[i] == {}
    ensures forall cause :: verdict == Err(StreamFailed(cause)) <==> exists i: nat :: FailsFirst(FailuresOf(job, actions), i, cause)
  {
    OuterComesFromCaller(job, cancelled, actions);
    ResultsAreExplained(job, cancelled, actions, w);
    VerdictsFollowFailures(w.tokens.Outcomes(), FailuresOf(job, actions), w.tokens.outer, job.total, verdict);
  }
}
