/** What a segmented upload reports, told from the events of its streams. */
module UploadVerdicts {
  import opened Bytes
  import opened Coordinator
  import opened ParallelUpload
  import opened UploadOutcomes
  import opened UploadStream
  import opened UploadTheorems
  import opened Wrappers

  /** The events stream `i` went through, in order, with the server's part in them. */
  function EventsOf(actions: seq<Action>, i: nat): seq<Event> {
    if actions == [] then [] else
      var n := |actions| - 1;
      var earlier := EventsOf(actions[..n], i);
      if actions[n].Act? && actions[n].i == i then earlier + [actions[n].e] else earlier
  }

  /** Seen by itself, each stream of a parallel run is a run of its own machine. */
  lemma {:induction false} StreamsRunTheirMachines(job: Job, before: seq<byte>, cancelled: bool, actions: seq<Action>, i: nat)
    requires job.Valid() && RunAll(job, before, cancelled, actions).Some? && i < |job.configs|
    ensures |RunAll(job, before, cancelled, actions).value.streams| == |job.configs|
    ensures Run(job.configs[i], job.SourceOf(i), EventsOf(actions, i)) == Some(RunAll(job, before, cancelled, actions).value.streams[i])
  {
    if actions != [] {
      var n := |actions| - 1;
      StreamsRunTheirMachines(job, before, cancelled, actions[..n], i);
      if actions[n].Act? && actions[n].i == i {
        RunAppend(job.configs[i], job.SourceOf(i), EventsOf(actions[..n], i), actions[n].e);
      }
    }
  }

  /** Per stream, the failures among its events. */
  ghost function FailuresOf(job: Job, actions: seq<Action>): (failures: seq<set<Cause>>)
    ensures |failures| == |job.configs|
    ensures forall i :: 0 <= i < |failures| ==> failures[i] == Failures(EventsOf(actions, i))
  {
    seq(|job.configs|, i requires 0 <= i < |job.configs| => Failures(EventsOf(actions, i)))
  }

  lemma OnlyTheCallerCancels(job: Job, w: World, a: Action)
    requires Shaped(job, w) && Possible(job, w, a)
    ensures Apply(job, w, a).tokens.outer <==> w.tokens.outer || a.CancelOuter?
  {
  }

  lemma {:induction false} OuterComesFromCaller(job: Job, before: seq<byte>, cancelled: bool, actions: seq<Action>)
    requires RunAll(job, before, cancelled, actions).Some?
    ensures RunAll(job, before, cancelled, actions).value.tokens.outer <==> cancelled || CancelOuter in actions
  {
    if actions != [] {
      var n := |actions| - 1;
      OuterComesFromCaller(job, before, cancelled, actions[..n]);
      OnlyTheCallerCancels(job, RunAll(job, before, cancelled, actions[..n]).value, actions[n]);
      LastOrEarlier(actions, CancelOuter);
    }
  }

  /** A joined result is a failure exactly of the causes among its stream's events. */
  lemma ResultsTellFailures(job: Job, before: seq<byte>, cancelled: bool, actions: seq<Action>, w: World, i: nat)
    requires job.Valid() && RunAll(job, before, cancelled, actions) == Some(w) && w.tokens.Joined() && i < |job.configs|
    ensures |w.tokens.results| == |job.configs|
    ensures Genuine(w.tokens.Outcomes()[i]) <==> FailuresOf(job, actions)[i] != {}
    ensures forall cause :: w.tokens.Outcomes()[i] == Err(StreamFailed(cause)) <==> cause in FailuresOf(job, actions)[i]
  {
    EveryWorldIsOk(job, before, cancelled, actions);
    ResultsAreOutcomes(job, w);
    StreamsRunTheirMachines(job, before, cancelled, actions, i);
    OutcomesComeFromEvents(job.configs[i], job.SourceOf(i), EventsOf(actions, i));
    if cause :| cause in FailuresOf(job, actions)[i] {
      assert w.streams[i].phase == Finished(Err(StreamFailed(cause)));
    }
    ResultsArePositions(job, w, i);
    assert Inv(job.configs[i], job.SourceOf(i), w.streams[i]);
  }

  lemma ResultsAreExplained(job: Job, before: seq<byte>, cancelled: bool, actions: seq<Action>, w: World)
    requires job.Valid() && RunAll(job, before, cancelled, actions) == Some(w) && w.tokens.Joined()
    ensures Explains(FailuresOf(job, actions), w.tokens.Outcomes())
  {
    EveryWorldIsOk(job, before, cancelled, actions);
    forall i | 0 <= i < |job.configs|
      ensures Genuine(w.tokens.Outcomes()[i]) <==> FailuresOf(job, actions)[i] != {}
      ensures forall cause :: w.tokens.Outcomes()[i] == Err(StreamFailed(cause)) <==> cause in FailuresOf(job, actions)[i]
    {
      ResultsTellFailures(job, before, cancelled, actions, w, i);
    }
  }

  /**
   * Over every run: the upload reports the cancellation exactly when the caller
   * cancelled and no failure is among the streams' events, and the failure of a
   * cause exactly when that is the failure of the first stream with one.
   */
  lemma UploadVerdictsComeFromEvents(job: Job, before: seq<byte>, cancelled: bool, actions: seq<Action>, w: World, verdict: Outcome)
    requires job.Valid() && RunAll(job, before, cancelled, actions) == Some(w) && w.tokens.Joined()
    requires Verdict(w.tokens.Outcomes(), w.tokens.outer, job.total, verdict)
    ensures verdict == Err(Cancelled)
            <==> (cancelled || CancelOuter in actions) && forall i :: 0 <= i < |job.configs| ==> FailuresOf(job, actions)[i] == {}
    ensures forall cause :: verdict == Err(StreamFailed(cause)) <==> exists i: nat :: FailsFirst(FailuresOf(job, actions), i, cause)
  {
    OuterComesFromCaller(job, before, cancelled, actions);
    ResultsAreExplained(job, before, cancelled, actions, w);
    VerdictsFollowFailures(w.tokens.Outcomes(), FailuresOf(job, actions), w.tokens.outer, job.total, verdict);
  }
}
