/** What an upload stream returns, told from the events of its run alone. */
module UploadOutcomes {
  import opened Bytes
  import opened Coordinator
  import opened UploadStream
  import opened Wrappers

  predicate CancelledIn(events: seq<Event>) {
    CheckToken(true) in events || CancelSeen in events
  }

  /** The failures among the events: of reading the local file, and of a WRITE. */
  function Failures(events: seq<Event>): (causes: set<Cause>)
    ensures ReadLocal in causes <==> Issue(false) in events
    ensures WriteRemote in causes <==> Ack(false) in events
    ensures causes <= {ReadLocal, WriteRemote}
  {
    (if Issue(false) in events then {ReadLocal} else {}) + (if Ack(false) in events then {WriteRemote} else {})
  }

  /** The phase as the events so far tell it. */
  ghost predicate Told(s: State, cancelled: bool, closed: bool, failures: set<Cause>) {
    && (s.phase.Closing? ==> s.phase.cancelled == cancelled)
    && (s.phase.Top? || s.phase.Filling? || s.phase.Waiting? ==> !cancelled)
    && (s.phase == Finished(Err(Cancelled)) <==> cancelled && closed)
    && (s.phase == Finished(Ok(s.transferred)) <==> !cancelled && closed)
    && (forall cause :: s.phase == Finished(Err(StreamFailed(cause))) <==> cause in failures)
    && (s.phase.Finished? <==> closed || failures != {})
  }

  /**
   * Over every run: a stream ends as cancelled exactly when it saw its token
   * cancelled and left in order; with its byte count exactly when it left in
   * order without; with the failure of a cause exactly when that failure is
   * among the events; and it has ended in no other case.
   */
  lemma {:induction false} OutcomesComeFromEvents(c: Config, src: seq<byte>, events: seq<Event>)
    requires Run(c, src, events).Some?
    ensures Told(Run(c, src, events).value, CancelledIn(events), Close in events, Failures(events))
  {
    if events != [] {
      var n := |events| - 1;
      OutcomesComeFromEvents(c, src, events[..n]);
      assert events == events[..n] + [events[n]];
      StepIsTold(c, src, Run(c, src, events[..n]).value, events[n], events[..n]);
    }
  }

  lemma StepIsTold(c: Config, src: seq<byte>, s: State, e: Event, events: seq<Event>)
    requires Enabled(c, s, e) && Told(s, CancelledIn(events), Close in events, Failures(events))
    ensures Told(Step(c, src, s, e), CancelledIn(events + [e]), Close in events + [e], Failures(events + [e]))
  {
    assert forall x :: x in events + [e] <==> x in events || x == e;
    assert Failures(events + [e]) == Failures(events)
      + (if e == Issue(false) then {ReadLocal} else {}) + (if e == Ack(false) then {WriteRemote} else {});
    match e
    case Issue(false) => assert ReadLocal in Failures(events + [e]);
    case Ack(false) => assert WriteRemote in Failures(events + [e]);
    case _ =>
  }
}
