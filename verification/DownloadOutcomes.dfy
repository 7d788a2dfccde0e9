/** What a download stream returns, told from the events of its run alone. */
module DownloadOutcomes {
  import opened Bytes
  import opened Coordinator
  import opened DownloadStream
  import opened Wrappers

  /** The stream saw its token cancelled. */
  predicate CancelledIn(events: seq<Event>) {
    CheckToken(true) in events || CancelSeen in events
  }

  /** The event is a failure of that cause: opening, reading, storing a non-empty reply, or flushing. */
  predicate Hits(c: Config, remote: seq<byte>, s: State, e: Event, cause: Cause) {
    match cause
    case OpenLocal => e == Open(false)
    case ReadRemote => e.Receive? && e.choice.Refuse?
    case WriteLocal =>
      e.Receive? && !e.writeOk && s.inflight != []
      && FrontReply(c, remote, s, e.choice).Data? && FrontReply(c, remote, s, e.choice).bytes != []
    case FlushLocal => e == Close(false)
    case ReadLocal => false
    case WriteRemote => false
  }

  ghost predicate HitsAt(c: Config, remote: seq<byte>, start: State, events: seq<Event>, k: nat, cause: Cause) {
    k < |events| && Run(c, remote, start, events[..k]).Some? && Hits(c, remote, Run(c, remote, start, events[..k]).value, events[k], cause)
  }

  /** A failure of that cause is among the events. */
  ghost predicate FailedBy(c: Config, remote: seq<byte>, start: State, events: seq<Event>, cause: Cause) {
    exists k: nat :: HitsAt(c, remote, start, events, k, cause)
  }

  ghost function Failures(c: Config, remote: seq<byte>, start: State, events: seq<Event>): set<Cause> {
    set cause | FailedBy(c, remote, start, events, cause)
  }

  lemma FailedByGrows(c: Config, remote: seq<byte>, start: State, events: seq<Event>, e: Event, cause: Cause)
    requires Run(c, remote, start, events).Some?
    ensures FailedBy(c, remote, start, events + [e], cause)
            <==> FailedBy(c, remote, start, events, cause) || Hits(c, remote, Run(c, remote, start, events).value, e, cause)
  {
    var longer, n := events + [e], |events|;
    assert longer[..n] == events && longer[n] == e;
    if k: nat :| HitsAt(c, remote, start, events, k, cause) {
      assert longer[..k] == events[..k] && longer[k] == events[k];
      assert HitsAt(c, remote, start, longer, k, cause);
    }
    if k: nat :| HitsAt(c, remote, start, longer, k, cause) && k < n {
      assert longer[..k] == events[..k] && longer[k] == events[k];
      assert HitsAt(c, remote, start, events, k, cause);
    }
    if Hits(c, remote, Run(c, remote, start, events).value, e, cause) {
      assert HitsAt(c, remote, start, longer, n, cause);
    }
  }

  /** The phase as the events so far tell it. */
  ghost predicate Told(s: State, cancelled: bool, closed: bool, failures: set<Cause>) {
    && (s.phase.Closing? ==> s.phase.cancelled == cancelled)
    && (s.phase.Opening? || s.phase.Top? || s.phase.Waiting? ==> !cancelled)
    && (s.phase == Finished(Err(Cancelled)) <==> cancelled && closed)
    && (s.phase == Finished(Ok(s.transferred)) <==> !cancelled && closed)
    && (forall cause :: s.phase == Finished(Err(StreamFailed(cause))) <==> cause in failures)
    && (s.phase.Finished? <==> closed || failures != {})
  }

  lemma StepIsTold(c: Config, remote: seq<byte>, s: State, e: Event, cancelled: bool, closed: bool, failures: set<Cause>, more: set<Cause>)
    requires Enabled(s, e) && Told(s, cancelled, closed, failures)
    requires forall cause :: cause in more <==> cause in failures || Hits(c, remote, s, e, cause)
    ensures Told(Step(c, remote, s, e), cancelled || e == CheckToken(true) || e == CancelSeen, closed || e == Close(true), more)
  {
    FillFrame(c, s);
    match e
    case Open(ok) => assert !ok ==> OpenLocal in more;
    case Receive(_, _) => assert Step(c, remote, s, e).phase.Finished? ==> ReadRemote in more || WriteLocal in more;
    case Close(ok) => assert !ok ==> FlushLocal in more;
    case _ =>
  }

  /**
   * Over every run: a stream ends as cancelled exactly when it saw its token
   * cancelled and the closing flush succeeded; with its byte count exactly when
   * it did not and the flush succeeded; with the failure of a cause exactly when
   * that failure is among the events; and it has ended in no other case.
   */
  lemma {:induction false} OutcomesComeFromEvents(c: Config, remote: seq<byte>, start: State, events: seq<Event>)
    requires (start.phase.Opening? || start.phase.Top?) && Run(c, remote, start, events).Some?
    ensures Told(Run(c, remote, start, events).value, CancelledIn(events), Close(true) in events, Failures(c, remote, start, events))
  {
    if events != [] {
      var n := |events| - 1;
      var earlier, e := events[..n], events[n];
      OutcomesComeFromEvents(c, remote, start, earlier);
      assert events == earlier + [e];
      forall cause
        ensures cause in Failures(c, remote, start, events)
                <==> cause in Failures(c, remote, start, earlier) || Hits(c, remote, Run(c, remote, start, earlier).value, e, cause)
      {
        FailedByGrows(c, remote, start, earlier, e, cause);
      }
      StepIsTold(c, remote, Run(c, remote, start, earlier).value, e, CancelledIn(earlier), Close(true) in earlier,
                 Failures(c, remote, start, earlier), Failures(c, remote, start, events));
    }
  }
}
