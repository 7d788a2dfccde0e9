/**
 * What the segment drivers share between their streams: the child
 * cancellation token, the aggregated progress counter and the verdict drawn
 * from the joined results.
 */
module Coordinator {
  import opened Bytes
  import opened Wrappers

  datatype Cause = OpenLocal | ReadLocal | WriteLocal | FlushLocal | ReadRemote | WriteRemote

  /** `Cancelled` is the fixed cancellation message; every other message is a different string. */
  datatype Error = Cancelled | StreamFailed(cause: Cause) | Incomplete(moved: nat, total: nat)

  datatype Outcome = Ok(moved: nat) | Err(error: Error)

  predicate Genuine(o: Outcome) {
    o.Err? && o.error != Cancelled
  }

  // ---------- The verdict ----------

  function Moved(o: Outcome): nat {
    if o.Ok? then o.moved else 0
  }

  function AllMoved(results: seq<Outcome>): (moved: seq<nat>)
    ensures |moved| == |results|
    ensures forall i :: 0 <= i < |results| ==> moved[i] == Moved(results[i])
  {
    seq(|results|, i requires 0 <= i < |results| => Moved(results[i]))
  }

  ghost predicate FirstGenuine(results: seq<Outcome>, i: nat) {
    i < |results| && Genuine(results[i]) && forall j :: 0 <= j < i ==> !Genuine(results[j])
  }

  /**
   * The verdict on a joined run: the genuine failure of the lowest-numbered
   * failed stream, else the caller's cancellation, else a byte count that
   * does not add up, else success with the whole total.
   */
  ghost predicate Verdict(results: seq<Outcome>, cancelled: bool, total: nat, verdict: Outcome) {
    && (forall i: nat :: FirstGenuine(results, i) ==> verdict == results[i])
    && ((forall i :: 0 <= i < |results| ==> !Genuine(results[i])) ==>
          var moved := Sum(AllMoved(results));
          verdict == if cancelled then Err(Cancelled)
                     else if moved != total then Err(Incomplete(moved, total))
                     else Ok(total))
  }

  lemma VerdictIsUnique(results: seq<Outcome>, cancelled: bool, total: nat, v: Outcome, v': Outcome)
    requires Verdict(results, cancelled, total, v) && Verdict(results, cancelled, total, v')
    ensures v == v'
  {
    if i :| 0 <= i < |results| && Genuine(results[i]) {
      var first := LeastGenuine(results, i);
    }
  }

  lemma {:induction false} LeastGenuine(results: seq<Outcome>, i: nat) returns (first: nat)
    requires i < |results| && Genuine(results[i])
    ensures first <= i && FirstGenuine(results, first)
  {
    if j :| 0 <= j < i && Genuine(results[j]) {
      first := LeastGenuine(results, j);
    } else {
      first := i;
    }
  }

  /** Success means nobody failed, the caller did not cancel, and the bytes add up. */
  lemma NoGenuineFailure(results: seq<Outcome>, cancelled: bool, total: nat, verdict: Outcome)
    requires Verdict(results, cancelled, total, verdict) && verdict.Ok?
    ensures !cancelled && Sum(AllMoved(results)) == total && verdict == Ok(total)
  {
    if i :| 0 <= i < |results| && Genuine(results[i]) {
      var first := LeastGenuine(results, i);
    }
  }

  /** `failures[i]` holds the causes that result `i` is a failure of. */
  ghost predicate Explains(failures: seq<set<Cause>>, results: seq<Outcome>) {
    && |failures| == |results|
    && (forall i :: 0 <= i < |results| ==> (Genuine(results[i]) <==> failures[i] != {}))
    && (forall i, cause :: 0 <= i < |results| ==> (results[i] == Err(StreamFailed(cause)) <==> cause in failures[i]))
  }

  ghost predicate FailsFirst(failures: seq<set<Cause>>, i: nat, cause: Cause) {
    i < |failures| && cause in failures[i] && forall j :: 0 <= j < i ==> failures[j] == {}
  }

  /**
   * The verdict is the cancellation exactly when the caller cancelled and
   * nothing failed, and the failure of a cause exactly when that is what the
   * first failed stream failed of.
   */
  lemma VerdictsFollowFailures(results: seq<Outcome>, failures: seq<set<Cause>>, cancelled: bool, total: nat, verdict: Outcome)
    requires Explains(failures, results) && Verdict(results, cancelled, total, verdict)
    ensures verdict == Err(Cancelled) <==> cancelled && forall i :: 0 <= i < |failures| ==> failures[i] == {}
    ensures forall cause :: verdict == Err(StreamFailed(cause)) <==> exists i: nat :: FailsFirst(failures, i, cause)
  {
    if i :| 0 <= i < |results| && Genuine(results[i]) {
      var first := LeastGenuine(results, i);
      forall cause
        ensures verdict == Err(StreamFailed(cause)) <==> exists i: nat :: FailsFirst(failures, i, cause)
      {
        if cause in failures[first] {
          assert FailsFirst(failures, first, cause);
        }
      }
    }
  }

  /** The loop over the joined results. */
  method Conclude(results: seq<Outcome>, cancelled: bool, total: nat) returns (verdict: Outcome)
    ensures Verdict(results, cancelled, total, verdict)
  {
    var transferred := 0;
    var failure: Option<Outcome> := None;
    for n := 0 to |results|
      invariant transferred == Sum(AllMoved(results[..n]))
      invariant failure.None? ==> forall j :: 0 <= j < n ==> !Genuine(results[j])
      invariant failure.Some? ==> exists i :: 0 <= i < n && FirstGenuine(results, i) && failure.value == results[i]
    {
      assert AllMoved(results[..n + 1]) == AllMoved(results[..n]) + [Moved(results[n])];
      SumAppend(AllMoved(results[..n]), Moved(results[n]));
      match results[n]
      case Ok(moved) => transferred := transferred + moved;
      case Err(error) =>
        if failure.None? && error != Cancelled {
          failure := Some(results[n]);
        }
    }
    assert results[..|results|] == results;
    if failure.Some? {
      return failure.value;
    }
    assert forall j :: 0 <= j < |results| ==> !Genuine(results[j]);
    if cancelled {
      return Err(Cancelled);
    }
    if transferred != total {
      return Err(Incomplete(transferred, total));
    }
    return Ok(transferred);
  }

  // ---------- The shared cancellation token ----------

  /** `outer` is the caller's token; a stream sees the child, cancelled with either. */
  datatype Tokens = Tokens(outer: bool, child: bool, results: seq<Option<Outcome>>) {
    predicate Seen() {
      outer || child
    }

    predicate Joined() {
      forall i :: 0 <= i < |results| ==> results[i].Some?
    }

    /** The joined results, once every stream has one. */
    function Outcomes(): (all: seq<Outcome>)
      requires Joined()
      ensures |all| == |results|
      ensures forall i :: 0 <= i < |results| ==> results[i] == Some(all[i])
    {
      seq(|results|, i requires 0 <= i < |results| => results[i].value)
    }

    /** Stream `i` ends; on an error it cancels its siblings unless it failed before its loop. */
    function Settle(i: nat, o: Outcome, abortsSiblings: bool): Tokens
      requires i < |results|
    {
      Tokens(outer, child || (o.Err? && abortsSiblings), results[i := Some(o)])
    }

    /** The child token fires only behind the outer one or behind a genuine failure. */
    ghost predicate Blamed() {
      && (child ==> outer || SomeoneFailed())
      && (forall i :: 0 <= i < |results| && results[i] == Some(Err(Cancelled)) ==> Seen())
    }

    ghost predicate SomeoneFailed() {
      exists i :: 0 <= i < |results| && results[i].Some? && Genuine(results[i].value)
    }
  }

  function StartTokens(streams: nat, cancelled: bool): Tokens {
    Tokens(cancelled, false, seq(streams, _ => None))
  }

  /** A stream may end with the cancellation error only after it has seen its token. */
  lemma SettleKeepsBlame(t: Tokens, i: nat, o: Outcome, abortsSiblings: bool)
    requires t.Blamed() && i < |t.results| && t.results[i].None?
    requires o == Err(Cancelled) ==> t.Seen()
    ensures t.Settle(i, o, abortsSiblings).Blamed()
  {
    var t' := t.Settle(i, o, abortsSiblings);
    if t.SomeoneFailed() {
      var j :| 0 <= j < |t.results| && t.results[j].Some? && Genuine(t.results[j].value);
      assert t'.results[j] == t.results[j];
    } else if Genuine(o) {
      assert t'.results[i] == Some(o);
    }
  }

  /**
   * While the caller has not cancelled, a failed run reports a genuine
   * stream failure: never the cancellation error and never "incomplete".
   */
  lemma FailuresAreGenuine(t: Tokens, total: nat, verdict: Outcome)
    requires t.Blamed() && t.Joined() && !t.outer
    requires Verdict(t.Outcomes(), t.outer, total, verdict)
    requires exists i :: 0 <= i < |t.results| && t.results[i].value.Err?
    ensures verdict.Err? && verdict.error != Cancelled && verdict in t.Outcomes()
  {
    var k :| 0 <= k < |t.results| && t.results[k].value.Err?;
    if t.results[k].value == Err(Cancelled) {
      assert t.SomeoneFailed();
    }
    var j :| 0 <= j < |t.results| && t.results[j].Some? && Genuine(t.results[j].value);
    var first := LeastGenuine(t.Outcomes(), j);
  }

  // ---------- Aggregated progress ----------

  datatype Progress = Progress(lastSeen: seq<nat>, aggregate: nat, emitted: seq<nat>) {
    /**
     * One per-stream callback: stream `i` reports position `now`; `due` says
     * whether the shared throttle lets the total through.
     */
    function Record(i: nat, now: nat, due: bool): Progress
      requires i < |lastSeen|
    {
      var delta := if now >= lastSeen[i] then now - lastSeen[i] else 0;
      Progress(lastSeen[i := now], aggregate + delta,
               if due then emitted + [aggregate + delta] else emitted)
    }

    /** The driver's closing callback: on success, and only then, it reports the byte count. */
    function Concluded(verdict: Outcome): Progress {
      if verdict.Ok? then this.(emitted := emitted + [verdict.moved]) else this
    }

    ghost predicate Valid() {
      && aggregate == Sum(lastSeen)
      && (forall k :: 0 <= k < |emitted| ==> emitted[k] <= aggregate)
      && (forall k, l :: 0 <= k < l < |emitted| ==> emitted[k] <= emitted[l])
    }
  }

  function StartProgress(streams: nat): Progress {
    Progress(seq(streams, _ => 0), 0, [])
  }

  lemma StartProgressValid(streams: nat)
    ensures StartProgress(streams).Valid()
  {
    SumZero(streams);
  }

  /** The aggregate stays the sum of the positions exactly when no stream reports backwards. */
  lemma RecordKeepsValid(p: Progress, i: nat, now: nat, due: bool)
    requires p.Valid() && i < |p.lastSeen|
    ensures p.Record(i, now, due).Valid() <==> p.lastSeen[i] <= now
  {
    SumUpdate(p.lastSeen, i, now);
  }

  /** Stream `i` has reported position `now`: noted, and, when due, the new sum of all positions is emitted. */
  ghost predicate Emitted(p: Progress, p': Progress, i: nat, now: nat, due: bool) {
    && i < |p.lastSeen| && p'.lastSeen == p.lastSeen[i := now]
    && p'.emitted == p.emitted + if due then [Sum(p'.lastSeen)] else []
  }

  lemma RecordEmits(p: Progress, i: nat, now: nat, due: bool)
    requires p.Valid() && i < |p.lastSeen| && p.lastSeen[i] <= now
    ensures Emitted(p, p.Record(i, now, due), i, now, due)
  {
    RecordKeepsValid(p, i, now, due);
  }

  /** With the driver's own last report the values still never fall or pass the total, and a success ends on the total. */
  ghost predicate EndsHonestly(p: Progress, verdict: Outcome, total: nat) {
    var all := p.Concluded(verdict).emitted;
    && (forall k :: 0 <= k < |all| ==> all[k] <= total)
    && (forall k, l :: 0 <= k < l < |all| ==> all[k] <= all[l])
    && (verdict.Ok? ==> all != [] && all[|all| - 1] == total && p.aggregate == total)
  }

  /** A run that ends on its verdict ends its reports honestly, once every result has been reported. */
  lemma EndIsHonest(p: Progress, results: seq<Outcome>, cancelled: bool, total: nat, verdict: Outcome)
    requires p.Valid() && p.aggregate <= total && Verdict(results, cancelled, total, verdict)
    requires |results| == |p.lastSeen| && forall i :: 0 <= i < |results| ==> Moved(results[i]) <= p.lastSeen[i]
    ensures EndsHonestly(p, verdict, total)
  {
    if verdict.Ok? {
      NoGenuineFailure(results, cancelled, total, verdict);
      SumMonotone(AllMoved(results), p.lastSeen);
      TotalComesLast(p.emitted, total);
    }
  }

  lemma TotalComesLast(emitted: seq<nat>, total: nat)
    requires forall k :: 0 <= k < |emitted| ==> emitted[k] <= total
    requires forall k, l :: 0 <= k < l < |emitted| ==> emitted[k] <= emitted[l]
    ensures var all := emitted + [total];
            && (forall k :: 0 <= k < |all| ==> all[k] <= total)
            && (forall k, l :: 0 <= k < l < |all| ==> all[k] <= all[l])
  {
  }

  // ---------- What the drivers see of a stream ----------

  /** A stream's acknowledged position, its result once it ended, and whether it is stopping as cancelled. */
  datatype View = View(position: nat, outcome: Option<Outcome>, stopping: bool)

  /** Results are recorded as streams end, and only a cancelled token makes a stream stop as cancelled. */
  ghost predicate Settled(tokens: Tokens, views: seq<View>) {
    && |tokens.results| == |views|
    && tokens.Blamed()
    && (forall i :: 0 <= i < |views| ==> tokens.results[i] == views[i].outcome)
    && (forall i :: 0 <= i < |views| && views[i].stopping ==> tokens.Seen())
  }

  lemma StepKeepsSettled(tokens: Tokens, views: seq<View>, i: nat, v: View, abortsSiblings: bool)
    requires Settled(tokens, views) && i < |views| && views[i].outcome.None?
    requires v.stopping || v.outcome == Some(Err(Cancelled)) ==> tokens.Seen()
    ensures var tokens' := if v.outcome.Some? then tokens.Settle(i, v.outcome.value, abortsSiblings) else tokens;
            Settled(tokens', views[i := v])
  {
    if v.outcome.Some? {
      SettleKeepsBlame(tokens, i, v.outcome.value, abortsSiblings);
    }
  }

  /** The counter never runs ahead of the streams, and has caught up with every stream that succeeded. */
  ghost predicate Tracked(progress: Progress, views: seq<View>) {
    && |progress.lastSeen| == |views|
    && progress.Valid()
    && (forall i :: 0 <= i < |views| ==> progress.lastSeen[i] <= views[i].position)
    && (forall i :: 0 <= i < |views| && views[i].outcome.Some? && views[i].outcome.value.Ok? ==>
          progress.lastSeen[i] == views[i].position)
  }

  lemma StepKeepsTracked(progress: Progress, views: seq<View>, i: nat, v: View, report: Option<nat>, due: bool)
    requires Tracked(progress, views) && i < |views|
    requires views[i].position <= v.position
    requires report.Some? ==> report.value == v.position
    requires v.outcome.Some? && v.outcome.value.Ok? ==> report.Some?
    ensures var progress' := if report.Some? then progress.Record(i, report.value, due) else progress;
            Tracked(progress', views[i := v])
  {
    if report.Some? {
      RecordKeepsValid(progress, i, report.value, due);
    }
  }

  /** The shared counters behind the per-stream callbacks. */
  class ProgressAggregator {
    var aggregate: nat
    var lastSeen: seq<nat>
    var emitted: seq<nat>

    ghost function State(): Progress
      reads this
    {
      Progress(lastSeen, aggregate, emitted)
    }

    constructor (streams: nat)
      ensures State() == StartProgress(streams) && State().Valid()
    {
      aggregate, lastSeen, emitted := 0, seq(streams, _ => 0), [];
      new;
      StartProgressValid(streams);
    }

    method Report(i: nat, now: nat, due: bool)
      requires i < |lastSeen|
      modifies this
      ensures State() == old(State()).Record(i, now, due)
      ensures old(State()).Valid() && old(lastSeen[i]) <= now ==> State().Valid()
    {
      if State().Valid() {
        RecordKeepsValid(State(), i, now, due);
      }
      var prev := lastSeen[i];
      lastSeen := lastSeen[i := now];
      var delta := if now >= prev then now - prev else 0;
      aggregate := aggregate + delta;
      if due {
        emitted := emitted + [aggregate];
      }
    }

    method ReportEnd(verdict: Outcome)
      modifies this`emitted
      ensures State() == old(State()).Concluded(verdict)
    {
      if verdict.Ok? {
        emitted := emitted + [verdict.moved];
      }
    }
  }
}
