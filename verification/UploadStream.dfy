/**
 * One pipelined upload stream together with the server's half of it, as a state
 * machine over await points.
 *
 * The server may apply the WRITEs it was sent in any order and at any time,
 * also after the client has given up on them; an acknowledgement means that
 * the write has been applied (draft-ietf-secsh-filexfer-02, section 6.4).
 */
module UploadStream {
  import opened Bytes
  import opened Coordinator
  import opened Wrappers

  /** `offset` counts from the stream's base. */
  datatype Write = Write(offset: nat, data: seq<byte>)

  datatype Config = Config(writeLen: nat, depth: nat, base: nat, len: nat) {
    predicate Valid() {
      0 < writeLen && 0 < depth
    }
  }

  /** The bytes the stream's reader yields: its own stretch of the local file, as far as that goes. */
  function Source(c: Config, local: seq<byte>): (src: seq<byte>)
    ensures TakenFrom(src, local, c.base) && |src| <= c.len
  {
    if |local| <= c.base then [] else local[c.base..Min(c.base + c.len, |local|)]
  }

  datatype Phase =
    | Top
    | Filling
    | Waiting
    | Closing(cancelled: bool)
    | Finished(outcome: Outcome)

  /**
   * `sent` lists every WRITE ever issued and `acked` how many of them, from the
   * front, have been acknowledged: the in-flight queue is `sent[acked..]`.
   * `applied` holds the indices of the WRITEs the server has applied.
   */
  datatype State = State(
    transferred: nat, nextOffset: nat, sent: seq<Write>, acked: nat, applied: set<nat>, phase: Phase)
  {
    function InFlight(): int {
      |sent| - acked
    }
  }

  datatype Event =
    | CheckToken(cancelled: bool)
    | Issue(readOk: bool)
    | Full
    | CancelSeen
    | Land(j: nat)
    | Ack(ok: bool)
    | Drained
    | Close

  function Enter(): State {
    State(0, 0, [], 0, {}, Top)
  }

  predicate Enabled(c: Config, s: State, e: Event) {
    match e
    case CheckToken(_) => s.phase.Top?
    case Issue(_) => s.phase.Filling? && s.InFlight() < c.depth
    case Full => s.phase.Filling? && s.InFlight() >= c.depth
    case CancelSeen => s.phase.Waiting? || (s.phase.Filling? && s.InFlight() < c.depth)
    case Land(j) => j < |s.sent| && j !in s.applied
    case Ack(ok) => s.phase.Waiting? && s.InFlight() > 0 && (ok ==> s.acked in s.applied)
    case Drained => s.phase.Waiting? && s.InFlight() <= 0
    case Close => s.phase.Closing?
  }

  /** The block `read_fill` stages at `next`: a full one, or whatever is left. */
  function Block(c: Config, src: seq<byte>, next: nat): (data: seq<byte>)
    ensures |data| == Min(c.writeLen, if next < |src| then |src| - next else 0)
    ensures TakenFrom(data, src, next)
  {
    if |src| <= next then [] else src[next..Min(next + c.writeLen, |src|)]
  }

  function Step(c: Config, src: seq<byte>, s: State, e: Event): State
    requires Enabled(c, s, e)
  {
    match e
    case CheckToken(cancelled) => s.(phase := if cancelled then Closing(true) else Filling)
    case Issue(readOk) =>
      var data := Block(c, src, s.nextOffset);
      if !readOk then s.(phase := Finished(Err(StreamFailed(ReadLocal))))
      else if data == [] then s.(phase := Waiting)
      else s.(sent := s.sent + [Write(s.nextOffset, data)], nextOffset := s.nextOffset + |data|)
    case Full => s.(phase := Waiting)
    case CancelSeen => s.(phase := Closing(true))
    case Land(j) => s.(applied := s.applied + {j})
    case Ack(ok) =>
      if !ok then s.(phase := Finished(Err(StreamFailed(WriteRemote))))
      else s.(transferred := s.transferred + |s.sent[s.acked].data|, acked := s.acked + 1, phase := Top)
    case Drained => s.(phase := Closing(false))
    case Close => s.(phase := Finished(if s.phase.cancelled then Err(Cancelled) else Ok(s.transferred)))
  }

  /** The state after the events, or `None` when one of them was not possible. */
  function Run(c: Config, src: seq<byte>, events: seq<Event>): Option<State> {
    if events == [] then Some(Enter()) else
      var n := |events| - 1;
      match Run(c, src, events[..n])
      case None => None
      case Some(s) => if Enabled(c, s, events[n]) then Some(Step(c, src, s, events[n])) else None
  }

  // ---------- The invariant ----------

  function End(w: Write): nat {
    w.offset + |w.data|
  }

  /** Where the `j`-th WRITE starts; the issue cursor for the one not issued yet. */
  function Position(sent: seq<Write>, next: nat, j: nat): nat {
    if j < |sent| then sent[j].offset else next
  }

  /** WRITE `j` carries the source's own bytes and ends where the next one starts; only the last may be short. */
  ghost predicate Placed(c: Config, src: seq<byte>, sent: seq<Write>, next: nat, j: nat)
    requires j < |sent|
  {
    && 0 < |sent[j].data| <= c.writeLen
    && TakenFrom(sent[j].data, src, sent[j].offset)
    && End(sent[j]) == Position(sent, next, j + 1)
    && (|sent[j].data| < c.writeLen ==> End(sent[j]) == |src|)
  }

  /** The issued blocks tile [0, nextOffset) in issue order. */
  ghost predicate Tiled(c: Config, src: seq<byte>, sent: seq<Write>, next: nat) {
    && Position(sent, next, 0) == 0
    && next <= |src|
    && (forall j :: 0 <= j < |sent| ==> Placed(c, src, sent, next, j))
  }

  ghost predicate Inv(c: Config, src: seq<byte>, s: State) {
    && c.Valid()
    && Tiled(c, src, s.sent, s.nextOffset)
    && s.acked <= |s.sent| && s.transferred == Position(s.sent, s.nextOffset, s.acked)
    && (forall j :: 0 <= j < s.acked ==> j in s.applied)
    && (forall j :: j in s.applied ==> j < |s.sent|)
    && s.InFlight() <= c.depth
    && (s.phase.Waiting? && s.InFlight() == 0 ==> s.nextOffset == |src|)
    && (s.phase == Closing(false) || (s.phase.Finished? && s.phase.outcome.Ok?) ==> s.transferred == |src| && s.InFlight() == 0)
    && (s.phase.Finished? && s.phase.outcome.Ok? ==> s.phase.outcome.moved == |src|)
  }

  lemma IssueKeepsTiling(c: Config, src: seq<byte>, sent: seq<Write>, next: nat)
    requires c.Valid() && Tiled(c, src, sent, next) && next < |src|
    ensures var data := Block(c, src, next);
            Tiled(c, src, sent + [Write(next, data)], next + |data|)
  {
    var data := Block(c, src, next);
    var longer, next' := sent + [Write(next, data)], next + |data|;
    forall j | 0 <= j < |longer|
      ensures Placed(c, src, longer, next', j)
    {
      if j < |sent| {
        assert Placed(c, src, sent, next, j);
        assert longer[j] == sent[j];
        if |sent[j].data| < c.writeLen {
          WritesEndByCursor(c, src, sent, next, j);
        }
      }
    }
  }

  lemma {:induction false} WritesEndByCursor(c: Config, src: seq<byte>, sent: seq<Write>, next: nat, j: nat)
    requires Tiled(c, src, sent, next) && j < |sent|
    ensures End(sent[j]) <= next
    decreases |sent| - j
  {
    assert Placed(c, src, sent, next, j);
    if j + 1 < |sent| {
      WritesEndByCursor(c, src, sent, next, j + 1);
    }
  }

  lemma StepKeepsInv(c: Config, src: seq<byte>, s: State, e: Event)
    requires Inv(c, src, s) && Enabled(c, s, e)
    ensures Inv(c, src, Step(c, src, s, e))
  {
    match e
    case Issue(readOk) =>
      if readOk && s.nextOffset < |src| {
        IssueKeepsTiling(c, src, s.sent, s.nextOffset);
      }
    case Ack(_) =>
      assert Placed(c, src, s.sent, s.nextOffset, s.acked);
    case _ =>
  }

  lemma {:induction false} RunKeepsInv(c: Config, src: seq<byte>, events: seq<Event>)
    requires c.Valid() && Run(c, src, events).Some?
    ensures Inv(c, src, Run(c, src, events).value)
  {
    if events != [] {
      var n := |events| - 1;
      RunKeepsInv(c, src, events[..n]);
      StepKeepsInv(c, src, Run(c, src, events[..n]).value, events[n]);
    }
  }

  lemma RunAppend(c: Config, src: seq<byte>, events: seq<Event>, e: Event)
    requires Run(c, src, events).Some? && Enabled(c, Run(c, src, events).value, e)
    ensures Run(c, src, events + [e]) == Some(Step(c, src, Run(c, src, events).value, e))
  {
  }

  // ---------- What a whole run guarantees ----------

  /** WRITEs of one stream never share a byte. */
  lemma {:induction false} WritesAreDisjoint(c: Config, src: seq<byte>, sent: seq<Write>, next: nat, i: nat, j: nat)
    requires Tiled(c, src, sent, next) && i < j < |sent|
    ensures End(sent[i]) <= sent[j].offset
    decreases j - i
  {
    assert Placed(c, src, sent, next, i);
    if i + 1 < j {
      WritesAreDisjoint(c, src, sent, next, i + 1, j);
    }
  }

  /** Every byte below the issue cursor has been sent, in exactly one WRITE. */
  lemma {:induction false} EveryByteIsSentOnce(c: Config, src: seq<byte>, sent: seq<Write>, next: nat, p: nat) returns (j: nat)
    requires Tiled(c, src, sent, next) && p < next
    ensures j < |sent| && sent[j].offset <= p < End(sent[j]) && sent[j].data[p - sent[j].offset] == src[p]
    ensures forall i :: 0 <= i < |sent| && i != j ==> !(sent[i].offset <= p < End(sent[i]))
  {
    j := |sent|;
    while p < Position(sent, next, j)
      invariant j <= |sent|
      invariant p < Position(sent, next, j) || (j < |sent| && p < End(sent[j]))
      decreases j
    {
      j := j - 1;
      assert Placed(c, src, sent, next, j);
    }
    assert Placed(c, src, sent, next, j);
    forall i | 0 <= i < |sent| && i != j
      ensures !(sent[i].offset <= p < End(sent[i]))
    {
      WritesAreDisjoint(c, src, sent, next, if i < j then i else j, if i < j then j else i);
    }
  }

  /** Once a stream is on its way out it sends nothing more, whatever follows. */
  lemma {:induction false} NothingIsSentAfterLeaving(c: Config, src: seq<byte>, before: seq<Event>, after: seq<Event>)
    requires Run(c, src, before + after).Some?
    ensures Run(c, src, before).Some?
    ensures var s := Run(c, src, before).value;
            var s' := Run(c, src, before + after).value;
            s.phase.Closing? || s.phase.Finished? ==> s'.sent == s.sent && (s'.phase.Closing? || s'.phase.Finished?)
  {
    if after == [] {
      assert before + after == before;
    } else {
      var n := |after| - 1;
      assert (before + after)[..|before + after| - 1] == before + after[..n];
      NothingIsSentAfterLeaving(c, src, before, after[..n]);
    }
  }

  predicate FullOrAtEnd(c: Config, src: seq<byte>, s: State) {
    s.phase.Waiting? ==> s.InFlight() == c.depth || s.nextOffset == |src|
  }

  lemma StepKeepsFull(c: Config, src: seq<byte>, s: State, e: Event)
    requires Inv(c, src, s) && Enabled(c, s, e) && FullOrAtEnd(c, src, s)
    ensures FullOrAtEnd(c, src, Step(c, src, s, e))
  {
  }

  /** Whenever a stream waits for an acknowledgement its pipeline is full, or its whole source has been sent. */
  lemma {:induction false} WaitingMeansFull(c: Config, src: seq<byte>, events: seq<Event>)
    requires c.Valid() && Run(c, src, events).Some?
    ensures FullOrAtEnd(c, src, Run(c, src, events).value)
  {
    if events != [] {
      var n := |events| - 1;
      WaitingMeansFull(c, src, events[..n]);
      RunKeepsInv(c, src, events[..n]);
      StepKeepsFull(c, src, Run(c, src, events[..n]).value, events[n]);
    }
  }

  /** Work left: bytes to send, acknowledgements and applications to come, and the place in the loop. */
  function Distance(src: seq<byte>, s: State): int {
    5 * (|src| - s.nextOffset) + 3 * s.InFlight() + |s.sent| - |s.applied| + match s.phase
                                                                           case Top => 4
                                                                           case Filling => 3
                                                                           case Waiting => 2
                                                                           case Closing(_) => 1
                                                                           case Finished(_) => 0
  }

  lemma {:induction false} IndicesFit(indices: set<nat>, n: nat)
    requires forall j <- indices :: j < n
    ensures |indices| <= n
  {
    if n == 0 {
      assert indices == {};
    } else {
      IndicesFit(indices - {n - 1}, n - 1);
      assert indices <= (indices - {n - 1}) + {n - 1};
      if n - 1 in indices {
        assert |indices| == |indices - {n - 1}| + 1;
      } else {
        assert indices == indices - {n - 1};
      }
    }
  }

  lemma StepLowersDistance(c: Config, src: seq<byte>, s: State, e: Event)
    requires Enabled(c, s, e) && s.acked <= |s.sent| && s.nextOffset <= |src|
    ensures Distance(src, Step(c, src, s, e)) < Distance(src, s)
  {
    match e
    case Land(j) => assert |s.applied + {j}| == |s.applied| + 1;
    case _ => assert Step(c, src, s, e).applied == s.applied;
  }

  /** A run is over after boundedly many steps, however the server schedules its applications and replies. */
  lemma {:induction false} RunsAreBounded(c: Config, src: seq<byte>, events: seq<Event>)
    requires c.Valid() && Run(c, src, events).Some?
    ensures 0 <= Distance(src, Run(c, src, events).value) <= 5 * |src| + 4 - |events|
  {
    RunKeepsInv(c, src, events);
    var s := Run(c, src, events).value;
    IndicesFit(s.applied, |s.sent|);
    if events != [] {
      var n := |events| - 1;
      RunsAreBounded(c, src, events[..n]);
      RunKeepsInv(c, src, events[..n]);
      StepLowersDistance(c, src, Run(c, src, events[..n]).value, events[n]);
    }
  }

  /** ... and until then some step is possible without any cancellation or failure. */
  lemma NeverStuck(c: Config, s: State)
    requires s.acked <= |s.sent|
    ensures s.phase.Finished? <==>
            forall e :: Enabled(c, s, e) ==> e.CancelSeen? || e == Ack(false) || (e.Land? && (s.phase.Waiting? ==> e.j != s.acked))
  {
    match s.phase
    case Top => assert Enabled(c, s, CheckToken(false));
    case Filling => assert Enabled(c, s, if s.InFlight() < c.depth then Issue(true) else Full);
    case Waiting =>
      assert Enabled(c, s, if s.InFlight() == 0 then Drained else if s.acked in s.applied then Ack(true) else Land(s.acked));
    case Closing(_) => assert Enabled(c, s, Close);
    case Finished(_) =>
  }
}
