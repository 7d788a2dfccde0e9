/**
 * One pipelined download stream as a state machine over its await points, and
 * the invariant every one of its reachable states satisfies.
 *
 * The server is an adversary: it may answer a READ with any prefix of the
 * bytes asked for, with end-of-file, or with an error (draft-ietf-secsh-filexfer-02,
 * section 6.4). An `Honest` server sends a non-empty prefix and reports
 * end-of-file only at the end of the file.
 */
module DownloadStream {
  import opened Bytes
  import opened Coordinator
  import opened Wrappers

  /** `offset` counts from the stream's base, like the two cursors. */
  datatype Request = Request(offset: nat, len: nat)

  datatype Reply = Data(bytes: seq<byte>) | Eof | Refused

  /** `total == 0` means the size is unknown: read until end of file. */
  datatype Config = Config(total: nat, readLen: nat, depth: nat, base: nat) {
    predicate Valid() {
      0 < readLen < 0x1_0000_0000 && 0 < depth
    }
  }

  datatype Phase =
    | Opening                      // the local file is not open yet
    | Top                          // about to check the token and refill
    | Waiting                      // parked until a reply or a cancellation
    | Closing(cancelled: bool)     // out of the loop, about to flush
    | Finished(outcome: Outcome)

  /** `log` records every READ ever issued; `consumed` and `shorts` count replies taken and resynchronisations. */
  datatype State = State(
    transferred: nat, nextOffset: nat, inflight: seq<Request>, written: seq<byte>, phase: Phase,
    log: seq<Request>, consumed: nat, shorts: nat)

  datatype Event =
    | Open(ok: bool)
    | CheckToken(cancelled: bool)
    | Receive(choice: Choice, writeOk: bool)
    | Drained
    | CancelSeen
    | Close(flushOk: bool)

  // ---------- The server ----------

  datatype Choice = Prefix(n: nat) | SayEof | Refuse

  function Answer(remote: seq<byte>, off: nat, len: nat, choice: Choice): Reply {
    match choice
    case Refuse => Refused
    case SayEof => Eof
    case Prefix(n) =>
      if n == 0 then Data([])
      else if |remote| <= off then Eof
      else Data(remote[off..off + Min(n, Min(len, |remote| - off))])
  }

  ghost predicate Legal(remote: seq<byte>, off: nat, len: nat, reply: Reply) {
    reply.Data? && reply.bytes != [] ==>
      && |reply.bytes| <= len
      && off + |reply.bytes| <= |remote|
      && reply.bytes == remote[off..off + |reply.bytes|]
  }

  /** The adversary's choices produce every legal reply and nothing else. */
  lemma AnswersAreTheLegalReplies(remote: seq<byte>, off: nat, len: nat, reply: Reply)
    requires len > 0
    ensures Legal(remote, off, len, reply) <==> exists choice :: Answer(remote, off, len, choice) == reply
  {
    if Legal(remote, off, len, reply) {
      var choice := match reply
                    case Refused => Refuse
                    case Eof => SayEof
                    case Data(bytes) => Prefix(|bytes|);
      assert Answer(remote, off, len, choice) == reply;
    }
  }

  ghost predicate Honest(remote: seq<byte>, off: nat, choice: Choice) {
    (choice.Prefix? && choice.n > 0) || choice.Refuse? || (choice.SayEof? && |remote| <= off)
  }

  // ---------- The steps ----------

  /**
   * A READ is never empty, never longer than the negotiated size, never past
   * the end of a known total, and shorter than full size only at that end.
   */
  predicate WellSized(c: Config, q: Request) {
    && 0 < q.len <= c.readLen
    && (c.total > 0 ==> q.offset + q.len <= c.total)
    && (q.len < c.readLen ==> c.total > 0 && q.offset + q.len == c.total)
  }

  /** The size of the READ issued at cursor `next`: a known total clamps the last one. */
  function RequestLen(c: Config, next: nat): (len: nat)
    requires c.total == 0 || next < c.total
    ensures c.Valid() ==> WellSized(c, Request(next, len))
  {
    if c.total == 0 then c.readLen else
      var remaining := c.total - next;
      Min(c.readLen, if remaining < 0x1_0000_0000 then remaining else c.readLen)
  }

  predicate CanIssue(c: Config, s: State) {
    |s.inflight| < c.depth && (c.total == 0 || s.nextOffset < c.total)
  }

  function Issue(c: Config, s: State): State
    requires CanIssue(c, s)
  {
    var q := Request(s.nextOffset, RequestLen(c, s.nextOffset));
    s.(inflight := s.inflight + [q], nextOffset := s.nextOffset + q.len, log := s.log + [q])
  }

  /** Tops the pipeline up from the issue cursor. */
  function Fill(c: Config, s: State): (filled: State)
    ensures !CanIssue(c, filled)
    decreases c.depth - |s.inflight|
  {
    if CanIssue(c, s) then Fill(c, Issue(c, s)) else s
  }

  function Enter(c: Config): State {
    State(0, 0, [], [], Top, [], 0, 0)
  }

  predicate Enabled(s: State, e: Event) {
    match e
    case Open(_) => s.phase.Opening?
    case CheckToken(_) => s.phase.Top?
    case Receive(_, _) => s.phase.Waiting? && s.inflight != []
    case Drained => s.phase.Waiting? && s.inflight == []
    case CancelSeen => s.phase.Waiting?
    case Close(_) => s.phase.Closing?
  }

  /** The next state; the in-flight queue is dropped on every way out of the loop. */
  function Step(c: Config, remote: seq<byte>, s: State, e: Event): State
    requires Enabled(s, e)
  {
    match e
    case Open(ok) => s.(phase := if ok then Top else Finished(Err(StreamFailed(OpenLocal))))
    case CheckToken(cancelled) =>
      if cancelled then s.(inflight := [], phase := Closing(true)) else Fill(c, s).(phase := Waiting)
    case Drained => s.(phase := Closing(false))
    case CancelSeen => s.(inflight := [], phase := Closing(true))
    case Close(flushOk) =>
      s.(phase := Finished(
           if !flushOk then Err(StreamFailed(FlushLocal))
           else if s.phase.cancelled then Err(Cancelled)
           else Ok(s.transferred)))
    case Receive(choice, writeOk) => Take(c, s, FrontReply(c, remote, s, choice), writeOk)
  }

  /** The reply to the oldest request: replies are yielded in issue order. */
  function FrontReply(c: Config, remote: seq<byte>, s: State, choice: Choice): Reply
    requires s.inflight != []
  {
    Answer(remote, c.base + s.inflight[0].offset, s.inflight[0].len, choice)
  }

  /** Consumes the reply to the oldest request. */
  function Take(c: Config, s: State, reply: Reply, writeOk: bool): State
    requires s.inflight != []
  {
    var got := s.(inflight := s.inflight[1..], consumed := s.consumed + 1);
    match reply
    case Refused => got.(inflight := [], phase := Finished(Err(StreamFailed(ReadRemote))))
    case Eof => got.(inflight := [], phase := Closing(false))
    case Data(bytes) =>
      if bytes == [] then got.(inflight := [], phase := Closing(false))
      else if !writeOk then got.(inflight := [], phase := Finished(Err(StreamFailed(WriteLocal))))
      else
        var t := s.transferred + |bytes|;
        var stored := got.(transferred := t, written := s.written + bytes, phase := Top);
        if AsU32(|bytes|) < c.readLen
        then stored.(inflight := [], nextOffset := t, shorts := s.shorts + 1)
        else stored
  }

  /** The state after the events, or `None` when one of them was not possible. */
  function Run(c: Config, remote: seq<byte>, start: State, events: seq<Event>): Option<State> {
    if events == [] then Some(start) else
      var n := |events| - 1;
      match Run(c, remote, start, events[..n])
      case None => None
      case Some(s) => if Enabled(s, events[n]) then Some(Step(c, remote, s, events[n])) else None
  }

  // ---------- The invariant ----------

  /** The requests follow each other without gap or overlap from `from` to `to`. */
  ghost predicate Tiles(requests: seq<Request>, from: nat, to: nat) {
    if requests == [] then from == to
    else requests[0].offset == from && requests[0].len > 0 && Tiles(requests[1..], from + requests[0].len, to)
  }

  lemma {:induction false} TilesAppend(requests: seq<Request>, from: nat, to: nat, len: nat)
    requires Tiles(requests, from, to) && len > 0
    ensures Tiles(requests + [Request(to, len)], from, to + len)
  {
    var longer := requests + [Request(to, len)];
    if requests == [] {
      assert longer[1..] == [];
    } else {
      assert longer[1..] == requests[1..] + [Request(to, len)];
      TilesAppend(requests[1..], from + requests[0].len, to, len);
    }
  }

  lemma {:induction false} TilesOrdered(requests: seq<Request>, from: nat, to: nat)
    requires Tiles(requests, from, to)
    ensures from <= to
    ensures from == to ==> requests == []
  {
    if requests != [] {
      TilesOrdered(requests[1..], from + requests[0].len, to);
    }
  }

  /** `written` is exactly what the remote file holds from the base on. */
  ghost predicate CopiedSoFar(c: Config, remote: seq<byte>, s: State) {
    && |s.written| == s.transferred
    && (s.transferred > 0 ==>
          c.base + s.transferred <= |remote| && s.written == remote[c.base..c.base + s.transferred])
    && (c.total > 0 ==> s.transferred <= c.total)
  }

  ghost predicate Inv(c: Config, remote: seq<byte>, s: State) {
    && c.Valid()
    && CopiedSoFar(c, remote, s)
    && (s.phase.Top? || s.phase.Waiting? ==> Tiles(s.inflight, s.transferred, s.nextOffset))
    && (c.total > 0 ==> s.nextOffset <= c.total)
    && |s.inflight| <= c.depth
    && (forall i :: 0 <= i < |s.inflight| ==> WellSized(c, s.inflight[i]))
    && (forall i :: 0 <= i < |s.log| ==> WellSized(c, s.log[i]))
    && (s.phase.Waiting? ==> !CanIssue(c, s))
    && (s.phase.Opening? ==> s == Enter(c).(phase := Opening))
    && (s.phase.Finished? && s.phase.outcome.Ok? ==> s.phase.outcome.moved == s.transferred)
  }

  lemma IssueKeepsInv(c: Config, remote: seq<byte>, s: State)
    requires Inv(c, remote, s) && s.phase.Top? && CanIssue(c, s)
    ensures Inv(c, remote, Issue(c, s))
  {
    TilesAppend(s.inflight, s.transferred, s.nextOffset, RequestLen(c, s.nextOffset));
  }

  /** Refilling only issues: the cursor, the queue and the log grow, nothing else changes. */
  lemma {:induction false} FillFrame(c: Config, s: State)
    ensures Fill(c, s) == s.(inflight := Fill(c, s).inflight, nextOffset := Fill(c, s).nextOffset, log := Fill(c, s).log)
    ensures |Fill(c, s).log| - |Fill(c, s).inflight| == |s.log| - |s.inflight|
    decreases c.depth - |s.inflight|
  {
    if CanIssue(c, s) {
      FillFrame(c, Issue(c, s));
    }
  }

  lemma {:induction false} FillKeepsInv(c: Config, remote: seq<byte>, s: State)
    requires Inv(c, remote, s) && s.phase.Top?
    ensures Inv(c, remote, Fill(c, s))
    decreases c.depth - |s.inflight|
  {
    if CanIssue(c, s) {
      IssueKeepsInv(c, remote, s);
      FillKeepsInv(c, remote, Issue(c, s));
    }
  }

  lemma TakeKeepsInv(c: Config, remote: seq<byte>, s: State, reply: Reply, writeOk: bool)
    requires Inv(c, remote, s) && s.phase.Waiting? && s.inflight != []
    requires Legal(remote, c.base + s.inflight[0].offset, s.inflight[0].len, reply)
    ensures Inv(c, remote, Take(c, s, reply, writeOk))
  {
    var q := s.inflight[0];
    assert WellSized(c, q);
    if reply.Data? && reply.bytes != [] && writeOk {
      var t := s.transferred + |reply.bytes|;
      assert s.written + reply.bytes == remote[c.base..c.base + t];
    }
  }

  lemma ReceiveKeepsInv(c: Config, remote: seq<byte>, s: State, choice: Choice, writeOk: bool)
    requires Inv(c, remote, s) && s.phase.Waiting? && s.inflight != []
    ensures Inv(c, remote, Take(c, s, FrontReply(c, remote, s, choice), writeOk))
  {
    var q := s.inflight[0];
    assert WellSized(c, q);
    AnswersAreTheLegalReplies(remote, c.base + q.offset, q.len, FrontReply(c, remote, s, choice));
    TakeKeepsInv(c, remote, s, FrontReply(c, remote, s, choice), writeOk);
  }

  lemma StepKeepsInv(c: Config, remote: seq<byte>, s: State, e: Event)
    requires Inv(c, remote, s) && Enabled(s, e)
    ensures Inv(c, remote, Step(c, remote, s, e))
  {
    match e
    case Open(_) =>
    case CheckToken(cancelled) =>
      if !cancelled {
        FillFrame(c, s);
        FillKeepsInv(c, remote, s);
      }
    case Drained =>
    case CancelSeen =>
    case Close(_) =>
    case Receive(choice, writeOk) =>
      ReceiveKeepsInv(c, remote, s, choice, writeOk);
  }

  lemma {:induction false} RunKeepsInv(c: Config, remote: seq<byte>, start: State, events: seq<Event>)
    requires Inv(c, remote, start) && Run(c, remote, start, events).Some?
    ensures Inv(c, remote, Run(c, remote, start, events).value)
  {
    if events != [] {
      var n := |events| - 1;
      RunKeepsInv(c, remote, start, events[..n]);
      StepKeepsInv(c, remote, Run(c, remote, start, events[..n]).value, events[n]);
    }
  }

  // ---------- What a whole run guarantees ----------

  /** The READs that `n` refills of a whole pipeline take. */
  function Refills(depth: nat, n: nat): nat {
    if n == 0 then 0 else Refills(depth, n - 1) + depth
  }

  lemma {:induction false} RefillsIsProduct(depth: nat, n: nat)
    ensures Refills(depth, n) == depth * n
  {
    if n > 0 {
      RefillsIsProduct(depth, n - 1);
      assert depth * n == depth * (n - 1) + depth;
    }
  }

  /** READs issued against replies taken, requests in flight and requests dropped. */
  ghost predicate WithinBudget(c: Config, s: State) {
    |s.log| <= s.consumed + |s.inflight| + Refills(c.depth, s.shorts) + (if s.phase.Closing? || s.phase.Finished? then c.depth else 0)
  }

  lemma StepKeepsBudget(c: Config, remote: seq<byte>, s: State, e: Event)
    requires WithinBudget(c, s) && Enabled(s, e) && |s.inflight| <= c.depth
    ensures WithinBudget(c, Step(c, remote, s, e))
  {
    FillFrame(c, s);
  }

  lemma {:induction false} RunKeepsBudget(c: Config, remote: seq<byte>, events: seq<Event>)
    requires c.Valid() && Run(c, remote, Enter(c), events).Some?
    ensures WithinBudget(c, Run(c, remote, Enter(c), events).value)
  {
    if events != [] {
      var n := |events| - 1;
      RunKeepsBudget(c, remote, events[..n]);
      RunKeepsInv(c, remote, Enter(c), events[..n]);
      StepKeepsBudget(c, remote, Run(c, remote, Enter(c), events[..n]).value, events[n]);
    }
  }

  /** READs are bounded by the replies taken and one pipeline refill per resynchronisation. */
  lemma ReadsAreBounded(c: Config, remote: seq<byte>, events: seq<Event>)
    requires c.Valid() && Run(c, remote, Enter(c), events).Some?
    ensures var s := Run(c, remote, Enter(c), events).value;
            && |s.log| <= s.consumed + c.depth * (1 + s.shorts)
            && (forall q <- s.log :: WellSized(c, q))
  {
    RunKeepsInv(c, remote, Enter(c), events);
    RunKeepsBudget(c, remote, events);
    RefillsIsProduct(c.depth, 1 + Run(c, remote, Enter(c), events).value.shorts);
  }

  /** Whenever a stream waits for a reply its pipeline is full, or the whole segment has been asked for. */
  lemma WaitingMeansFull(c: Config, remote: seq<byte>, events: seq<Event>)
    requires c.Valid() && Run(c, remote, Enter(c), events).Some?
    ensures var s := Run(c, remote, Enter(c), events).value;
            s.phase.Waiting? ==> |s.inflight| == c.depth || (c.total > 0 && s.nextOffset == c.total)
  {
    RunKeepsInv(c, remote, Enter(c), events);
  }

  /** How many bytes a complete copy moves. */
  function Goal(c: Config, remote: seq<byte>): nat {
    var available := if c.base < |remote| then |remote| - c.base else 0;
    if c.total == 0 then available else Min(c.total, available)
  }

  function Rank(s: State): nat {
    2 * s.transferred + match s.phase
                        case Opening => 0
                        case Top => 1
                        case Waiting => 2
                        case Closing(_) => 3
                        case Finished(_) => 4
  }

  lemma StepRaisesRank(c: Config, remote: seq<byte>, s: State, e: Event)
    requires Inv(c, remote, s) && Enabled(s, e)
    ensures Rank(s) < Rank(Step(c, remote, s, e))
  {
    if e == CheckToken(false) {
      FillFrame(c, s);
    }
  }

  /** Whatever the server answers, known size or not, a run is over after boundedly many steps. */
  lemma {:induction false} RunsAreBounded(c: Config, remote: seq<byte>, start: State, events: seq<Event>)
    requires Inv(c, remote, start) && Run(c, remote, start, events).Some?
    ensures |events| <= Rank(Run(c, remote, start, events).value) <= 2 * Goal(c, remote) + 4
  {
    RunKeepsInv(c, remote, start, events);
    RankIsBounded(c, remote, Run(c, remote, start, events).value);
    if events != [] {
      var n := |events| - 1;
      RunsAreBounded(c, remote, start, events[..n]);
      RunKeepsInv(c, remote, start, events[..n]);
      StepRaisesRank(c, remote, Run(c, remote, start, events[..n]).value, events[n]);
    }
  }

  lemma RankIsBounded(c: Config, remote: seq<byte>, s: State)
    requires Inv(c, remote, s)
    ensures Rank(s) <= 2 * Goal(c, remote) + 4
  {
  }

  /** ... and until it is over some step other than a cancellation is possible, so no run gets stuck. */
  lemma NeverStuck(s: State)
    ensures s.phase.Finished? <==> forall e :: Enabled(s, e) ==> e.CancelSeen?
  {
    match s.phase
    case Opening => assert Enabled(s, Open(true));
    case Top => assert Enabled(s, CheckToken(false));
    case Waiting => assert Enabled(s, if s.inflight == [] then Drained else Receive(SayEof, true));
    case Closing(_) => assert Enabled(s, Close(true));
    case Finished(_) =>
  }

  /** Once a download is on its way out it issues no READ, whatever follows. */
  lemma {:induction false} NothingIsReadAfterLeaving(c: Config, remote: seq<byte>, start: State, before: seq<Event>, after: seq<Event>)
    requires Run(c, remote, start, before + after).Some?
    ensures Run(c, remote, start, before).Some?
    ensures var s := Run(c, remote, start, before).value;
            var s' := Run(c, remote, start, before + after).value;
            s.phase.Closing? || s.phase.Finished? ==>
              s'.log == s.log && s'.written == s.written && (s'.phase.Closing? || s'.phase.Finished?)
  {
    if after == [] {
      assert before + after == before;
    } else {
      var n := |after| - 1;
      assert (before + after)[..|before + after| - 1] == before + after[..n];
      NothingIsReadAfterLeaving(c, remote, start, before, after[..n]);
    }
  }

  /** Where a copy of at most `stop` ends. */
  function CopyEnd(remote: seq<byte>, stop: Option<nat>): nat {
    if stop.Some? then Min(stop.value, |remote|) else |remote|
  }

  /** Where the block that starts at `pos` ends. */
  function BlockEnd(remote: seq<byte>, pos: nat, stop: Option<nat>, block: nat): (next: nat)
    requires block > 0 && pos < |remote| && (stop.Some? ==> pos < stop.value)
    ensures pos < next <= CopyEnd(remote, stop) <= |remote|
  {
    Min(pos + if stop.Some? then Min(block, stop.value - pos) else block, |remote|)
  }

  /** The reference: one block at a time from `pos`, until end of file or the position `stop`. */
  function SequentialCopy(remote: seq<byte>, pos: nat, stop: Option<nat>, block: nat): seq<byte>
    requires block > 0
    decreases if pos < |remote| then |remote| - pos else 0
  {
    if |remote| <= pos || (stop.Some? && stop.value <= pos) then [] else
      var next := BlockEnd(remote, pos, stop, block);
      remote[pos..next] + SequentialCopy(remote, next, stop, block)
  }

  function Slice(remote: seq<byte>, from: nat, to: nat): seq<byte>
    requires to <= |remote|
  {
    if to <= from then [] else remote[from..to]
  }

  lemma {:induction false} SequentialCopyIsASlice(remote: seq<byte>, pos: nat, stop: Option<nat>, block: nat)
    requires block > 0
    ensures SequentialCopy(remote, pos, stop, block) == Slice(remote, pos, CopyEnd(remote, stop))
    decreases if pos < |remote| then |remote| - pos else 0
  {
    if pos < |remote| && (stop.None? || pos < stop.value) {
      var next := BlockEnd(remote, pos, stop, block);
      SequentialCopyIsASlice(remote, next, stop, block);
      Sliced(remote, pos, next, CopyEnd(remote, stop));
    }
  }

  lemma Sliced(remote: seq<byte>, a: nat, b: nat, c: nat)
    requires a < b <= c <= |remote|
    ensures Slice(remote, a, c) == remote[a..b] + Slice(remote, b, c)
  {
  }

  function PlainCopy(c: Config, remote: seq<byte>): seq<byte>
    requires c.Valid()
  {
    SequentialCopy(remote, c.base, if c.total == 0 then None else Some(c.base + c.total), c.readLen)
  }

  lemma PlainCopyReachesGoal(c: Config, remote: seq<byte>)
    requires c.Valid()
    ensures |PlainCopy(c, remote)| == Goal(c, remote)
    ensures Goal(c, remote) > 0 ==> PlainCopy(c, remote) == remote[c.base..c.base + Goal(c, remote)]
  {
    SequentialCopyIsASlice(remote, c.base, if c.total == 0 then None else Some(c.base + c.total), c.readLen);
  }

  ghost predicate HonestEvent(c: Config, remote: seq<byte>, s: State, e: Event)
    requires Enabled(s, e)
  {
    e.Receive? ==> Honest(remote, c.base + s.inflight[0].offset, e.choice)
  }

  ghost predicate HonestRun(c: Config, remote: seq<byte>, start: State, events: seq<Event>)
    requires Run(c, remote, start, events).Some?
  {
    events != [] ==>
      var n := |events| - 1;
      && HonestRun(c, remote, start, events[..n])
      && HonestEvent(c, remote, Run(c, remote, start, events[..n]).value, events[n])
  }

  /** Out of the loop without a cancellation or an error means everything was copied. */
  ghost predicate CompleteOnExit(c: Config, remote: seq<byte>, s: State) {
    s.phase == Closing(false) || (s.phase.Finished? && s.phase.outcome.Ok?) ==> s.transferred == Goal(c, remote)
  }

  lemma StepKeepsComplete(c: Config, remote: seq<byte>, s: State, e: Event)
    requires Inv(c, remote, s) && Enabled(s, e) && HonestEvent(c, remote, s, e)
    requires CompleteOnExit(c, remote, s)
    ensures CompleteOnExit(c, remote, Step(c, remote, s, e))
  {
    if s.phase.Waiting? {
      TilesOrdered(s.inflight, s.transferred, s.nextOffset);
    }
  }

  lemma {:induction false} RunKeepsComplete(c: Config, remote: seq<byte>, start: State, events: seq<Event>)
    requires Inv(c, remote, start) && Run(c, remote, start, events).Some? && HonestRun(c, remote, start, events)
    requires CompleteOnExit(c, remote, start)
    ensures CompleteOnExit(c, remote, Run(c, remote, start, events).value)
  {
    if events != [] {
      var n := |events| - 1;
      RunKeepsComplete(c, remote, start, events[..n]);
      RunKeepsInv(c, remote, start, events[..n]);
      StepKeepsComplete(c, remote, Run(c, remote, start, events[..n]).value, events[n]);
    }
  }

  /**
   * The pipelined run refines the plain copy. Against any server, at every
   * point, what has been written is a prefix of the plain copy; against an
   * honest one a successful run has written all of it.
   */
  lemma PipelineRefinesPlainCopy(c: Config, remote: seq<byte>, events: seq<Event>)
    requires c.Valid() && Run(c, remote, Enter(c), events).Some?
    ensures var s := Run(c, remote, Enter(c), events).value;
            && s.written <= PlainCopy(c, remote)
            && (HonestRun(c, remote, Enter(c), events) && s.phase.Finished? && s.phase.outcome.Ok? ==>
                  s.written == PlainCopy(c, remote) && s.phase.outcome.moved == |s.written|)
  {
    RunKeepsInv(c, remote, Enter(c), events);
    PlainCopyReachesGoal(c, remote);
    if HonestRun(c, remote, Enter(c), events) {
      RunKeepsComplete(c, remote, Enter(c), events);
    }
  }

  lemma RunAppend(c: Config, remote: seq<byte>, start: State, events: seq<Event>, e: Event)
    requires Run(c, remote, start, events).Some? && Enabled(Run(c, remote, start, events).value, e)
    ensures Run(c, remote, start, events + [e]) == Some(Step(c, remote, Run(c, remote, start, events).value, e))
    ensures HonestRun(c, remote, start, events) && HonestEvent(c, remote, Run(c, remote, start, events).value, e)
            ==> HonestRun(c, remote, start, events + [e])
  {
  }
}
