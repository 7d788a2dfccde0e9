/** The upload loop itself, over a reader, a reused block buffer and a queue of unacknowledged writes. */
module UploadLoop {
  import opened Bytes
  import opened Coordinator
  import opened UploadOutcomes
  import opened UploadStream
  import opened Wrappers

  // ---------- The local side ----------

  /** The stream's reader. It may return fewer bytes than asked for, but none only at its end. */
  class Reader {
    const src: seq<byte>
    var pos: nat

    constructor (src: seq<byte>)
      ensures this.src == src && pos == 0
    {
      this.src, pos := src, 0;
    }

    /** `wish` is how much the source feels like returning this time. */
    method Read(buf: array<byte>, from: nat, wish: nat) returns (n: nat)
      requires from < buf.Length && pos <= |src|
      modifies this`pos, buf
      ensures n == 0 <==> old(pos) == |src|
      ensures n <= buf.Length - from && pos == old(pos) + n <= |src|
      ensures buf[..from + n] == old(buf[..from]) + src[old(pos)..pos]
    {
      n := Min(if wish == 0 then 1 else wish, Min(buf.Length - from, |src| - pos));
      forall i | 0 <= i < n {
        buf[from + i] := src[pos + i];
      }
      pos := pos + n;
    }
  }

  /** Fills the buffer from the reader, whatever short reads it makes, or stops at its end. */
  method ReadFill(reader: Reader, buf: array<byte>, wishes: nat -> nat) returns (filled: nat)
    requires reader.pos <= |reader.src|
    modifies reader`pos, buf
    ensures filled == Min(buf.Length, |reader.src| - old(reader.pos))
    ensures reader.pos == old(reader.pos) + filled
    ensures buf[..filled] == reader.src[old(reader.pos)..reader.pos]
  {
    filled := 0;
    var turn := 0;
    while filled < buf.Length
      invariant filled <= buf.Length && reader.pos == old(reader.pos) + filled <= |reader.src|
      invariant buf[..filled] == reader.src[old(reader.pos)..reader.pos]
      decreases buf.Length - filled
    {
      ghost var start, before := old(reader.pos), reader.pos;
      var n := reader.Read(buf, filled, wishes(turn));
      assert reader.src[start..before] + reader.src[before..reader.pos] == reader.src[start..reader.pos];
      if n == 0 {
        break;
      }
      filled := filled + n;
      turn := turn + 1;
    }
  }

  // ---------- The server side ----------

  predicate Below(order: seq<nat>, n: nat) {
    forall i :: 0 <= i < |order| ==> order[i] < n
  }

  /** The remote file after applying the WRITEs named by `order`, one after the other. */
  function Replay(file: seq<byte>, base: nat, sent: seq<Write>, order: seq<nat>): seq<byte>
    requires Below(order, |sent|)
  {
    if order == [] then file else
      var j := order[|order| - 1];
      WriteAt(Replay(file, base, sent, order[..|order| - 1]), base + sent[j].offset, sent[j].data)
  }

  lemma {:induction false} ReplayIgnoresLaterWrites(file: seq<byte>, base: nat, sent: seq<Write>, w: Write, order: seq<nat>)
    requires Below(order, |sent|)
    ensures Replay(file, base, sent + [w], order) == Replay(file, base, sent, order)
  {
    if order != [] {
      ReplayIgnoresLaterWrites(file, base, sent, w, order[..|order| - 1]);
    }
  }

  class WriteServer {
    const base: nat
    ghost const original: seq<byte>
    var file: seq<byte>
    var sent: seq<Write>
    var order: seq<nat>

    ghost predicate Valid()
      reads this
    {
      && Below(order, |sent|)
      && file == Replay(original, base, sent, order)
    }

    constructor (file: seq<byte>, base: nat)
      ensures Valid() && sent == [] && order == [] && this.base == base && original == file
    {
      this.base, original, this.file, sent, order := base, file, file, [], [];
    }

    method Submit(w: Write)
      requires Valid()
      modifies this`sent
      ensures Valid() && sent == old(sent) + [w]
    {
      ReplayIgnoresLaterWrites(original, base, sent, w, order);
      sent := sent + [w];
    }

    /** Applies one received WRITE; a WRITE is applied at most once. */
    method Apply(j: nat)
      requires Valid() && j < |sent|
      modifies this`file, this`order
      ensures Valid() && Set(order) == Set(old(order)) + {j}
    {
      if j !in order {
        assert (order + [j])[..|order|] == order;
        file := WriteAt(file, base + sent[j].offset, sent[j].data);
        order := order + [j];
      }
    }

    /** The adversary applies whatever it likes of what it has received, in its own order. */
    method ApplySome(picks: seq<nat>)
      requires Valid()
      modifies this`file, this`order
      ensures Valid() && Set(order) == Set(old(order)) + Received(picks, |sent|)
    {
      for i := 0 to |picks|
        invariant Valid() && Set(order) == Set(old(order)) + Received(picks[..i], |sent|)
      {
        assert picks[..i + 1] == picks[..i] + [picks[i]];
        if picks[i] < |sent| {
          Apply(picks[i]);
        }
      }
      assert picks[..|picks|] == picks;
    }
  }

  function Set(order: seq<nat>): set<nat> {
    set j <- order
  }

  function Received(picks: seq<nat>, n: nat): set<nat> {
    set j <- picks | j < n
  }

  /** Every applied WRITE is intact in the file, because all of them carry the source's own bytes. */
  lemma {:induction false} AppliedWritesMatch(c: Config, local: seq<byte>, src: seq<byte>, s: State, file: seq<byte>, order: seq<nat>, j: nat)
    requires TakenFrom(src, local, c.base) && Inv(c, src, s)
    requires Below(order, |s.sent|) && j in order
    ensures Matches(Replay(file, c.base, s.sent, order), local, c.base + s.sent[j].offset, |s.sent[j].data|)
  {
    var n := |order| - 1;
    var i := order[n];
    var earlier := Replay(file, c.base, s.sent, order[..n]);
    WritesCarryLocalBytes(c, local, src, s, i);
    if j == i {
      assert Matches(earlier, local, c.base + s.sent[j].offset, 0);
      OwnBytesExtendMatch(earlier, local, c.base + s.sent[j].offset, 0, s.sent[j].data);
    } else {
      AppliedWritesMatch(c, local, src, s, file, order[..n], j);
      OwnBytesKeepMatches(earlier, local, c.base + s.sent[i].offset, s.sent[i].data, c.base + s.sent[j].offset, |s.sent[j].data|);
    }
  }

  lemma WritesCarryLocalBytes(c: Config, local: seq<byte>, src: seq<byte>, s: State, j: nat)
    requires TakenFrom(src, local, c.base) && Inv(c, src, s) && j < |s.sent|
    ensures TakenFrom(s.sent[j].data, local, c.base + s.sent[j].offset)
  {
    assert Placed(c, src, s.sent, s.nextOffset, j);
    TakenFromPart(s.sent[j].data, src, s.sent[j].offset, local, c.base);
  }

  /**
   * At every point of an upload, also after a cancellation or a failed write,
   * the acknowledged prefix is on the server, whatever order the writes were
   * applied in.
   */
  lemma {:induction false} AcknowledgedPrefixIsDurable(
    c: Config, local: seq<byte>, src: seq<byte>, s: State, file: seq<byte>, order: seq<nat>, k: nat)
    requires TakenFrom(src, local, c.base) && Inv(c, src, s)
    requires Set(order) == s.applied && Below(order, |s.sent|)
    requires k <= s.acked
    ensures Matches(Replay(file, c.base, s.sent, order), local, c.base, Position(s.sent, s.nextOffset, k))
  {
    if k > 0 {
      AcknowledgedPrefixIsDurable(c, local, src, s, file, order, k - 1);
      assert k - 1 in Set(order);
      AppliedWritesMatch(c, local, src, s, file, order, k - 1);
      assert Placed(c, src, s.sent, s.nextOffset, k - 1);
      MatchesJoin(Replay(file, c.base, s.sent, order), local, c.base, s.sent[k - 1].offset, |s.sent[k - 1].data|);
    }
  }

  lemma MatchesJoin(file: seq<byte>, source: seq<byte>, base: nat, n: nat, m: nat)
    requires Matches(file, source, base, n) && Matches(file, source, base + n, m)
    ensures Matches(file, source, base, n + m)
  {
  }

  // ---------- The loop ----------

  /** What the environment does around one await point; `picks` are the WRITEs the server applies meanwhile. */
  datatype Turn = Turn(cancel: bool, ok: bool, wishes: nat -> nat, picks: seq<nat>)

  /** What the server has applied when the await point resolves: an acknowledged WRITE always is. */
  function Settle(s: State, t: Turn): State {
    var acks := s.phase.Waiting? && s.InFlight() > 0 && !t.cancel && t.ok;
    s.(applied := s.applied + Received(t.picks, |s.sent|) + if acks then {s.acked} else {})
  }

  function Resolution(c: Config, s: State, t: Turn): (e: Event)
    requires !s.phase.Closing? && !s.phase.Finished?
    ensures s.acked <= |s.sent| ==> Enabled(c, Settle(s, t), e)
  {
    match s.phase
    case Top => CheckToken(t.cancel)
    case Filling => if s.InFlight() >= c.depth then Full else if t.cancel then CancelSeen else Issue(t.ok)
    case Waiting => if t.cancel then CancelSeen else if s.InFlight() <= 0 then Drained else Ack(t.ok)
  }

  predicate InLoop(s: State) {
    s.acked <= |s.sent| && !s.phase.Closing? && !s.phase.Finished?
  }

  function Tick(c: Config, src: seq<byte>, s: State, t: Turn): State
    requires InLoop(s)
  {
    Step(c, src, Settle(s, t), Resolution(c, s, t))
  }

  ghost predicate Linked(c: Config, src: seq<byte>, env: nat -> Turn, states: seq<State>, i: nat)
    requires i + 1 < |states|
  {
    InLoop(states[i]) && states[i + 1] == Tick(c, src, states[i], env(i))
  }

  /** The states at the successive await points of a loop that is at `s` now. */
  ghost predicate History(c: Config, src: seq<byte>, env: nat -> Turn, states: seq<State>, s: State) {
    && states != [] && states[0] == Enter() && states[|states| - 1] == s
    && forall i :: 0 <= i < |states| - 1 ==> Linked(c, src, env, states, i)
  }

  lemma HistoryGrows(c: Config, src: seq<byte>, env: nat -> Turn, states: seq<State>, s: State)
    requires History(c, src, env, states, s) && InLoop(s)
    ensures var s' := Tick(c, src, s, env(|states| - 1));
            History(c, src, env, states + [s'], s')
  {
    var longer := states + [Tick(c, src, s, env(|states| - 1))];
    forall i | 0 <= i < |longer| - 1
      ensures Linked(c, src, env, longer, i)
    {
      if i < |states| - 1 {
        assert Linked(c, src, env, states, i);
      }
    }
  }

  /** The events at the stream's own await points, without what the server does between them. */
  function AwaitPoints(events: seq<Event>): seq<Event> {
    if events == [] then [] else
      var n := |events| - 1;
      AwaitPoints(events[..n]) + if events[n].Land? then [] else [events[n]]
  }

  /** The event is what the environment dictates at that await point. */
  predicate Obeys(e: Event, t: Turn) {
    match e
    case CheckToken(cancelled) => cancelled == t.cancel
    case Issue(readOk) => !t.cancel && readOk == t.ok
    case Full => true
    case CancelSeen => t.cancel
    case Land(_) => false
    case Ack(ok) => !t.cancel && ok == t.ok
    case Drained => !t.cancel
    case Close => true
  }

  /** Await point `j` is dictated by the environment's turn `j`. */
  ghost predicate Scripted(env: nat -> Turn, events: seq<Event>) {
    forall j :: 0 <= j < |AwaitPoints(events)| ==> Obeys(AwaitPoints(events)[j], env(j))
  }

  lemma ScriptGrows(env: nat -> Turn, events: seq<Event>, e: Event)
    requires Scripted(env, events) && !e.Land? && Obeys(e, env(|AwaitPoints(events)|))
    ensures Scripted(env, events + [e]) && AwaitPoints(events + [e]) == AwaitPoints(events) + [e]
  {
  }

  /** The server may apply any set of received WRITEs, one after the other. */
  lemma {:induction false} ServerMayApply(c: Config, src: seq<byte>, events: seq<Event>, indices: set<nat>) returns (longer: seq<Event>)
    requires Run(c, src, events).Some? && forall j <- indices :: j < |Run(c, src, events).value.sent|
    ensures var s := Run(c, src, events).value;
            Run(c, src, longer) == Some(s.(applied := s.applied + indices))
    ensures AwaitPoints(longer) == AwaitPoints(events)
    decreases indices
  {
    longer := events;
    var s := Run(c, src, events).value;
    if indices <= s.applied {
      assert s.applied + indices == s.applied;
    } else {
      var j :| j in indices && j !in s.applied;
      RunAppend(c, src, events, Land(j));
      assert (events + [Land(j)])[..|events|] == events;
      longer := ServerMayApply(c, src, events + [Land(j)], indices - {j});
      assert s.applied + {j} + (indices - {j}) == s.applied + indices;
    }
  }

  /** A run up to one await point, extended by what the server does meanwhile and by the await point itself. */
  lemma TickExtendsRun(c: Config, src: seq<byte>, env: nat -> Turn, events: seq<Event>, s: State) returns (longer: seq<Event>)
    requires Run(c, src, events) == Some(s) && Inv(c, src, s) && InLoop(s) && Scripted(env, events)
    ensures Run(c, src, longer) == Some(Tick(c, src, s, env(|AwaitPoints(events)|)))
    ensures Scripted(env, longer) && |AwaitPoints(longer)| == |AwaitPoints(events)| + 1
  {
    var t := env(|AwaitPoints(events)|);
    longer := ServerMayApply(c, src, events, Settle(s, t).applied);
    assert s.applied + Settle(s, t).applied == Settle(s, t).applied;
    RunAppend(c, src, longer, Resolution(c, s, t));
    ScriptGrows(env, longer, Resolution(c, s, t));
    longer := longer + [Resolution(c, s, t)];
  }

  lemma HistoryBefore(c: Config, src: seq<byte>, env: nat -> Turn, states: seq<State>, s: State) returns (s0: State)
    requires History(c, src, env, states, s) && |states| > 1
    ensures History(c, src, env, states[..|states| - 1], s0) && InLoop(s0) && s == Tick(c, src, s0, env(|states| - 2))
  {
    var n := |states| - 2;
    var earlier := states[..n + 1];
    s0 := states[n];
    assert Linked(c, src, env, states, n);
    forall i | 0 <= i < n
      ensures Linked(c, src, env, earlier, i)
    {
      assert Linked(c, src, env, states, i);
    }
  }

  /** The await points of the loop are a run of the machine, each as its turn of the environment dictates. */
  lemma {:induction false} HistoryIsARun(c: Config, src: seq<byte>, env: nat -> Turn, states: seq<State>, s: State) returns (events: seq<Event>)
    requires c.Valid() && History(c, src, env, states, s)
    ensures Run(c, src, events) == Some(s) && Inv(c, src, s)
    ensures Scripted(env, events) && |AwaitPoints(events)| == |states| - 1
  {
    events := [];
    if |states| > 1 {
      var s0 := HistoryBefore(c, src, env, states, s);
      events := HistoryIsARun(c, src, env, states[..|states| - 1], s0);
      events := TickExtendsRun(c, src, env, events, s0);
    }
    RunKeepsInv(c, src, events);
  }

  /** A WRITE awaiting its acknowledgement: its index among the WRITEs sent, and its payload length. */
  datatype Pending = Pending(ticket: nat, len: nat)

  ghost predicate Queued(inflight: seq<Pending>, s: State) {
    && |inflight| == |s.sent| - s.acked
    && forall i :: 0 <= i < |inflight| ==> inflight[i] == Pending(s.acked + i, |s.sent[s.acked + i].data|)
  }

  ghost predicate Agrees(c: Config, src: seq<byte>, s: State, reader: Reader, server: WriteServer,
                         transferred: nat, nextOffset: nat, inflight: seq<Pending>)
    reads reader, server
  {
    && server.Valid() && server.base == c.base && reader.src == src
    && server.sent == s.sent && Set(server.order) == s.applied
    && transferred == s.transferred && nextOffset == s.nextOffset == reader.pos <= |src|
    && Queued(inflight, s)
  }

  /** Rounds of the loop left: see `Distance`, without the server's own steps. */
  function LoopDistance(src: seq<byte>, s: State): int {
    4 * (|src| - s.nextOffset) + 3 * s.InFlight()
    + if s.phase.Top? then 3 else if s.phase.Filling? then 2 else if s.phase.Waiting? then 1 else 0
  }

  lemma TickLowersDistance(c: Config, src: seq<byte>, s: State, t: Turn)
    requires InLoop(s) && s.nextOffset <= |src|
    ensures LoopDistance(src, Tick(c, src, s, t)) < LoopDistance(src, s)
  {
  }

  /** The loop has reached `s`, and is closer to its end than `before`. */
  ghost predicate At(c: Config, src: seq<byte>, env: nat -> Turn, states: seq<State>, s: State, before: int) {
    History(c, src, env, states, s) && 0 <= LoopDistance(src, s) < before
  }

  /** One await point on: where the loop now is, seen from the machine. */
  lemma Follow(c: Config, src: seq<byte>, env: nat -> Turn, states: seq<State>, s: State)
    requires c.Valid() && History(c, src, env, states, s) && InLoop(s)
    ensures var s' := Tick(c, src, s, env(|states| - 1));
            At(c, src, env, states + [s'], s', LoopDistance(src, s))
  {
    HistoryGrows(c, src, env, states, s);
    var s' := Tick(c, src, s, env(|states| - 1));
    var _ := HistoryIsARun(c, src, env, states, s);
    var _ := HistoryIsARun(c, src, env, states + [s'], s');
    TickLowersDistance(c, src, s, env(|states| - 1));
  }

  /** What the loop's variables say about the machine, inside the loop and on the way out. */
  ghost predicate InStep(c: Config, src: seq<byte>, s: State, reader: Reader, server: WriteServer,
                         phase: Phase, transferred: nat, nextOffset: nat, inflight: seq<Pending>)
    reads reader, server
  {
    && phase == s.phase && transferred == s.transferred
    && server.Valid() && server.base == c.base && server.sent == s.sent && Set(server.order) == s.applied
    && (InLoop(s) ==> Agrees(c, src, s, reader, server, transferred, nextOffset, inflight))
    && (InLoop(s) <==> !phase.Closing? && !phase.Finished?)
  }

  /** The check at the top of the loop. */
  method Check(c: Config, reader: Reader, server: WriteServer, env: nat -> Turn, turn: nat,
               transferred: nat, nextOffset: nat, inflight: seq<Pending>, ghost src: seq<byte>, ghost s: State, ghost states: seq<State>)
    returns (phase: Phase, ghost s': State)
    requires c.Valid() && s.phase.Top? && turn + 1 == |states| && History(c, src, env, states, s)
    requires InStep(c, src, s, reader, server, Top, transferred, nextOffset, inflight)
    modifies server`file, server`order
    ensures At(c, src, env, states + [s'], s', LoopDistance(src, s)) && (phase.Filling? || phase.Closing?)
    ensures InStep(c, src, s', reader, server, phase, transferred, nextOffset, inflight)
  {
    Follow(c, src, env, states, s);
    s' := Tick(c, src, s, env(turn));
    server.ApplySome(env(turn).picks);
    phase := if env(turn).cancel then Closing(true) else Filling;
  }

  /** A full pipeline stops filling. */
  method Park(c: Config, reader: Reader, server: WriteServer, env: nat -> Turn, turn: nat,
              transferred: nat, nextOffset: nat, inflight: seq<Pending>, ghost src: seq<byte>, ghost s: State, ghost states: seq<State>)
    returns (ghost s': State)
    requires c.Valid() && s.phase.Filling? && |inflight| >= c.depth && turn + 1 == |states| && History(c, src, env, states, s)
    requires InStep(c, src, s, reader, server, Filling, transferred, nextOffset, inflight)
    modifies server`file, server`order
    ensures At(c, src, env, states + [s'], s', LoopDistance(src, s))
    ensures InStep(c, src, s', reader, server, Waiting, transferred, nextOffset, inflight)
  {
    Follow(c, src, env, states, s);
    s' := Tick(c, src, s, env(turn));
    server.ApplySome(env(turn).picks);
  }

  /** One turn of the fill loop: stage a block and send it, unless cancelled, failing or at the end. */
  method FillOne(c: Config, reader: Reader, server: WriteServer, buf: array<byte>, env: nat -> Turn, turn: nat,
                 transferred: nat, cursor: nat, queue: seq<Pending>, ghost src: seq<byte>, ghost s: State, ghost states: seq<State>)
    returns (phase: Phase, nextOffset: nat, inflight: seq<Pending>, ghost s': State)
    requires c.Valid() && s.phase.Filling? && |queue| < c.depth && buf.Length == c.writeLen
    requires turn + 1 == |states| && History(c, src, env, states, s)
    requires InStep(c, src, s, reader, server, Filling, transferred, cursor, queue)
    modifies reader`pos, buf, server`file, server`sent, server`order
    ensures At(c, src, env, states + [s'], s', LoopDistance(src, s)) && !phase.Top?
    ensures InStep(c, src, s', reader, server, phase, transferred, nextOffset, inflight)
  {
    Follow(c, src, env, states, s);
    s' := Tick(c, src, s, env(turn));
    nextOffset, inflight := cursor, queue;
    server.ApplySome(env(turn).picks);
    if env(turn).cancel {
      return Closing(true), nextOffset, inflight, s';
    }
    if !env(turn).ok {
      return Finished(Err(StreamFailed(ReadLocal))), nextOffset, inflight, s';
    }
    var n := ReadFill(reader, buf, env(turn).wishes);
    assert buf[..n] == Block(c, src, cursor);
    if n == 0 {
      return Waiting, nextOffset, inflight, s';
    }
    inflight := inflight + [Pending(|server.sent|, n)];
    server.Submit(Write(nextOffset, buf[..n]));
    nextOffset := nextOffset + n;
    phase := Filling;
  }

  /** Parks until the oldest acknowledgement, a cancellation, or an already drained pipeline. */
  method AwaitAck(c: Config, reader: Reader, server: WriteServer, env: nat -> Turn, turn: nat,
                  moved: nat, nextOffset: nat, queue: seq<Pending>, ghost src: seq<byte>, ghost s: State, ghost states: seq<State>)
    returns (phase: Phase, transferred: nat, inflight: seq<Pending>, ghost s': State)
    requires c.Valid() && s.phase.Waiting? && turn + 1 == |states| && History(c, src, env, states, s)
    requires InStep(c, src, s, reader, server, Waiting, moved, nextOffset, queue)
    modifies server`file, server`order
    ensures At(c, src, env, states + [s'], s', LoopDistance(src, s)) && !phase.Filling? && !phase.Waiting?
    ensures InStep(c, src, s', reader, server, phase, transferred, nextOffset, inflight)
  {
    Follow(c, src, env, states, s);
    s' := Tick(c, src, s, env(turn));
    transferred, inflight := moved, queue;
    server.ApplySome(env(turn).picks);
    if env(turn).cancel {
      return Closing(true), transferred, inflight, s';
    }
    if inflight == [] {
      return Closing(false), transferred, inflight, s';
    }
    var oldest := inflight[0];
    inflight := inflight[1..];
    if !env(turn).ok {
      return Finished(Err(StreamFailed(WriteRemote))), transferred, inflight, s';
    }
    server.Apply(oldest.ticket);
    transferred := transferred + oldest.len;
    phase := Top;
  }

  /** Tops the pipeline up until it is full, the reader is at its end, or the stream leaves. */
  method FillPipeline(c: Config, reader: Reader, server: WriteServer, buffer: array<byte>, env: nat -> Turn, turn: nat,
                      transferred: nat, cursor: nat, queue: seq<Pending>, ghost src: seq<byte>, ghost start: State,
                      ghost before: seq<State>)
    returns (phase: Phase, nextOffset: nat, inflight: seq<Pending>, k: nat, ghost s: State, ghost states: seq<State>)
    requires c.Valid() && buffer.Length == c.writeLen && start.phase.Filling?
    requires turn + 1 == |before| && At(c, src, env, before, start, LoopDistance(src, start) + 1)
    requires InStep(c, src, start, reader, server, Filling, transferred, cursor, queue)
    modifies reader`pos, buffer, server`file, server`sent, server`order
    ensures k + 1 == |states| && At(c, src, env, states, s, LoopDistance(src, start) + 1) && !phase.Top? && !phase.Filling?
    ensures InStep(c, src, s, reader, server, phase, transferred, nextOffset, inflight)
  {
    phase, nextOffset, inflight, k, s, states := Filling, cursor, queue, turn, start, before;
    while phase.Filling? && |inflight| < c.depth
      invariant !phase.Top? && k + 1 == |states| && At(c, src, env, states, s, LoopDistance(src, start) + 1)
      invariant InStep(c, src, s, reader, server, phase, transferred, nextOffset, inflight)
      decreases LoopDistance(src, s)
    {
      phase, nextOffset, inflight, s := FillOne(c, reader, server, buffer, env, k, transferred, nextOffset, inflight, src, s, states);
      states, k := states + [s], k + 1;
    }
    if phase.Filling? {
      s := Park(c, reader, server, env, k, transferred, nextOffset, inflight, src, s, states);
      phase, states, k := Waiting, states + [s], k + 1;
    }
  }

  /** What the returned outcome says about the events. */
  ghost predicate Accounts(events: seq<Event>, outcome: Outcome) {
    && (outcome == Err(Cancelled) <==> CancelledIn(events) && Close in events)
    && (outcome.Ok? <==> !CancelledIn(events) && Close in events)
    && (forall cause :: outcome == Err(StreamFailed(cause)) <==> cause in Failures(events))
  }

  lemma EndsAccount(c: Config, src: seq<byte>, events: seq<Event>)
    requires c.Valid() && Run(c, src, events).Some? && Run(c, src, events).value.phase.Finished?
    ensures Accounts(events, Run(c, src, events).value.phase.outcome)
  {
    OutcomesComeFromEvents(c, src, events);
    RunKeepsInv(c, src, events);
  }

  /** Flushing is best effort, so leaving the loop only turns the phase into a result. */
  method Leave(c: Config, local: seq<byte>, env: nat -> Turn, server: WriteServer,
               phase: Phase, transferred: nat, ghost src: seq<byte>, ghost s: State, ghost states: seq<State>)
    returns (outcome: Outcome, ghost events: seq<Event>)
    requires c.Valid() && src == Source(c, local) && History(c, src, env, states, s)
    requires phase == s.phase && (phase.Closing? || phase.Finished?) && transferred == s.transferred
    requires server.Valid() && server.base == c.base && server.sent == s.sent && Set(server.order) == s.applied
    ensures var end := Run(c, src, events);
            && end.Some? && end.value.phase == Finished(outcome)
            && server.sent == end.value.sent && Set(server.order) == end.value.applied
            && Matches(server.file, local, c.base, end.value.transferred)
    ensures Scripted(env, events) && Accounts(events, outcome)
    ensures outcome.Ok? ==> outcome.moved == |src| && Matches(server.file, local, c.base, |src|)
  {
    events := HistoryIsARun(c, src, env, states, s);
    AcknowledgedPrefixIsDurable(c, local, src, s, server.original, server.order, s.acked);
    if phase.Finished? {
      EndsAccount(c, src, events);
      return phase.outcome, events;
    }
    RunAppend(c, src, events, Close);
    ScriptGrows(env, events, Close);
    events := events + [Close];
    EndsAccount(c, src, events);
    return if phase.cancelled then Err(Cancelled) else Ok(transferred), events;
  }

  /**
   * The whole transfer. It ends for every server, reader and cancellation
   * pattern, as a run of the machine whose every await point the environment
   * dictates. It returns the cancellation error exactly when it saw a
   * cancellation, a failure exactly when that failure happened. Whatever the
   * outcome, the acknowledged prefix is on the server; after a success that is
   * the reader's every byte.
   */
  method UploadViaRaw(c: Config, local: seq<byte>, env: nat -> Turn, reader: Reader, server: WriteServer)
    returns (outcome: Outcome, ghost events: seq<Event>)
    requires c.Valid() && reader.src == Source(c, local) && reader.pos == 0
    requires server.Valid() && server.base == c.base && server.sent == [] && server.order == []
    modifies reader`pos, server`file, server`sent, server`order
    ensures server.Valid()
    ensures var end := Run(c, reader.src, events);
            && end.Some? && end.value.phase == Finished(outcome)
            && server.sent == end.value.sent && Set(server.order) == end.value.applied
            && Matches(server.file, local, c.base, end.value.transferred)
    ensures Scripted(env, events) && Accounts(events, outcome)
    ensures outcome.Ok? ==> outcome.moved == |reader.src| && Matches(server.file, local, c.base, |reader.src|)
  {
    ghost var src := reader.src;
    var transferred: nat, nextOffset: nat := 0, 0;
    var inflight: seq<Pending> := [];
    var buffer := new byte[c.writeLen];
    var phase, k := Top, 0;
    ghost var s, states := Enter(), [Enter()];
    while phase.Top?
      invariant buffer.Length == c.writeLen && fresh(buffer)
      invariant k + 1 == |states| && At(c, src, env, states, s, LoopDistance(src, s) + 1) && !phase.Filling? && !phase.Waiting?
      invariant InStep(c, src, s, reader, server, phase, transferred, nextOffset, inflight)
      decreases LoopDistance(src, s)
    {
      phase, s := Check(c, reader, server, env, k, transferred, nextOffset, inflight, src, s, states);
      states, k := states + [s], k + 1;
      if phase.Filling? {
        phase, nextOffset, inflight, k, s, states :=
          FillPipeline(c, reader, server, buffer, env, k, transferred, nextOffset, inflight, src, s, states);
      }
      if phase.Waiting? {
        phase, transferred, inflight, s := AwaitAck(c, reader, server, env, k, transferred, nextOffset, inflight, src, s, states);
        states, k := states + [s], k + 1;
      }
    }
    outcome, events := Leave(c, local, env, server, phase, transferred, src, s, states);
  }
}
