/** The download loop itself, over local cursors and an in-flight queue, proved to take exactly the machine's steps. */
module DownloadLoop {
  import opened Bytes
  import opened Coordinator
  import opened DownloadOutcomes
  import opened DownloadStream
  import opened Wrappers

  /** A local file opened for writing, with its own cursor. */
  class FileWriter {
    var file: seq<byte>
    var cursor: nat

    constructor (file: seq<byte>, cursor: nat)
      ensures this.file == file && this.cursor == cursor
    {
      this.file, this.cursor := file, cursor;
    }

    method WriteAll(bytes: seq<byte>)
      modifies this
      ensures file == WriteAt(old(file), old(cursor), bytes)
      ensures cursor == old(cursor) + |bytes|
    {
      file := WriteAt(file, cursor, bytes);
      cursor := cursor + |bytes|;
    }
  }

  /** What the environment does around one reply. */
  datatype Turn = Turn(cancelAtTop: bool, cancelWins: bool, choice: Choice, writeOk: bool)

  predicate HonestTurn(turn: Turn) {
    turn.choice.Refuse? || (turn.choice.Prefix? && turn.choice.n > 0)
  }

  ghost predicate AlwaysHonest(env: nat -> Turn) {
    forall k :: HonestTurn(env(k))
  }

  /** Bytes the remote file can still deliver past the write cursor. */
  function Remaining(c: Config, remote: seq<byte>, transferred: nat): nat {
    if c.base + transferred < |remote| then |remote| - c.base - transferred else 0
  }

  /** Tops the pipeline back up from the issue cursor. */
  method TopUp(c: Config, queue: seq<Request>, cursor: nat, ghost s: State)
    returns (inflight: seq<Request>, nextOffset: nat)
    requires queue == s.inflight && cursor == s.nextOffset
    ensures inflight == Fill(c, s).inflight && nextOffset == Fill(c, s).nextOffset
  {
    inflight, nextOffset := queue, cursor;
    ghost var now := s;
    while |inflight| < c.depth && (c.total == 0 || nextOffset < c.total)
      invariant Fill(c, s) == Fill(c, now)
      invariant inflight == now.inflight && nextOffset == now.nextOffset
      decreases c.depth - |inflight|
    {
      var requestLen := RequestLen(c, nextOffset);
      inflight := inflight + [Request(nextOffset, requestLen)];
      nextOffset := nextOffset + requestLen;
      now := Issue(c, now);
    }
  }

  /** One pass of the loop as machine steps. */
  function Pass(c: Config, remote: seq<byte>, s: State, turn: Turn): State
    requires s.phase.Top?
  {
    if turn.cancelAtTop then Step(c, remote, s, CheckToken(true)) else
      Select(c, remote, Step(c, remote, s, CheckToken(false)), turn)
  }

  /** The parked half of a pass: a cancellation, the next reply, or a drained pipeline. */
  function Select(c: Config, remote: seq<byte>, s: State, turn: Turn): State
    requires s.phase.Waiting?
  {
    Step(c, remote, s, SelectedEvent(s, turn))
  }

  function SelectedEvent(s: State, turn: Turn): (e: Event)
    requires s.phase.Waiting?
    ensures Enabled(s, e)
  {
    if turn.cancelWins then CancelSeen
    else if s.inflight == [] then Drained
    else Receive(turn.choice, turn.writeOk)
  }

  /** The event is what the environment dictates in that pass. */
  predicate Obeys(e: Event, turn: Turn, flushOk: bool) {
    match e
    case Open(_) => false
    case CheckToken(cancelled) => cancelled == turn.cancelAtTop
    case CancelSeen => turn.cancelWins
    case Drained => !turn.cancelWins
    case Receive(choice, writeOk) => !turn.cancelWins && choice == turn.choice && writeOk == turn.writeOk
    case Close(ok) => ok == flushOk
  }

  /** Every event is dictated by the environment: pass `k` has the events 2k and 2k + 1. */
  ghost predicate Scripted(env: nat -> Turn, flushOk: bool, events: seq<Event>) {
    forall j :: 0 <= j < |events| ==> Obeys(events[j], env(j / 2), flushOk)
  }

  lemma ScriptGrows(env: nat -> Turn, flushOk: bool, events: seq<Event>, e: Event, k: nat)
    requires Scripted(env, flushOk, events) && |events| / 2 == k && Obeys(e, env(k), flushOk)
    ensures Scripted(env, flushOk, events + [e])
  {
  }

  /** A run that ended at the top of the loop, extended by one pass. */
  lemma PassExtendsRun(c: Config, remote: seq<byte>, env: nat -> Turn, flushOk: bool, events: seq<Event>, s: State, k: nat)
    returns (more: seq<Event>)
    requires Run(c, remote, Enter(c), events) == Some(s) && s.phase.Top?
    requires |events| == 2 * k && Scripted(env, flushOk, events)
    ensures Run(c, remote, Enter(c), more) == Some(Pass(c, remote, s, env(k)))
    ensures HonestRun(c, remote, Enter(c), events) && HonestTurn(env(k)) ==> HonestRun(c, remote, Enter(c), more)
    ensures Scripted(env, flushOk, more) && |more| == 2 * k + if env(k).cancelAtTop then 1 else 2
  {
    var top := CheckToken(env(k).cancelAtTop);
    RunAppend(c, remote, Enter(c), events, top);
    ScriptGrows(env, flushOk, events, top, k);
    more := events + [top];
    if !env(k).cancelAtTop {
      var parked := Step(c, remote, s, top);
      var e := SelectedEvent(parked, env(k));
      RunAppend(c, remote, Enter(c), more, e);
      ScriptGrows(env, flushOk, more, e, k);
      more := more + [e];
    }
  }

  /** A pass that stays in the loop has stored at least one more byte of the file. */
  lemma PassMakesProgress(c: Config, remote: seq<byte>, s: State, turn: Turn)
    requires Inv(c, remote, s) && s.phase.Top? && Pass(c, remote, s, turn).phase.Top?
    ensures Remaining(c, remote, Pass(c, remote, s, turn).transferred) < Remaining(c, remote, s.transferred)
  {
    var parked := Step(c, remote, s, CheckToken(false));
    FillFrame(c, s);
    StepKeepsInv(c, remote, s, CheckToken(false));
    StepKeepsInv(c, remote, parked, SelectedEvent(parked, turn));
  }

  /** The loop has come to `s` through the events that the environment dictates. */
  ghost predicate Reached(c: Config, remote: seq<byte>, env: nat -> Turn, flushOk: bool, events: seq<Event>, s: State) {
    && Run(c, remote, Enter(c), events) == Some(s) && Inv(c, remote, s)
    && Scripted(env, flushOk, events)
    && (AlwaysHonest(env) ==> HonestRun(c, remote, Enter(c), events))
  }

  /** One pass further, and, in the loop, nearer to the end of the file. */
  lemma PassReaches(c: Config, remote: seq<byte>, env: nat -> Turn, flushOk: bool, events: seq<Event>, s: State, k: nat)
    returns (more: seq<Event>)
    requires Reached(c, remote, env, flushOk, events, s) && s.phase.Top? && |events| == 2 * k
    ensures var s' := Pass(c, remote, s, env(k));
            && Reached(c, remote, env, flushOk, more, s')
            && (s'.phase.Top? ==> |more| == 2 * (k + 1) && Remaining(c, remote, s'.transferred) < Remaining(c, remote, s.transferred))
            && (s'.phase.Top? || s'.phase.Closing? || s'.phase.Finished?)
  {
    more := PassExtendsRun(c, remote, env, flushOk, events, s, k);
    RunKeepsInv(c, remote, Enter(c), more);
    if Pass(c, remote, s, env(k)).phase.Top? {
      PassMakesProgress(c, remote, s, env(k));
    }
  }

  /** Takes the reply to the oldest request: store it, stop, or fail. */
  method HandleReply(c: Config, reply: Reply, writeOk: bool, written: nat, cursor: nat, queue: seq<Request>,
                     writer: FileWriter, ghost s: State, ghost original: seq<byte>)
    returns (phase: Phase, transferred: nat, nextOffset: nat, inflight: seq<Request>)
    requires s.phase == Waiting && s.inflight == queue != []
    requires written == s.transferred == |s.written| && cursor == s.nextOffset
    requires writer.file == WriteAt(original, c.base, s.written) && writer.cursor == c.base + written
    modifies writer
    ensures var s' := Take(c, s, reply, writeOk);
            && phase == s'.phase && transferred == s'.transferred == |s'.written|
            && writer.file == WriteAt(original, c.base, s'.written) && writer.cursor == c.base + transferred
            && (phase.Top? ==> nextOffset == s'.nextOffset && inflight == s'.inflight)
  {
    transferred, nextOffset, inflight := written, cursor, queue[1..];
    match reply {
      case Refused =>
        return Finished(Err(StreamFailed(ReadRemote))), transferred, nextOffset, inflight;
      case Eof =>
        return Closing(false), transferred, nextOffset, inflight;
      case Data(bytes) =>
        if bytes == [] {
          return Closing(false), transferred, nextOffset, inflight;
        }
        if !writeOk {
          return Finished(Err(StreamFailed(WriteLocal))), transferred, nextOffset, inflight;
        }
        WriteAtAdjacent(original, c.base, s.written, bytes);
        writer.WriteAll(bytes);
        transferred := transferred + |bytes|;
        if AsU32(|bytes|) < c.readLen {
          inflight := [];
          nextOffset := transferred;
        }
        phase := Top;
    }
  }

  /** One pass of the loop body: check, refill, wait, and take the reply to the oldest request. */
  method RunPass(c: Config, remote: seq<byte>, turn: Turn, moved: nat, cursor: nat, queue: seq<Request>,
                 writer: FileWriter, ghost s: State, ghost original: seq<byte>)
    returns (phase: Phase, transferred: nat, nextOffset: nat, inflight: seq<Request>)
    requires s.phase.Top? && moved == s.transferred == |s.written| && cursor == s.nextOffset && queue == s.inflight
    requires writer.file == WriteAt(original, c.base, s.written) && writer.cursor == c.base + moved
    modifies writer
    ensures var s' := Pass(c, remote, s, turn);
            && phase == s'.phase && transferred == s'.transferred == |s'.written|
            && writer.file == WriteAt(original, c.base, s'.written) && writer.cursor == c.base + transferred
            && (phase.Top? ==> nextOffset == s'.nextOffset && inflight == s'.inflight)
  {
    transferred, nextOffset, inflight := moved, cursor, queue;
    if turn.cancelAtTop {
      return Closing(true), transferred, nextOffset, inflight;
    }
    FillFrame(c, s);
    inflight, nextOffset := TopUp(c, inflight, nextOffset, s);
    ghost var parked := Step(c, remote, s, CheckToken(false));
    if turn.cancelWins {
      return Closing(true), transferred, nextOffset, inflight;
    }
    if inflight == [] {
      return Closing(false), transferred, nextOffset, inflight;
    }
    var reply := Answer(remote, c.base + inflight[0].offset, inflight[0].len, turn.choice);
    phase, transferred, nextOffset, inflight :=
      HandleReply(c, reply, turn.writeOk, transferred, nextOffset, inflight, writer, parked, original);
  }

  lemma CloseEndsRun(c: Config, remote: seq<byte>, events: seq<Event>, s: State, flushOk: bool)
    requires c.Valid() && Run(c, remote, Enter(c), events) == Some(s) && s.phase.Closing?
    ensures var end := Step(c, remote, s, Close(flushOk));
            && Run(c, remote, Enter(c), events + [Close(flushOk)]) == Some(end) && end.written == s.written
            && (HonestRun(c, remote, Enter(c), events) && end.phase.outcome.Ok? ==>
                  s.written == PlainCopy(c, remote) && end.phase.outcome.moved == |s.written|)
  {
    RunAppend(c, remote, Enter(c), events, Close(flushOk));
    PipelineRefinesPlainCopy(c, remote, events + [Close(flushOk)]);
  }

  /** What the returned outcome says about the events. */
  ghost predicate Accounts(c: Config, remote: seq<byte>, events: seq<Event>, outcome: Outcome) {
    && (outcome == Err(Cancelled) <==> CancelledIn(events) && Close(true) in events)
    && (outcome.Ok? <==> !CancelledIn(events) && Close(true) in events)
    && (forall cause :: outcome == Err(StreamFailed(cause)) <==> FailedBy(c, remote, Enter(c), events, cause))
  }

  lemma EndsAccount(c: Config, remote: seq<byte>, events: seq<Event>, s: State)
    requires c.Valid() && Run(c, remote, Enter(c), events) == Some(s) && s.phase.Finished?
    ensures Accounts(c, remote, events, s.phase.outcome)
  {
    OutcomesComeFromEvents(c, remote, Enter(c), events);
    RunKeepsInv(c, remote, Enter(c), events);
    forall cause
      ensures s.phase.outcome == Err(StreamFailed(cause)) <==> FailedBy(c, remote, Enter(c), events, cause)
    {
      assert cause in Failures(c, remote, Enter(c), events) <==> FailedBy(c, remote, Enter(c), events, cause);
    }
  }

  /** Behind the loop: flush, also after a cancellation, then report it or the byte count. */
  method Leave(c: Config, remote: seq<byte>, env: nat -> Turn, flushOk: bool, phase: Phase, transferred: nat,
               ghost s: State, ghost before: seq<Event>)
    returns (outcome: Outcome, ghost events: seq<Event>)
    requires c.Valid() && Reached(c, remote, env, flushOk, before, s)
    requires phase == s.phase && (phase.Closing? || phase.Finished?) && transferred == s.transferred
    ensures var end := Run(c, remote, Enter(c), events);
            end.Some? && end.value.phase == Finished(outcome) && end.value.written == s.written
    ensures Scripted(env, flushOk, events) && Accounts(c, remote, events, outcome)
    ensures AlwaysHonest(env) && outcome.Ok? ==> s.written == PlainCopy(c, remote) && outcome.moved == |PlainCopy(c, remote)|
  {
    if phase.Finished? {
      EndsAccount(c, remote, before, s);
      PipelineRefinesPlainCopy(c, remote, before);
      return phase.outcome, before;
    }
    CloseEndsRun(c, remote, before, s, flushOk);
    ScriptGrows(env, flushOk, before, Close(flushOk), |before| / 2);
    events := before + [Close(flushOk)];
    EndsAccount(c, remote, events, Step(c, remote, s, Close(flushOk)));
    if !flushOk {
      return Err(StreamFailed(FlushLocal)), events;
    }
    if phase.cancelled {
      return Err(Cancelled), events;
    }
    return Ok(transferred), events;
  }

  /**
   * The whole transfer. It ends for every server and every cancellation
   * pattern, as a run of the machine whose every event the environment
   * dictates. It returns the cancellation error exactly when it saw a
   * cancellation and could flush, a failure exactly when that failure happened;
   * with an honest server a success means the writer received the plain copy,
   * at its position and nowhere else.
   */
  method DownloadViaRaw(c: Config, remote: seq<byte>, env: nat -> Turn, flushOk: bool, writer: FileWriter)
    returns (outcome: Outcome, ghost events: seq<Event>)
    requires c.Valid() && writer.cursor == c.base
    modifies writer
    ensures var end := Run(c, remote, Enter(c), events);
            && end.Some? && end.value.phase == Finished(outcome)
            && writer.file == WriteAt(old(writer.file), c.base, end.value.written)
    ensures Scripted(env, flushOk, events)
    ensures Accounts(c, remote, events, outcome)
    ensures AlwaysHonest(env) && outcome.Ok? ==>
              && writer.file == WriteAt(old(writer.file), c.base, PlainCopy(c, remote))
              && outcome.moved == |PlainCopy(c, remote)|
  {
    var transferred: nat, nextOffset: nat := 0, 0;
    var inflight: seq<Request> := [];
    var phase := Top;
    var k := 0;
    ghost var s := Enter(c);
    events := [];
    while phase.Top?
      invariant Reached(c, remote, env, flushOk, events, s) && (phase.Top? ==> |events| == 2 * k)
      invariant phase == s.phase && transferred == s.transferred == |s.written|
      invariant phase.Top? ==> nextOffset == s.nextOffset && inflight == s.inflight
      invariant writer.file == WriteAt(old(writer.file), c.base, s.written) && writer.cursor == c.base + transferred
      invariant phase.Top? || phase.Closing? || phase.Finished?
      decreases phase.Top?, Remaining(c, remote, transferred)
    {
      ghost var before := s;
      events := PassReaches(c, remote, env, flushOk, events, before, k);
      s := Pass(c, remote, before, env(k));
      phase, transferred, nextOffset, inflight :=
        RunPass(c, remote, env(k), transferred, nextOffset, inflight, writer, before, old(writer.file));
      k := k + 1;
    }
    outcome, events := Leave(c, remote, env, flushOk, phase, transferred, s, events);
  }
}
