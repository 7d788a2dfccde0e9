/**
 * The segmented upload driver: any number of stream machines, interleaved with
 * each other and with the server's own order of applying WRITEs, over one
 * remote file, one child token and one progress counter.
 */
module ParallelUpload {
  import opened Bytes
  import opened Coordinator
  import opened UploadStream
  import opened Segments
  import opened Wrappers
  import Window

  /** One parallel upload: `configs[i]` is what stream `i` runs with. */
  datatype Job = Job(local: seq<byte>, total: nat, configs: seq<Config>) {
    ghost predicate Valid() {
      configs != [] && forall i :: 0 <= i < |configs| ==> configs[i].Valid() && configs[i].base + configs[i].len <= total
    }

    function SourceOf(i: nat): (src: seq<byte>)
      requires i < |configs|
      ensures TakenFrom(src, local, configs[i].base) && |src| <= configs[i].len
    {
      Source(configs[i], local)
    }
  }

  /** The job the driver sets up: one range per stream, each with its negotiated WRITE size and depth. */
  function SplitJob(local: seq<byte>, total: nat, limits: seq<Window.Limit>): (job: Job)
    requires limits != []
    ensures job.Valid() && |job.configs| == |limits|
    ensures forall i :: 0 <= i < |limits| ==>
              && job.configs[i].base == SplitRange(total, |limits|, i).start
              && job.configs[i].len == SplitRange(total, |limits|, i).len
              && job.configs[i].writeLen == Window.NegotiatedWriteLen(limits[i])
              && job.configs[i].depth == Window.WritePipelineDepthFor(Window.NegotiatedWriteLen(limits[i]))
  {
    var job := Job(local, total, seq(|limits|, i requires 0 <= i < |limits| =>
      var range, writeLen := SplitRange(total, |limits|, i), Window.NegotiatedWriteLen(limits[i]);
      Config(writeLen, Window.WritePipelineDepthFor(writeLen), range.start, range.len)));
    assert job.Valid() by {
      forall i | 0 <= i < |limits| ensures job.configs[i].base + job.configs[i].len <= total {
        StartWithin(total, |limits|, i);
      }
    }
    job
  }

  /** `handles` holds the streams whose remote handle is open. */
  datatype World = World(handles: set<nat>, streams: seq<State>, file: seq<byte>, tokens: Tokens, progress: Progress)

  datatype Action =
    | OpenRemote(i: nat)
    | Act(i: nat, e: Event, timer: bool, due: bool)
    | CancelOuter

  function Start(job: Job, before: seq<byte>, cancelled: bool): World {
    World({}, seq(|job.configs|, _ => Enter()), before, StartTokens(|job.configs|, cancelled), StartProgress(|job.configs|))
  }

  predicate Shaped(job: Job, w: World) {
    |w.streams| == |w.tokens.results| == |w.progress.lastSeen| == |job.configs|
  }

  predicate AllOpen(job: Job, w: World) {
    forall i :: 0 <= i < |job.configs| ==> i in w.handles
  }

  /**
   * The probe stream opens first, the loops start when every handle is open,
   * and a stream sees the token exactly as it is when it looks.
   */
  predicate Possible(job: Job, w: World, a: Action)
    requires Shaped(job, w)
  {
    match a
    case OpenRemote(i) => i < |job.configs| && i !in w.handles && (i > 0 ==> 0 in w.handles)
    case CancelOuter => true
    case Act(i, e, _, _) =>
      && i < |job.configs| && AllOpen(job, w)
      && Enabled(job.configs[i], w.streams[i], e)
      && (e.CheckToken? ==> e.cancelled == w.tokens.Seen())
      && (e.CancelSeen? ==> w.tokens.Seen())
  }

  /** The position a step hands to the progress callback, if it calls it: on entry, on some acknowledgements, at the end. */
  function Reported(s: State, e: Event, s': State, timer: bool): Option<nat> {
    if e.Close? || (e.CheckToken? && s.acked == 0) || (e == Ack(true) && timer) then Some(s'.transferred) else None
  }

  /** The remote file after a step: only the server applying a WRITE changes it. */
  function Remote(base: nat, s: State, e: Event, file: seq<byte>): seq<byte> {
    if e.Land? && e.j < |s.sent| then WriteAt(file, base + s.sent[e.j].offset, s.sent[e.j].data) else file
  }

  function Apply(job: Job, w: World, a: Action): World
    requires Shaped(job, w) && Possible(job, w, a)
  {
    match a
    case CancelOuter => w.(tokens := w.tokens.(outer := true))
    case OpenRemote(i) => w.(handles := w.handles + {i}, file := if i == 0 then [] else w.file)
    case Act(i, e, timer, due) =>
      var s, c := w.streams[i], job.configs[i];
      var s' := Step(c, job.SourceOf(i), s, e);
      var report := Reported(s, e, s', timer);
      World(w.handles, w.streams[i := s'], Remote(c.base, s, e, w.file),
            if s'.phase.Finished? && !s.phase.Finished? then w.tokens.Settle(i, s'.phase.outcome, true) else w.tokens,
            if report.Some? then w.progress.Record(i, report.value, due) else w.progress)
  }

  function RunAll(job: Job, before: seq<byte>, cancelled: bool, actions: seq<Action>): Option<World> {
    if actions == [] then Some(Start(job, before, cancelled)) else
      var n := |actions| - 1;
      match RunAll(job, before, cancelled, actions[..n])
      case None => None
      case Some(w) => if Shaped(job, w) && Possible(job, w, actions[n]) then Some(Apply(job, w, actions[n])) else None
  }

  // ---------- What every reachable world satisfies ----------

  ghost predicate StreamsOk(job: Job, w: World)
    requires Shaped(job, w)
  {
    forall i :: 0 <= i < |job.configs| ==> Inv(job.configs[i], job.SourceOf(i), w.streams[i])
  }

  /** Every WRITE the server has applied for stream `i` is intact in the file. */
  ghost predicate Intact(job: Job, s: State, i: nat, file: seq<byte>)
    requires i < |job.configs|
  {
    forall j :: j in s.applied ==>
      j < |s.sent| && Matches(file, job.local, job.configs[i].base + s.sent[j].offset, |s.sent[j].data|)
  }

  /**
   * Until the probe stream's truncation nothing is sent; from then on the file
   * holds every applied WRITE and every acknowledged prefix, and nothing past
   * the total.
   */
  ghost predicate FileHolds(job: Job, streams: seq<State>, file: seq<byte>, truncated: bool)
    requires |streams| == |job.configs|
  {
    && (forall i :: 0 <= i < |streams| ==> Intact(job, streams[i], i, file))
    && (forall i :: 0 <= i < |streams| ==> Matches(file, job.local, job.configs[i].base, streams[i].transferred))
    && (truncated ==> |file| <= job.total)
    && (!truncated ==> forall i :: 0 <= i < |streams| ==> streams[i] == Enter())
  }

  ghost predicate FileOk(job: Job, w: World)
    requires Shaped(job, w)
  {
    && FileHolds(job, w.streams, w.file, 0 in w.handles)
    && (!AllOpen(job, w) ==> forall i :: 0 <= i < |w.streams| ==> w.streams[i] == Enter())
  }

  function ViewOf(s: State): View {
    View(s.transferred, if s.phase.Finished? then Some(s.phase.outcome) else None, s.phase == Closing(true))
  }

  function Views(streams: seq<State>): (views: seq<View>)
    ensures |views| == |streams|
    ensures forall i :: 0 <= i < |streams| ==> views[i] == ViewOf(streams[i])
  {
    seq(|streams|, i requires 0 <= i < |streams| => ViewOf(streams[i]))
  }

  ghost predicate TokensOk(job: Job, w: World)
    requires Shaped(job, w)
  {
    Settled(w.tokens, Views(w.streams))
  }

  ghost predicate ProgressOk(job: Job, w: World)
    requires Shaped(job, w)
  {
    Tracked(w.progress, Views(w.streams))
  }

  ghost predicate WorldInv(job: Job, w: World) {
    && Shaped(job, w)
    && StreamsOk(job, w)
    && FileOk(job, w)
    && TokensOk(job, w)
    && ProgressOk(job, w)
  }

  lemma StartIsOk(job: Job, before: seq<byte>, cancelled: bool)
    requires job.Valid()
    ensures WorldInv(job, Start(job, before, cancelled))
  {
    StartProgressValid(|job.configs|);
  }

  lemma ActKeepsStreams(job: Job, w: World, a: Action)
    requires Shaped(job, w) && StreamsOk(job, w) && a.Act? && Possible(job, w, a)
    ensures Shaped(job, Apply(job, w, a)) && StreamsOk(job, Apply(job, w, a))
  {
    StepKeepsInv(job.configs[a.i], job.SourceOf(a.i), w.streams[a.i], a.e);
  }

  lemma WritesCarryLocalBytes(job: Job, i: nat, s: State, j: nat)
    requires job.Valid() && i < |job.configs| && Inv(job.configs[i], job.SourceOf(i), s) && j < |s.sent|
    ensures TakenFrom(s.sent[j].data, job.local, job.configs[i].base + s.sent[j].offset)
    ensures job.configs[i].base + End(s.sent[j]) <= job.total
  {
    assert Placed(job.configs[i], job.SourceOf(i), s.sent, s.nextOffset, j);
    TakenFromPart(s.sent[j].data, job.SourceOf(i), s.sent[j].offset, job.local, job.configs[i].base);
  }

  /** The source's own bytes, landing anywhere, leave a stream's applied WRITEs intact. */
  lemma LandKeepsIntact(job: Job, s: State, m: nat, file: seq<byte>, off: nat, data: seq<byte>)
    requires m < |job.configs| && Intact(job, s, m, file) && TakenFrom(data, job.local, off)
    ensures Intact(job, s, m, WriteAt(file, off, data))
  {
    forall n | n in s.applied
      ensures n < |s.sent|
      ensures Matches(WriteAt(file, off, data), job.local, job.configs[m].base + s.sent[n].offset, |s.sent[n].data|)
    {
      OwnBytesKeepMatches(file, job.local, off, data, job.configs[m].base + s.sent[n].offset, |s.sent[n].data|);
    }
  }

  lemma LandedIsIntact(job: Job, s: State, i: nat, file: seq<byte>, j: nat)
    requires i < |job.configs| && Intact(job, s, i, file) && j < |s.sent|
    requires TakenFrom(s.sent[j].data, job.local, job.configs[i].base + s.sent[j].offset)
    ensures Intact(job, s.(applied := s.applied + {j}), i, WriteAt(file, job.configs[i].base + s.sent[j].offset, s.sent[j].data))
  {
    var off := job.configs[i].base + s.sent[j].offset;
    LandKeepsIntact(job, s, i, file, off, s.sent[j].data);
    OwnBytesExtendMatch(file, job.local, off, 0, s.sent[j].data);
  }

  /** The server applies WRITE `j` of stream `i`, in whatever state that stream is. */
  lemma LandKeepsFile(job: Job, streams: seq<State>, file: seq<byte>, i: nat, j: nat)
    requires job.Valid() && |streams| == |job.configs| && i < |streams| && j < |streams[i].sent|
    requires Inv(job.configs[i], job.SourceOf(i), streams[i]) && FileHolds(job, streams, file, true)
    ensures var s := streams[i];
            FileHolds(job, streams[i := s.(applied := s.applied + {j})],
                      WriteAt(file, job.configs[i].base + s.sent[j].offset, s.sent[j].data), true)
  {
    var s, w := streams[i], streams[i].sent[j];
    var off := job.configs[i].base + w.offset;
    WritesCarryLocalBytes(job, i, s, j);
    LandedIsIntact(job, s, i, file, j);
    forall m | 0 <= m < |streams|
      ensures Matches(WriteAt(file, off, w.data), job.local, job.configs[m].base, streams[m].transferred)
      ensures Intact(job, streams[m], m, WriteAt(file, off, w.data))
    {
      OwnBytesKeepMatches(file, job.local, off, w.data, job.configs[m].base, streams[m].transferred);
      LandKeepsIntact(job, streams[m], m, file, off, w.data);
    }
    OneMoreApplied(job, streams, WriteAt(file, off, w.data), i, j);
  }

  lemma OneMoreApplied(job: Job, streams: seq<State>, file: seq<byte>, i: nat, j: nat)
    requires |streams| == |job.configs| && i < |streams| && FileHolds(job, streams, file, true)
    requires Intact(job, streams[i].(applied := streams[i].applied + {j}), i, file)
    ensures FileHolds(job, streams[i := streams[i].(applied := streams[i].applied + {j})], file, true)
  {
  }

  /** An acknowledged WRITE is in the file and adjoins the acknowledged prefix. */
  lemma AckExtendsPrefix(job: Job, i: nat, s: State, file: seq<byte>)
    requires i < |job.configs| && Inv(job.configs[i], job.SourceOf(i), s) && s.acked < |s.sent| && s.acked in s.applied
    requires Intact(job, s, i, file) && Matches(file, job.local, job.configs[i].base, s.transferred)
    ensures Matches(file, job.local, job.configs[i].base, s.transferred + |s.sent[s.acked].data|)
  {
    assert Placed(job.configs[i], job.SourceOf(i), s.sent, s.nextOffset, s.acked);
  }

  /** Only the server applies; only an acknowledgement moves the acknowledged prefix. */
  lemma QuietStepFrame(c: Config, src: seq<byte>, s: State, e: Event)
    requires Enabled(c, s, e) && !e.Land?
    ensures var s' := Step(c, src, s, e);
            && s'.applied == s.applied && s.sent <= s'.sent
            && s'.transferred == s.transferred + if e == Ack(true) then |s.sent[s.acked].data| else 0
  {
  }

  /** The streams and the file once stream `i` has taken step `e`. */
  ghost predicate HoldsAfter(job: Job, streams: seq<State>, file: seq<byte>, i: nat, e: Event)
    requires |streams| == |job.configs| && i < |streams| && Enabled(job.configs[i], streams[i], e)
  {
    FileHolds(job, streams[i := Step(job.configs[i], job.SourceOf(i), streams[i], e)],
              Remote(job.configs[i].base, streams[i], e, file), true)
  }

  lemma QuietKeepsFile(job: Job, streams: seq<State>, file: seq<byte>, i: nat, e: Event)
    requires job.Valid() && |streams| == |job.configs| && i < |streams|
    requires Inv(job.configs[i], job.SourceOf(i), streams[i]) && FileHolds(job, streams, file, true)
    requires Enabled(job.configs[i], streams[i], e) && !e.Land?
    ensures FileHolds(job, streams[i := Step(job.configs[i], job.SourceOf(i), streams[i], e)], file, true)
  {
    QuietStepFrame(job.configs[i], job.SourceOf(i), streams[i], e);
    if e == Ack(true) {
      AckExtendsPrefix(job, i, streams[i], file);
    }
    QuietStepKeepsFile(job, streams, file, i, Step(job.configs[i], job.SourceOf(i), streams[i], e));
  }

  lemma QuietStepKeepsFile(job: Job, streams: seq<State>, file: seq<byte>, i: nat, s': State)
    requires |streams| == |job.configs| && i < |streams| && FileHolds(job, streams, file, true)
    requires s'.applied == streams[i].applied && streams[i].sent <= s'.sent
    requires Matches(file, job.local, job.configs[i].base, s'.transferred)
    ensures FileHolds(job, streams[i := s'], file, true)
  {
  }

  lemma StepKeepsFile(job: Job, streams: seq<State>, file: seq<byte>, i: nat, e: Event)
    requires job.Valid() && |streams| == |job.configs| && i < |streams|
    requires Inv(job.configs[i], job.SourceOf(i), streams[i]) && FileHolds(job, streams, file, true)
    requires Enabled(job.configs[i], streams[i], e)
    ensures HoldsAfter(job, streams, file, i, e)
  {
    if e.Land? {
      LandKeepsFile(job, streams, file, i, e.j);
      LandsAfter(job, streams, file, i, e);
    } else {
      QuietKeepsFile(job, streams, file, i, e);
      assert Remote(job.configs[i].base, streams[i], e, file) == file;
    }
  }

  lemma LandsAfter(job: Job, streams: seq<State>, file: seq<byte>, i: nat, e: Event)
    requires |streams| == |job.configs| && i < |streams| && e.Land? && Enabled(job.configs[i], streams[i], e)
    requires var s := streams[i];
             FileHolds(job, streams[i := s.(applied := s.applied + {e.j})],
                       WriteAt(file, job.configs[i].base + s.sent[e.j].offset, s.sent[e.j].data), true)
    ensures HoldsAfter(job, streams, file, i, e)
  {
    assert Step(job.configs[i], job.SourceOf(i), streams[i], e) == streams[i].(applied := streams[i].applied + {e.j});
  }

  lemma HoldsInNextWorld(job: Job, w: World, a: Action)
    requires Shaped(job, w) && a.Act? && Possible(job, w, a) && 0 in w.handles && HoldsAfter(job, w.streams, w.file, a.i, a.e)
    ensures Shaped(job, Apply(job, w, a)) && FileOk(job, Apply(job, w, a))
  {
  }

  lemma ActKeepsFile(job: Job, w: World, a: Action)
    requires job.Valid() && Shaped(job, w) && StreamsOk(job, w) && FileOk(job, w) && a.Act? && Possible(job, w, a)
    ensures Shaped(job, Apply(job, w, a)) && FileOk(job, Apply(job, w, a))
  {
    assert 0 in w.handles;
    StepKeepsFile(job, w.streams, w.file, a.i, a.e);
    HoldsInNextWorld(job, w, a);
  }

  /** Every way into "cancelled" passes through a look at the token. */
  lemma StepCancelsOnlyWhenSeen(c: Config, src: seq<byte>, s: State, e: Event)
    requires Enabled(c, s, e) && (s.phase.Finished? ==> e.Land?)
    ensures var s' := Step(c, src, s, e);
            s'.phase == Closing(true) || (s'.phase == Finished(Err(Cancelled)) && !s.phase.Finished?) ==>
              e == CheckToken(true) || e == CancelSeen || s.phase == Closing(true)
  {
  }

  lemma ActKeepsTokens(job: Job, w: World, a: Action)
    requires Shaped(job, w) && TokensOk(job, w) && a.Act? && Possible(job, w, a)
    ensures Shaped(job, Apply(job, w, a)) && TokensOk(job, Apply(job, w, a))
  {
    var s, s' := w.streams[a.i], Step(job.configs[a.i], job.SourceOf(a.i), w.streams[a.i], a.e);
    if s.phase.Finished? {
      assert ViewOf(s') == ViewOf(s);
      assert Views(w.streams[a.i := s']) == Views(w.streams);
    } else {
      StepCancelsOnlyWhenSeen(job.configs[a.i], job.SourceOf(a.i), s, a.e);
      StepKeepsSettled(w.tokens, Views(w.streams), a.i, ViewOf(s'), true);
      assert Views(w.streams)[a.i := ViewOf(s')] == Views(w.streams[a.i := s']);
    }
  }

  lemma ActKeepsProgress(job: Job, w: World, a: Action)
    requires Shaped(job, w) && ProgressOk(job, w) && a.Act? && Possible(job, w, a)
    ensures Shaped(job, Apply(job, w, a)) && ProgressOk(job, Apply(job, w, a))
  {
    var s, s' := w.streams[a.i], Step(job.configs[a.i], job.SourceOf(a.i), w.streams[a.i], a.e);
    if s.phase.Finished? {
      assert ViewOf(s') == ViewOf(s);
      assert Views(w.streams[a.i := s']) == Views(w.streams);
    } else {
      StepKeepsTracked(w.progress, Views(w.streams), a.i, ViewOf(s'), Reported(s, a.e, s', a.timer), a.due);
      assert Views(w.streams)[a.i := ViewOf(s')] == Views(w.streams[a.i := s']);
    }
  }

  /**
   * Over every run: before any other handle opens and before any stream takes a
   * step, the probe stream has opened, which truncates the file; and it opens,
   * and truncates, only once.
   */
  lemma {:induction false} TruncationComesFirst(job: Job, before: seq<byte>, cancelled: bool, actions: seq<Action>, k: nat)
    requires job.Valid() && RunAll(job, before, cancelled, actions).Some? && k < |actions|
    ensures (actions[k].OpenRemote? && actions[k].i > 0) || actions[k].Act? ==> exists j :: 0 <= j < k && actions[j] == OpenRemote(0)
    ensures forall j :: 0 <= j < |actions| && actions[j] == OpenRemote(0) && actions[k] == OpenRemote(0) ==> j == k
    ensures var w := RunAll(job, before, cancelled, actions[..k + 1]);
            w.Some? && (actions[k] == OpenRemote(0) ==> w.value.file == [])
  {
    forall m | 0 <= m < |actions|
      ensures Opened(actions[..m], 0) <==> exists j :: 0 <= j < m && actions[j] == OpenRemote(0)
      ensures (actions[m].OpenRemote? && actions[m].i > 0) || actions[m].Act? ==> Opened(actions[..m], 0)
      ensures actions[m] == OpenRemote(0) ==> !Opened(actions[..m], 0)
    {
      StepWasPossible(job, before, cancelled, actions, m);
    }
    StepWasPossible(job, before, cancelled, actions, k);
  }

  predicate Opened(actions: seq<Action>, i: nat) {
    OpenRemote(i) in actions
  }

  lemma {:induction false} HandlesWereOpened(job: Job, before: seq<byte>, cancelled: bool, actions: seq<Action>, i: nat)
    requires RunAll(job, before, cancelled, actions).Some?
    ensures i in RunAll(job, before, cancelled, actions).value.handles <==> Opened(actions, i)
  {
    if actions != [] {
      var n := |actions| - 1;
      HandlesWereOpened(job, before, cancelled, actions[..n], i);
      assert actions == actions[..n] + [actions[n]];
    }
  }

  lemma {:induction false} StepWasPossible(job: Job, before: seq<byte>, cancelled: bool, actions: seq<Action>, m: nat)
    requires job.Valid() && RunAll(job, before, cancelled, actions).Some? && m < |actions|
    ensures (actions[m].OpenRemote? && actions[m].i > 0) || actions[m].Act? ==> Opened(actions[..m], 0)
    ensures actions[m] == OpenRemote(0) ==> !Opened(actions[..m], 0)
    ensures var w := RunAll(job, before, cancelled, actions[..m + 1]);
            w.Some? && (actions[m] == OpenRemote(0) ==> w.value.file == [])
  {
    var n := |actions| - 1;
    if m == n {
      assert actions[..m + 1] == actions;
      HandlesWereOpened(job, before, cancelled, actions[..n], 0);
    } else {
      assert actions[..n][..m] == actions[..m] && actions[..n][..m + 1] == actions[..m + 1] && actions[..n][m] == actions[m];
      StepWasPossible(job, before, cancelled, actions[..n], m);
    }
  }

  /** Opening never disturbs what was written: the truncation comes before any loop starts. */
  lemma OpenKeepsInv(job: Job, w: World, a: Action)
    requires job.Valid() && WorldInv(job, w) && a.OpenRemote? && Possible(job, w, a)
    ensures WorldInv(job, Apply(job, w, a))
  {
  }

  lemma ApplyKeepsInv(job: Job, w: World, a: Action)
    requires job.Valid() && WorldInv(job, w) && Possible(job, w, a)
    ensures WorldInv(job, Apply(job, w, a))
  {
    match a
    case Act(_, _, _, _) =>
      ActKeepsStreams(job, w, a);
      ActKeepsFile(job, w, a);
      ActKeepsTokens(job, w, a);
      ActKeepsProgress(job, w, a);
    case OpenRemote(_) =>
      OpenKeepsInv(job, w, a);
    case CancelOuter =>
  }

  lemma {:induction false} EveryWorldIsOk(job: Job, before: seq<byte>, cancelled: bool, actions: seq<Action>)
    requires job.Valid() && RunAll(job, before, cancelled, actions).Some?
    ensures WorldInv(job, RunAll(job, before, cancelled, actions).value)
  {
    if actions == [] {
      StartIsOk(job, before, cancelled);
    } else {
      var n := |actions| - 1;
      EveryWorldIsOk(job, before, cancelled, actions[..n]);
      ApplyKeepsInv(job, RunAll(job, before, cancelled, actions[..n]).value, actions[n]);
    }
  }
}
