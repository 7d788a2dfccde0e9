/**
 * The segmented download driver: any number of stream machines, interleaved in
 * any order, over one local file, one child token and one progress counter.
 */
module ParallelDownload {
  import opened Bytes
  import opened Coordinator
  import opened DownloadStream
  import opened Segments
  import opened Wrappers
  import Window

  /** One parallel download: `configs[i]` is what stream `i` runs with. */
  datatype Job = Job(remote: seq<byte>, total: nat, configs: seq<Config>) {
    ghost predicate Valid() {
      configs != [] && forall i :: 0 <= i < |configs| ==> configs[i].Valid()
    }

    /** Every stream knows its size and stays inside the file. */
    ghost predicate Bounded() {
      forall i :: 0 <= i < |configs| ==> configs[i].total > 0 && configs[i].base + configs[i].total <= total
    }
  }

  /** The job the driver sets up: one range per stream, each with its negotiated READ size and depth. */
  function SplitJob(remote: seq<byte>, total: nat, limits: seq<Window.Limit>): (job: Job)
    requires limits != []
    ensures job.Valid() && |job.configs| == |limits|
    ensures forall i :: 0 <= i < |limits| ==>
              && job.configs[i].base == SplitRange(total, |limits|, i).start
              && job.configs[i].total == SplitRange(total, |limits|, i).len
              && job.configs[i].readLen == Window.NegotiatedReadLen(limits[i])
              && job.configs[i].depth == Window.PipelineDepthFor(Window.NegotiatedReadLen(limits[i]))
  {
    Job(remote, total, seq(|limits|, i requires 0 <= i < |limits| =>
      var range, readLen := SplitRange(total, |limits|, i), Window.NegotiatedReadLen(limits[i]);
      Config(range.len, readLen, Window.PipelineDepthFor(readLen), range.start)))
  }

  datatype World = World(streams: seq<State>, file: seq<byte>, tokens: Tokens, progress: Progress)

  /**
   * `timer`: the stream's own progress interval has elapsed; `due`: the shared
   * one has. The caller may cancel at any point.
   */
  datatype Action = Act(i: nat, e: Event, timer: bool, due: bool) | CancelOuter

  /** The local file has just been truncated; no stream has opened it yet. */
  function Start(job: Job, cancelled: bool): World {
    World(seq(|job.configs|, i requires 0 <= i < |job.configs| => Enter(job.configs[i]).(phase := Opening)),
          [], StartTokens(|job.configs|, cancelled), StartProgress(|job.configs|))
  }

  predicate Shaped(job: Job, w: World) {
    |w.streams| == |w.tokens.results| == |w.progress.lastSeen| == |job.configs|
  }

  /** A stream sees the token exactly as it is when it looks. */
  predicate Possible(job: Job, w: World, a: Action)
    requires Shaped(job, w)
  {
    a.Act? ==>
      && a.i < |job.configs|
      && Enabled(w.streams[a.i], a.e)
      && (a.e.CheckToken? ==> a.e.cancelled == w.tokens.Seen())
      && (a.e.CancelSeen? ==> w.tokens.Seen())
  }

  function Appended(before: seq<byte>, after: seq<byte>): seq<byte> {
    if |before| <= |after| then after[|before|..] else []
  }

  /** The position a step hands to the progress callback, if it calls it. */
  function Reported(s: State, e: Event, s': State, timer: bool): Option<nat> {
    match e
    case Open(ok) => if ok then Some(0) else None
    case Receive(_, _) => if timer && s'.transferred > s.transferred then Some(s'.transferred) else None
    case Close(flushOk) => if flushOk then Some(s'.transferred) else None
    case _ => None
  }

  function Apply(job: Job, w: World, a: Action): World
    requires Shaped(job, w) && Possible(job, w, a)
  {
    match a
    case CancelOuter => w.(tokens := w.tokens.(outer := true))
    case Act(i, e, timer, due) =>
      var s, c := w.streams[i], job.configs[i];
      var s' := Step(c, job.remote, s, e);
      var report := Reported(s, e, s', timer);
      World(w.streams[i := s'],
            WriteAt(w.file, c.base + s.transferred, Appended(s.written, s'.written)),
            if s'.phase.Finished? then w.tokens.Settle(i, s'.phase.outcome, !e.Open?) else w.tokens,
            if report.Some? then w.progress.Record(i, report.value, due) else w.progress)
  }

  /** The world after the actions, or `None` when one of them was not possible. */
  function RunAll(job: Job, cancelled: bool, actions: seq<Action>): Option<World> {
    if actions == [] then Some(Start(job, cancelled)) else
      var n := |actions| - 1;
      match RunAll(job, cancelled, actions[..n])
      case None => None
      case Some(w) => if Shaped(job, w) && Possible(job, w, actions[n]) then Some(Apply(job, w, actions[n])) else None
  }

  // ---------- What every reachable world satisfies ----------

  ghost predicate StreamsOk(job: Job, w: World)
    requires Shaped(job, w)
  {
    forall i :: 0 <= i < |job.configs| ==> Inv(job.configs[i], job.remote, w.streams[i])
  }

  /** What every stream has stored is in the shared file, at its place. */
  ghost predicate FileHolds(job: Job, streams: seq<State>, file: seq<byte>)
    requires |streams| == |job.configs|
  {
    && (forall i :: 0 <= i < |streams| ==> Matches(file, job.remote, job.configs[i].base, streams[i].transferred))
    && (job.Bounded() ==> |file| <= job.total)
  }

  ghost predicate FileOk(job: Job, w: World)
    requires Shaped(job, w)
  {
    FileHolds(job, w.streams, w.file)
  }

  function ViewOf(s: State): View {
    View(s.transferred, if s.phase.Finished? then Some(s.phase.outcome) else None, s.phase == Closing(true))
  }

  function Views(streams: seq<State>): (views: seq<View>)
    ensures |views| == |streams|
    ensures forall i :: 0 <= i < |streams| ==> views[i] == ViewOf(streams[i])
  {
    seq(|streams|, i requires 0 <= i < |streams| => ViewOf(streams[i]))
  }

  ghost predicate TokensOk(job: Job, w: World)
    requires Shaped(job, w)
  {
    Settled(w.tokens, Views(w.streams))
  }

  ghost predicate ProgressOk(job: Job, w: World)
    requires Shaped(job, w)
  {
    Tracked(w.progress, Views(w.streams))
  }

  ghost predicate WorldInv(job: Job, w: World) {
    && Shaped(job, w)
    && StreamsOk(job, w)
    && FileOk(job, w)
    && TokensOk(job, w)
    && ProgressOk(job, w)
  }

  lemma StartIsOk(job: Job, cancelled: bool)
    requires job.Valid()
    ensures WorldInv(job, Start(job, cancelled))
  {
    StartProgressValid(|job.configs|);
  }

  lemma ActKeepsStreams(job: Job, w: World, a: Action)
    requires Shaped(job, w) && StreamsOk(job, w) && a.Act? && Possible(job, w, a)
    ensures Shaped(job, Apply(job, w, a)) && StreamsOk(job, Apply(job, w, a))
  {
    StepKeepsInv(job.configs[a.i], job.remote, w.streams[a.i], a.e);
  }

  /** Stream `i` stores `data` behind what it already has. */
  lemma StoreKeepsFile(job: Job, streams: seq<State>, file: seq<byte>, i: nat, s': State, data: seq<byte>)
    requires |streams| == |job.configs| && i < |streams| && FileHolds(job, streams, file)
    requires s'.transferred == streams[i].transferred + |data|
    requires TakenFrom(data, job.remote, job.configs[i].base + streams[i].transferred)
    requires job.Bounded() ==> s'.transferred <= job.configs[i].total
    ensures FileHolds(job, streams[i := s'], WriteAt(file, job.configs[i].base + streams[i].transferred, data))
  {
    var off := job.configs[i].base + streams[i].transferred;
    forall j | 0 <= j < |streams|
      ensures Matches(WriteAt(file, off, data), job.remote, job.configs[j].base, streams[i := s'][j].transferred)
    {
      OwnBytesKeepMatches(file, job.remote, off, data, job.configs[j].base, streams[j].transferred);
      OwnBytesExtendMatch(file, job.remote, job.configs[i].base, streams[i].transferred, data);
    }
  }

  /** A step appends the source's own bytes to what the stream has written. */
  lemma StepAppends(c: Config, remote: seq<byte>, s: State, e: Event)
    requires Inv(c, remote, s) && Enabled(s, e)
    ensures var s' := Step(c, remote, s, e);
            var data := Appended(s.written, s'.written);
            && s'.written == s.written + data && s'.transferred == s.transferred + |data|
            && TakenFrom(data, remote, c.base + s.transferred)
            && (c.total > 0 ==> s'.transferred <= c.total)
  {
    FillFrame(c, s);
    var s' := Step(c, remote, s, e);
    if s'.written != s.written {
      StepKeepsInv(c, remote, s, e);
      StoredBytes(c, remote, s, s');
    }
  }

  lemma StoredBytes(c: Config, remote: seq<byte>, s: State, s': State)
    requires CopiedSoFar(c, remote, s) && CopiedSoFar(c, remote, s') && s.transferred <= s'.transferred
    ensures var data := Appended(s.written, s'.written);
            && s'.written == s.written + data && s'.transferred == s.transferred + |data|
            && TakenFrom(data, remote, c.base + s.transferred)
  {
    GrowthIsTakenFrom(remote, c.base, s.written, s'.written);
  }

  /** The streams and the file once stream `i` has taken step `e`. */
  ghost predicate HoldsAfter(job: Job, streams: seq<State>, file: seq<byte>, i: nat, e: Event)
    requires |streams| == |job.configs| && i < |streams| && Enabled(streams[i], e)
  {
    var s, s' := streams[i], Step(job.configs[i], job.remote, streams[i], e);
    FileHolds(job, streams[i := s'], WriteAt(file, job.configs[i].base + s.transferred, Appended(s.written, s'.written)))
  }

  lemma StepKeepsFile(job: Job, streams: seq<State>, file: seq<byte>, i: nat, e: Event)
    requires |streams| == |job.configs| && i < |streams| && FileHolds(job, streams, file)
    requires Inv(job.configs[i], job.remote, streams[i]) && Enabled(streams[i], e)
    ensures HoldsAfter(job, streams, file, i, e)
  {
    var s' := Step(job.configs[i], job.remote, streams[i], e);
    StepAppends(job.configs[i], job.remote, streams[i], e);
    StoreKeepsFile(job, streams, file, i, s', Appended(streams[i].written, s'.written));
  }

  lemma HoldsInNextWorld(job: Job, w: World, a: Action)
    requires Shaped(job, w) && a.Act? && Possible(job, w, a) && HoldsAfter(job, w.streams, w.file, a.i, a.e)
    ensures Shaped(job, Apply(job, w, a)) && FileOk(job, Apply(job, w, a))
  {
  }

  lemma ActKeepsFile(job: Job, w: World, a: Action)
    requires Shaped(job, w) && StreamsOk(job, w) && FileOk(job, w) && a.Act? && Possible(job, w, a)
    ensures Shaped(job, Apply(job, w, a)) && FileOk(job, Apply(job, w, a))
  {
    StepKeepsFile(job, w.streams, w.file, a.i, a.e);
    HoldsInNextWorld(job, w, a);
  }

  /** Every way into "cancelled" passes through a look at the token. */
  lemma StepCancelsOnlyWhenSeen(c: Config, remote: seq<byte>, s: State, e: Event)
    requires Enabled(s, e)
    ensures var s' := Step(c, remote, s, e);
            s'.phase == Closing(true) || s'.phase == Finished(Err(Cancelled)) ==>
              e == CheckToken(true) || e == CancelSeen || s.phase == Closing(true)
  {
  }

  lemma ActKeepsTokens(job: Job, w: World, a: Action)
    requires Shaped(job, w) && TokensOk(job, w) && a.Act? && Possible(job, w, a)
    ensures Shaped(job, Apply(job, w, a)) && TokensOk(job, Apply(job, w, a))
  {
    var s' := Step(job.configs[a.i], job.remote, w.streams[a.i], a.e);
    StepCancelsOnlyWhenSeen(job.configs[a.i], job.remote, w.streams[a.i], a.e);
    StepKeepsSettled(w.tokens, Views(w.streams), a.i, ViewOf(s'), !a.e.Open?);
    assert Views(w.streams)[a.i := ViewOf(s')] == Views(w.streams[a.i := s']);
  }

  /** A callback hands over the stream's current position, and a successful end always calls it. */
  lemma StepReports(c: Config, remote: seq<byte>, s: State, e: Event, timer: bool)
    requires Inv(c, remote, s) && Enabled(s, e)
    ensures var s' := Step(c, remote, s, e);
            var report := Reported(s, e, s', timer);
            && s.transferred <= s'.transferred
            && (report.Some? ==> report.value == s'.transferred)
            && (s'.phase.Finished? && s'.phase.outcome.Ok? ==> report.Some?)
  {
    FillFrame(c, s);
  }

  lemma ActKeepsProgress(job: Job, w: World, a: Action)
    requires Shaped(job, w) && StreamsOk(job, w) && ProgressOk(job, w) && a.Act? && Possible(job, w, a)
    ensures Shaped(job, Apply(job, w, a)) && ProgressOk(job, Apply(job, w, a))
  {
    var s, s' := w.streams[a.i], Step(job.configs[a.i], job.remote, w.streams[a.i], a.e);
    StepReports(job.configs[a.i], job.remote, s, a.e, a.timer);
    StepKeepsTracked(w.progress, Views(w.streams), a.i, ViewOf(s'), Reported(s, a.e, s', a.timer), a.due);
    assert Views(w.streams)[a.i := ViewOf(s')] == Views(w.streams[a.i := s']);
  }

  lemma ApplyKeepsInv(job: Job, w: World, a: Action)
    requires WorldInv(job, w) && Possible(job, w, a)
    ensures WorldInv(job, Apply(job, w, a))
  {
    match a
    case Act(_, _, _, _) =>
      ActKeepsStreams(job, w, a);
      ActKeepsFile(job, w, a);
      ActKeepsTokens(job, w, a);
      ActKeepsProgress(job, w, a);
    case CancelOuter =>
  }

  lemma {:induction false} EveryWorldIsOk(job: Job, cancelled: bool, actions: seq<Action>)
    requires job.Valid() && RunAll(job, cancelled, actions).Some?
    ensures WorldInv(job, RunAll(job, cancelled, actions).value)
  {
    if actions == [] {
      StartIsOk(job, cancelled);
    } else {
      var n := |actions| - 1;
      EveryWorldIsOk(job, cancelled, actions[..n]);
      ApplyKeepsInv(job, RunAll(job, cancelled, actions[..n]).value, actions[n]);
    }
  }
}
