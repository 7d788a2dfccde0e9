/**
 * SOCKS proxy supervisors racing with restarts, stops and connection cleanups.
 * Every step is one lock-guarded section (or one private action) of a start, a
 * stop, a cleanup or a supervisor, and the steps interleave freely.
 */
module SocksLifecycle {
  import opened Wrappers

  type ProxyId = string
  type ConnId = string
  type Gen = nat

  /** A tracked proxy; `join` is the supervisor whose exit a restart would await. */
  datatype Entry = Entry(connection: ConnId, generation: Gen, join: Option<Gen>)

  /** What the manager's lock and its counter protect. A generation also names its listener's cancel token. */
  datatype Registry = Registry(entries: map<ProxyId, Entry>, cancelled: set<Gen>, next: Gen)

  /** Removes an entry and cancels its listener: the locked part of a stop, a restart and a cleanup. */
  function Take(r: Registry, id: ProxyId): Registry {
    if id in r.entries then r.(entries := r.entries - {id}, cancelled := r.cancelled + {r.entries[id].generation}) else r
  }

  function Put(r: Registry, id: ProxyId, connection: ConnId, g: Gen): Registry {
    r.(entries := r.entries[id := Entry(connection, g, None)])
  }

  /** The join handle lands only on its own generation. */
  function Backfilled(r: Registry, id: ProxyId, g: Gen): Registry {
    if id in r.entries && r.entries[id].generation == g
    then r.(entries := r.entries[id := r.entries[id].(join := Some(g))]) else r
  }

  /** A supervisor's exit cleanup: drops the entry unless a newer generation has replaced it. */
  function Swept(r: Registry, id: ProxyId, g: Gen): Registry {
    if id in r.entries && r.entries[id].generation == g then r.(entries := r.entries - {id}) else r
  }

  function Victims(r: Registry, connection: ConnId): set<ProxyId> {
    set id | id in r.entries && r.entries[id].connection == connection
  }

  // ---------- Tasks ----------

  /** `Pending`: inserted but not spawned; `Exited`: out of the accept loop, cleanup still to run. */
  datatype Life = Pending | Running | Exited | Done

  datatype Supervisor = Supervisor(id: ProxyId, life: Life)

  datatype Stage =
    | Removing
    | Awaiting(handle: Option<Gen>)
    | Bound
    | Numbered(g: Gen)
    | Spawning(g: Gen)
    | Filling(g: Gen)
    | Over

  datatype Starter = Starter(id: ProxyId, connection: ConnId, stage: Stage)

  /** A cleanup's snapshot of the proxies of one connection, less those already visited. */
  datatype Sweep = Sweep(connection: ConnId, victims: set<ProxyId>)

  datatype World = World(
    registry: Registry, supervisors: map<Gen, Supervisor>, starters: map<nat, Starter>, cleanups: map<nat, Sweep>)

  const EMPTY: World := World(Registry(map[], {}, 0), map[], map[], map[])

  datatype Action =
    | BeginStart(t: nat, id: ProxyId, connection: ConnId)
    | RemoveOld(t: nat)
    | StopWaiting(t: nat, timedOut: bool)
    | BindFails(t: nat)
    | Allocate(t: nat)
    | Insert(t: nat)
    | Spawn(t: nat)
    | Backfill(t: nat)
    | LoopExit(g: Gen)
    | Cleanup(g: Gen)
    | Stop(id: ProxyId)
    | BeginCleanup(k: nat, connection: ConnId)
    | CleanOne(k: nat, id: ProxyId)

  predicate At(w: World, t: nat, stage: Stage -> bool) {
    t in w.starters && stage(w.starters[t].stage)
  }

  predicate IsDone(w: World, g: Gen) {
    g in w.supervisors && w.supervisors[g].life == Done
  }

  /** Waiting for the old supervisor ends when it is done, or with the one-second timeout. */
  predicate Enabled(w: World, a: Action) {
    match a
    case BeginStart(t, _, _) => t !in w.starters
    case RemoveOld(t) => At(w, t, (s: Stage) => s.Removing?)
    case StopWaiting(t, timedOut) =>
      && At(w, t, (s: Stage) => s.Awaiting?)
      && (timedOut || w.starters[t].stage.handle.None? || IsDone(w, w.starters[t].stage.handle.value))
    case BindFails(t) => At(w, t, (s: Stage) => s.Bound?)
    case Allocate(t) => At(w, t, (s: Stage) => s.Bound?)
    case Insert(t) => At(w, t, (s: Stage) => s.Numbered?)
    case Spawn(t) => At(w, t, (s: Stage) => s.Spawning?) && w.starters[t].stage.g in w.supervisors
    case Backfill(t) => At(w, t, (s: Stage) => s.Filling?)
    case LoopExit(g) => g in w.supervisors && w.supervisors[g].life == Running
    case Cleanup(g) => g in w.supervisors && w.supervisors[g].life == Exited
    case Stop(_) => true
    case BeginCleanup(k, _) => k !in w.cleanups
    case CleanOne(k, id) => k in w.cleanups && id in w.cleanups[k].victims
  }

  function Move(w: World, t: nat, stage: Stage): map<nat, Starter>
    requires t in w.starters
  {
    w.starters[t := w.starters[t].(stage := stage)]
  }

  function Relive(w: World, g: Gen, life: Life): map<Gen, Supervisor>
    requires g in w.supervisors
  {
    w.supervisors[g := w.supervisors[g].(life := life)]
  }

  function Step(w: World, a: Action): World
    requires Enabled(w, a)
  {
    match a
    case BeginStart(t, id, connection) => w.(starters := w.starters[t := Starter(id, connection, Removing)])
    case RemoveOld(t) =>
      var id := w.starters[t].id;
      w.(registry := Take(w.registry, id),
         starters := Move(w, t, Awaiting(if id in w.registry.entries then w.registry.entries[id].join else None)))
    case StopWaiting(t, _) => w.(starters := Move(w, t, Bound))
    case BindFails(t) => w.(starters := Move(w, t, Over))
    case Allocate(t) =>
      w.(registry := w.registry.(next := w.registry.next + 1), starters := Move(w, t, Numbered(w.registry.next)))
    case Insert(t) =>
      var s := w.starters[t];
      World(Put(w.registry, s.id, s.connection, s.stage.g), w.supervisors[s.stage.g := Supervisor(s.id, Pending)],
            Move(w, t, Spawning(s.stage.g)), w.cleanups)
    case Spawn(t) =>
      var g := w.starters[t].stage.g;
      w.(supervisors := Relive(w, g, Running), starters := Move(w, t, Filling(g)))
    case Backfill(t) =>
      w.(registry := Backfilled(w.registry, w.starters[t].id, w.starters[t].stage.g), starters := Move(w, t, Over))
    case LoopExit(g) => w.(supervisors := Relive(w, g, Exited))
    case Cleanup(g) => w.(registry := Swept(w.registry, w.supervisors[g].id, g), supervisors := Relive(w, g, Done))
    case Stop(id) => w.(registry := Take(w.registry, id))
    case BeginCleanup(k, connection) =>
      w.(cleanups := w.cleanups[k := Sweep(connection, Victims(w.registry, connection))])
    case CleanOne(k, id) => w.(registry := Take(w.registry, id),
         cleanups := w.cleanups[k := w.cleanups[k].(victims := w.cleanups[k].victims - {id})])
  }

  function Run(actions: seq<Action>): Option<World> {
    if actions == [] then Some(EMPTY) else
      var n := |actions| - 1;
      match Run(actions[..n])
      case None => None
      case Some(w) => if Enabled(w, actions[n]) then Some(Step(w, actions[n])) else None
  }

  // ---------- What every interleaving keeps ----------

  /** An entry is live: its supervisor has not run its cleanup, its listener is not cancelled, and the handle is its own. */
  ghost predicate EntryOk(w: World, id: ProxyId)
    requires id in w.registry.entries
  {
    var e := w.registry.entries[id];
    && e.generation in w.supervisors && w.supervisors[e.generation].id == id
    && w.supervisors[e.generation].life != Done
    && e.generation !in w.registry.cancelled
    && (e.join.Some? ==> e.join.value == e.generation && w.supervisors[e.generation].life != Pending)
  }

  predicate Owns(s: Starter, g: Gen) {
    (s.stage.Numbered? || s.stage.Spawning? || s.stage.Filling?) && s.stage.g == g
  }

  /** Where the supervisor of a start's number must be. */
  ghost predicate StarterOk(w: World, t: nat)
    requires t in w.starters
  {
    match w.starters[t].stage
    case Numbered(g) => g < w.registry.next && g !in w.supervisors
    case Spawning(g) => g in w.supervisors && w.supervisors[g] == Supervisor(w.starters[t].id, Pending)
    case Filling(g) => g in w.supervisors && w.supervisors[g].id == w.starters[t].id && w.supervisors[g].life != Pending
    case _ => true
  }

  /** No other start holds this start's number. */
  ghost predicate Sole(w: World, t: nat)
    requires t in w.starters
  {
    forall u, g :: u in w.starters && Owns(w.starters[u], g) && Owns(w.starters[t], g) ==> u == t
  }

  ghost predicate Inv(w: World) {
    && (forall id :: id in w.registry.entries ==> EntryOk(w, id))
    && (forall t :: t in w.starters ==> StarterOk(w, t))
    && (forall t :: t in w.starters ==> Sole(w, t))
    && (forall g :: g in w.supervisors ==> g < w.registry.next)
    && (forall g :: g in w.registry.cancelled ==> g in w.supervisors)
  }

  lemma StepKeepsEntry(w: World, a: Action, id: ProxyId)
    requires Inv(w) && Enabled(w, a) && id in Step(w, a).registry.entries
    ensures EntryOk(Step(w, a), id)
  {
    match a
    case Insert(t) =>
      assert StarterOk(w, t);
      if id in w.registry.entries { assert EntryOk(w, id); }
    case Spawn(t) =>
      assert StarterOk(w, t) && EntryOk(w, id);
    case Backfill(t) =>
      assert StarterOk(w, t) && EntryOk(w, id);
    case _ =>
      assert EntryOk(w, id);
  }

  lemma StepKeepsStarter(w: World, a: Action, t: nat)
    requires Inv(w) && Enabled(w, a) && t in Step(w, a).starters
    ensures StarterOk(Step(w, a), t)
  {
    if t in w.starters {
      assert StarterOk(w, t);
      if (a.Insert? || a.Spawn?) && a.t != t {
        assert StarterOk(w, a.t) && Sole(w, t);
        var g := w.starters[a.t].stage.g;
        assert Owns(w.starters[a.t], g) && !Owns(w.starters[t], g);
      }
    }
  }

  lemma StepKeepsSole(w: World, a: Action, t: nat)
    requires Inv(w) && Enabled(w, a) && t in Step(w, a).starters
    ensures Sole(Step(w, a), t)
  {
    var w' := Step(w, a);
    forall u, g | u in w'.starters && Owns(w'.starters[u], g) && Owns(w'.starters[t], g)
      ensures u == t
    {
      if u in w.starters { assert StarterOk(w, u); }
      if t in w.starters { assert StarterOk(w, t) && Sole(w, t); }
    }
  }

  lemma StepKeepsInv(w: World, a: Action)
    requires Inv(w) && Enabled(w, a)
    ensures Inv(Step(w, a))
  {
    var w' := Step(w, a);
    forall id | id in w'.registry.entries
      ensures EntryOk(w', id)
    {
      StepKeepsEntry(w, a, id);
    }
    forall t | t in w'.starters
      ensures StarterOk(w', t) && Sole(w', t)
    {
      StepKeepsStarter(w, a, t);
      StepKeepsSole(w, a, t);
    }
    StepKeepsNumbers(w, a);
  }

  lemma StepKeepsNumbers(w: World, a: Action)
    requires Inv(w) && Enabled(w, a)
    ensures forall g :: g in Step(w, a).supervisors ==> g < Step(w, a).registry.next
    ensures forall g :: g in Step(w, a).registry.cancelled ==> g in Step(w, a).supervisors
  {
    match a
    case Insert(t) => assert StarterOk(w, t);
    case RemoveOld(t) => if w.starters[t].id in w.registry.entries { assert EntryOk(w, w.starters[t].id); }
    case Stop(id) => if id in w.registry.entries { assert EntryOk(w, id); }
    case CleanOne(_, id) => if id in w.registry.entries { assert EntryOk(w, id); }
    case _ =>
  }

  lemma {:induction false} EveryWorldIsOk(actions: seq<Action>)
    requires Run(actions).Some?
    ensures Inv(Run(actions).value)
  {
    if actions != [] {
      var n := |actions| - 1;
      EveryWorldIsOk(actions[..n]);
      StepKeepsInv(Run(actions[..n]).value, actions[n]);
    }
  }

  /** A supervisor's exit removes the entry of its own generation, wherever that is, and nothing else. */
  lemma CleanupRemovesOnlyItsGeneration(actions: seq<Action>, g: Gen)
    requires Run(actions).Some? && Enabled(Run(actions).value, Cleanup(g))
    ensures var r := Run(actions).value.registry; var r' := Step(Run(actions).value, Cleanup(g)).registry;
            && (forall id :: id in r.entries ==> (id in r'.entries <==> r.entries[id].generation != g))
            && (forall id :: id in r'.entries ==> id in r.entries && r'.entries[id] == r.entries[id])
            && r'.cancelled == r.cancelled
  {
    EveryWorldIsOk(actions);
    var w := Run(actions).value;
    forall id | id in w.registry.entries && w.registry.entries[id].generation == g
      ensures id == w.supervisors[g].id
    {
      assert EntryOk(w, id);
    }
  }

  // ---------- Listeners nobody can stop ----------

  ghost predicate Tracked(w: World, g: Gen) {
    exists id :: id in w.registry.entries && w.registry.entries[id].generation == g
  }

  /** A listener that still serves (or will) although no entry leads to it. */
  ghost predicate Orphan(w: World, g: Gen) {
    && g in w.supervisors && w.supervisors[g].life != Done
    && g !in w.registry.cancelled && !Tracked(w, g)
  }

  ghost predicate NoOrphans(w: World) {
    forall g :: g in w.supervisors ==> !Orphan(w, g)
  }

  /** Inserting over an entry is the only step that loses a listener. */
  predicate Overwrites(w: World, a: Action)
    requires Enabled(w, a)
  {
    a.Insert? && w.starters[a.t].id in w.registry.entries
  }

  lemma OrphansComeFromOverwriting(w: World, a: Action)
    requires Inv(w) && NoOrphans(w) && Enabled(w, a)
    ensures NoOrphans(Step(w, a)) <==> !Overwrites(w, a)
  {
    var w' := Step(w, a);
    if Overwrites(w, a) {
      var id := w.starters[a.t].id;
      OverwrittenIsOrphan(w, a.t);
      assert w.registry.entries[id].generation in w'.supervisors;
    } else {
      forall g | g in w'.supervisors
        ensures !Orphan(w', g)
      {
        OthersStayTracked(w, a, g);
      }
    }
  }

  lemma OverwrittenIsOrphan(w: World, t: nat)
    requires Inv(w) && Enabled(w, Insert(t)) && w.starters[t].id in w.registry.entries
    ensures Orphan(Step(w, Insert(t)), w.registry.entries[w.starters[t].id].generation)
  {
  }

  lemma OthersStayTracked(w: World, a: Action, g: Gen)
    requires Inv(w) && NoOrphans(w) && Enabled(w, a) && !Overwrites(w, a) && g in Step(w, a).supervisors
    ensures !Orphan(Step(w, a), g)
  {
    var w' := Step(w, a);
    if a.Insert? && w.starters[a.t].stage.g == g {
      assert w'.registry.entries[w.starters[a.t].id].generation == g;
    } else if w'.supervisors[g].life != Done && g !in w'.registry.cancelled {
      assert g in w.supervisors && !Orphan(w, g);
      var id :| id in w.registry.entries && w.registry.entries[id].generation == g;
      assert EntryOk(w, id);
      assert id in w'.registry.entries && w'.registry.entries[id].generation == g;
    }
  }

  /** Once lost, a listener is never cancelled by any stop, restart or cleanup. */
  lemma {:induction false} OrphansAreForever(before: seq<Action>, after: seq<Action>, g: Gen)
    requires Run(before).Some? && Run(before + after).Some?
    requires g in Run(before).value.supervisors && g !in Run(before).value.registry.cancelled && !Tracked(Run(before).value, g)
    ensures var w := Run(before + after).value; g in w.supervisors && g !in w.registry.cancelled && !Tracked(w, g)
  {
    if after == [] {
      assert before + after == before;
    } else {
      var n := |after| - 1;
      assert (before + after)[..|before + after| - 1] == before + after[..n];
      OrphansAreForever(before, after[..n], g);
      EveryWorldIsOk(before + after[..n]);
      StaysLost(Run(before + after[..n]).value, after[n], g);
    }
  }

  lemma StaysLost(w: World, a: Action, g: Gen)
    requires Inv(w) && Enabled(w, a) && g in w.supervisors && g !in w.registry.cancelled && !Tracked(w, g)
    ensures g in Step(w, a).supervisors && g !in Step(w, a).registry.cancelled && !Tracked(Step(w, a), g)
  {
    if a.Insert? { assert StarterOk(w, a.t); }
    forall id | id in Step(w, a).registry.entries
      ensures Step(w, a).registry.entries[id].generation != g
    {
    }
  }

  lemma Extends(actions: seq<Action>, a: Action)
    requires Run(actions).Some? && Enabled(Run(actions).value, a)
    ensures Run(actions + [a]) == Some(Step(Run(actions).value, a))
  {
  }

  /** Two starts of one id that overlap, each binding its own port. */
  const OVERLAP: seq<Action> := [
    BeginStart(0, "p", "c"), BeginStart(1, "p", "c"), RemoveOld(0), RemoveOld(1),
    StopWaiting(0, false), StopWaiting(1, false), Allocate(0), Allocate(1), Insert(0), Insert(1)]

  /** The overlap leaves the first listener uncancelled with no entry leading to it. */
  lemma OverlappingStartsLoseAListener()
    ensures Run(OVERLAP).Some? && Orphan(Run(OVERLAP).value, 0)
  {
    var waited := OVERLAP[..6];
    BothWait();
    Extends(waited, Allocate(0));
    Extends(waited + [Allocate(0)], Allocate(1));
    Extends(waited + [Allocate(0)] + [Allocate(1)], Insert(0));
    Extends(waited + [Allocate(0)] + [Allocate(1)] + [Insert(0)], Insert(1));
    assert OVERLAP == waited + [Allocate(0)] + [Allocate(1)] + [Insert(0)] + [Insert(1)];
  }

  lemma BothWait()
    ensures var s := Starter("p", "c", Bound);
            Run(OVERLAP[..6]) == Some(EMPTY.(starters := map[0 := s, 1 := s]))
  {
    var begun := OVERLAP[..2];
    BothBegin();
    assert begun == [BeginStart(0, "p", "c"), BeginStart(1, "p", "c")];
    Extends(begun, RemoveOld(0));
    Extends(begun + [RemoveOld(0)], RemoveOld(1));
    Extends(begun + [RemoveOld(0)] + [RemoveOld(1)], StopWaiting(0, false));
    Extends(begun + [RemoveOld(0)] + [RemoveOld(1)] + [StopWaiting(0, false)], StopWaiting(1, false));
    assert OVERLAP[..6] == begun + [RemoveOld(0)] + [RemoveOld(1)] + [StopWaiting(0, false)] + [StopWaiting(1, false)];
    assert Run(OVERLAP[..6]).value.starters == map[0 := Starter("p", "c", Bound), 1 := Starter("p", "c", Bound)];
  }

  lemma BothBegin()
    ensures var s := Starter("p", "c", Removing);
            Run([BeginStart(0, "p", "c"), BeginStart(1, "p", "c")]) == Some(EMPTY.(starters := map[0 := s, 1 := s]))
  {
  }

  /** Starts of one id never overlap: at most one of them is unfinished. */
  ghost predicate Serial(w: World) {
    forall t, u | t in w.starters && u in w.starters && w.starters[t].id == w.starters[u].id ::
      w.starters[t].stage.Over? || w.starters[u].stage.Over? || t == u
  }

  ghost predicate AlwaysSerial(actions: seq<Action>) {
    forall n | 0 <= n <= |actions| :: Run(actions[..n]).Some? && Serial(Run(actions[..n]).value)
  }

  /** Between a start's removal of the old entry and its insertion nobody else fills the slot. */
  ghost predicate SlotsAreFree(w: World) {
    forall t | t in w.starters && (w.starters[t].stage.Awaiting? || w.starters[t].stage.Bound? || w.starters[t].stage.Numbered?) ::
      w.starters[t].id !in w.registry.entries
  }

  lemma StepKeepsSlotsFree(w: World, a: Action)
    requires Enabled(w, a) && Serial(w) && SlotsAreFree(w)
    ensures SlotsAreFree(Step(w, a))
  {
  }

  lemma {:induction false} SerialStartsLoseNothing(actions: seq<Action>)
    requires AlwaysSerial(actions)
    ensures Run(actions).Some? && SlotsAreFree(Run(actions).value) && NoOrphans(Run(actions).value)
  {
    assert actions[..|actions|] == actions;
    if actions != [] {
      var n := |actions| - 1;
      assert Run(actions).Some?;
      forall m | 0 <= m <= n
        ensures Run(actions[..n][..m]).Some? && Serial(Run(actions[..n][..m]).value)
      {
        assert actions[..n][..m] == actions[..m];
      }
      assert actions[..n] == actions[..n][..n];
      SerialStartsLoseNothing(actions[..n]);
      EveryWorldIsOk(actions[..n]);
      var w := Run(actions[..n]).value;
      StepKeepsSlotsFree(w, actions[n]);
      OrphansComeFromOverwriting(w, actions[n]);
    }
  }

  /** So, when starts of one id do not overlap, stopping it cancels every listener it still has. */
  lemma StopReachesEveryListener(actions: seq<Action>, id: ProxyId, g: Gen)
    requires AlwaysSerial(actions)
    requires Run(actions).Some? && g in Run(actions).value.supervisors
    requires Run(actions).value.supervisors[g].id == id && Run(actions).value.supervisors[g].life != Done
    ensures g in Step(Run(actions).value, Stop(id)).registry.cancelled
  {
    SerialStartsLoseNothing(actions);
    EveryWorldIsOk(actions);
    var w := Run(actions).value;
    assert !Orphan(w, g);
    if g !in w.registry.cancelled {
      var own :| own in w.registry.entries && w.registry.entries[own].generation == g;
      assert EntryOk(w, own);
    }
  }

  // ---------- Cleaning up one connection ----------

  ghost predicate Covered(w: World, k: nat, g: Gen) {
    && k in w.cleanups && g in w.supervisors
    && forall id :: id in w.registry.entries && w.registry.entries[id].generation == g ==> id in w.cleanups[k].victims
  }

  lemma StaysCovered(w: World, a: Action, k: nat, g: Gen)
    requires Inv(w) && Enabled(w, a) && Covered(w, k, g)
    ensures Covered(Step(w, a), k, g)
  {
    if a.Insert? { assert StarterOk(w, a.t); }
  }

  /**
   * Whatever interleaves with it, a finished cleanup leaves no entry of any
   * listener that served the connection when the cleanup began.
   */
  lemma {:induction false} CleanupMissesNothing(before: seq<Action>, k: nat, connection: ConnId, after: seq<Action>, id: ProxyId)
    requires Run(before).Some? && Run(before + [BeginCleanup(k, connection)] + after).Some?
    requires id in Run(before).value.registry.entries && Run(before).value.registry.entries[id].connection == connection
    ensures var g := Run(before).value.registry.entries[id].generation;
            var w := Run(before + [BeginCleanup(k, connection)] + after).value;
            Covered(w, k, g) && (w.cleanups[k].victims == {} ==> !Tracked(w, g))
  {
    var begun := before + [BeginCleanup(k, connection)];
    var g := Run(before).value.registry.entries[id].generation;
    if after == [] {
      assert begun + after == begun && begun[..|begun| - 1] == before;
      EveryWorldIsOk(before);
      var w := Run(before).value;
      assert EntryOk(w, id);
      forall other | other in w.registry.entries && w.registry.entries[other].generation == g
        ensures other == id
      {
        assert EntryOk(w, other);
      }
    } else {
      var n := |after| - 1;
      assert (begun + after)[..|begun + after| - 1] == begun + after[..n];
      CleanupMissesNothing(before, k, connection, after[..n], id);
      EveryWorldIsOk(begun + after[..n]);
      StaysCovered(Run(begun + after[..n]).value, after[n], k, g);
    }
  }

  ghost predicate ListensFor(w: World, g: Gen, connection: ConnId) {
    exists id :: id in w.registry.entries && w.registry.entries[id].generation == g && w.registry.entries[id].connection == connection
  }

  /**
   * One turn of a cleanup cancels a proxy of some other connection exactly when
   * the id now belongs to one: the turn goes by the id it noted, not by the
   * connection the entry has.
   */
  lemma CleanupHitsOthersIffIdMoved(w: World, k: nat, id: ProxyId)
    requires Inv(w) && Enabled(w, CleanOne(k, id))
    ensures var cancelled := Step(w, CleanOne(k, id)).registry.cancelled - w.registry.cancelled;
            (exists g :: g in cancelled && !ListensFor(w, g, w.cleanups[k].connection))
            <==> id in w.registry.entries && w.registry.entries[id].connection != w.cleanups[k].connection
  {
    if id in w.registry.entries {
      var g := w.registry.entries[id].generation;
      assert EntryOk(w, id);
      assert g in Step(w, CleanOne(k, id)).registry.cancelled - w.registry.cancelled;
      forall other | other in w.registry.entries && w.registry.entries[other].generation == g
        ensures other == id
      {
        assert EntryOk(w, other);
      }
    }
  }

  /** An uninterrupted start of "p". */
  function WholeStart(t: nat, connection: ConnId): seq<Action> {
    [BeginStart(t, "p", connection), RemoveOld(t), StopWaiting(t, true), Allocate(t), Insert(t), Spawn(t), Backfill(t)]
  }

  lemma StartRuns(actions: seq<Action>, w: World, t: nat, connection: ConnId) returns (w': World)
    requires Run(actions) == Some(w) && t !in w.starters && w.registry.next !in w.supervisors
    ensures Run(actions + WholeStart(t, connection)) == Some(w')
    ensures var g, r := w.registry.next, w.registry;
            && w'.registry.entries == r.entries["p" := Entry(connection, g, Some(g))] && w'.registry.next == g + 1
            && w'.registry.cancelled == Take(r, "p").cancelled
            && w'.supervisors == w.supervisors[g := Supervisor("p", Running)]
            && w'.starters == w.starters[t := Starter("p", connection, Over)] && w'.cleanups == w.cleanups
  {
    var a := WholeStart(t, connection);
    var bound := Bind(actions, w, t, connection);
    w' := Serve(actions + a[..4], bound, t);
    assert actions + a == actions + a[..4] + [Insert(t), Spawn(t), Backfill(t)];
  }

  lemma Serve(actions: seq<Action>, w: World, t: nat) returns (w': World)
    requires Run(actions) == Some(w) && At(w, t, (s: Stage) => s.Numbered?) && w.starters[t].stage.g !in w.supervisors
    ensures Run(actions + [Insert(t), Spawn(t), Backfill(t)]) == Some(w')
    ensures var s, g := w.starters[t], w.starters[t].stage.g;
            && w'.registry == w.registry.(entries := w.registry.entries[s.id := Entry(s.connection, g, Some(g))])
            && w'.supervisors == w.supervisors[g := Supervisor(s.id, Running)]
            && w'.starters == w.starters[t := s.(stage := Over)] && w'.cleanups == w.cleanups
  {
    Extends(actions, Insert(t));
    Extends(actions + [Insert(t)], Spawn(t));
    Extends(actions + [Insert(t)] + [Spawn(t)], Backfill(t));
    assert actions + [Insert(t), Spawn(t), Backfill(t)] == actions + [Insert(t)] + [Spawn(t)] + [Backfill(t)];
    w' := Run(actions + [Insert(t), Spawn(t), Backfill(t)]).value;
  }

  lemma Bind(actions: seq<Action>, w: World, t: nat, connection: ConnId) returns (w': World)
    requires Run(actions) == Some(w) && t !in w.starters
    ensures Run(actions + WholeStart(t, connection)[..4]) == Some(w')
    ensures var r := Take(w.registry, "p");
            w' == w.(registry := r.(next := r.next + 1), starters := w.starters[t := Starter("p", connection, Numbered(r.next))])
  {
    var a := WholeStart(t, connection);
    Extends(actions, a[0]);
    Extends(actions + [a[0]], a[1]);
    Extends(actions + [a[0]] + [a[1]], a[2]);
    Extends(actions + [a[0]] + [a[1]] + [a[2]], a[3]);
    assert actions + a[..4] == actions + [a[0]] + [a[1]] + [a[2]] + [a[3]];
    w' := Run(actions + a[..4]).value;
    assert w'.starters == w.starters[t := Starter("p", connection, Numbered(w.registry.next))];
  }

  // ---------- Runs whose starts come one after the other ----------

  ghost predicate OneStart(w: World, t: nat) {
    forall u :: u in w.starters ==> u == t || w.starters[u].stage.Over?
  }

  lemma StepKeepsOneStart(w: World, a: Action, t: nat)
    requires Enabled(w, a) && OneStart(w, t) && (a.BeginStart? ==> a.t == t)
    ensures OneStart(Step(w, a), t)
  {
  }

  lemma {:induction false} SerialRun(actions: seq<Action>, more: seq<Action>, t: nat)
    requires AlwaysSerial(actions) && Run(actions).Some? && OneStart(Run(actions).value, t)
    requires Run(actions + more).Some? && forall a :: a in more && a.BeginStart? ==> a.t == t
    ensures AlwaysSerial(actions + more) && OneStart(Run(actions + more).value, t)
  {
    if more == [] {
      assert actions + more == actions;
    } else {
      var n := |more| - 1;
      var shorter := actions + more[..n];
      assert (actions + more)[..|actions + more| - 1] == shorter && (actions + more)[|shorter|] == more[n];
      SerialRun(actions, more[..n], t);
      StepKeepsOneStart(Run(shorter).value, more[n], t);
      SerialExtends(shorter, more[n]);
      assert shorter + [more[n]] == actions + more;
    }
  }

  lemma SerialExtends(actions: seq<Action>, a: Action)
    requires AlwaysSerial(actions) && Run(actions + [a]).Some? && Serial(Run(actions + [a]).value)
    ensures AlwaysSerial(actions + [a])
  {
    var longer := actions + [a];
    forall n | 0 <= n <= |longer|
      ensures Run(longer[..n]).Some? && Serial(Run(longer[..n]).value)
    {
      if n == |longer| {
        assert longer[..n] == longer;
      } else {
        assert longer[..n] == actions[..n];
      }
    }
  }

  /** No start is under way. */
  ghost predicate AllOver(w: World) {
    forall t :: t in w.starters ==> w.starters[t].stage.Over?
  }

  /** A whole start after a run without overlapping starts, once all of them are over, makes another such run. */
  lemma NextStartRuns(actions: seq<Action>, w: World, t: nat, connection: ConnId) returns (w': World)
    requires AlwaysSerial(actions) && AllOver(w)
    requires Run(actions) == Some(w) && t !in w.starters && w.registry.next !in w.supervisors
    ensures Run(actions + WholeStart(t, connection)) == Some(w') && AlwaysSerial(actions + WholeStart(t, connection)) && AllOver(w')
    ensures var g, r := w.registry.next, w.registry;
            && w'.registry.entries == r.entries["p" := Entry(connection, g, Some(g))] && w'.registry.next == g + 1
            && w'.registry.cancelled == Take(r, "p").cancelled
            && w'.supervisors == w.supervisors[g := Supervisor("p", Running)]
            && w'.starters == w.starters[t := Starter("p", connection, Over)] && w'.cleanups == w.cleanups
  {
    w' := StartRuns(actions, w, t, connection);
    SerialRun(actions, WholeStart(t, connection), t);
  }

  /** A step that begins no start keeps such a run, too. */
  lemma NextStepRuns(actions: seq<Action>, w: World, a: Action) returns (w': World)
    requires AlwaysSerial(actions) && AllOver(w) && Run(actions) == Some(w) && Enabled(w, a) && !a.BeginStart?
    ensures w' == Step(w, a) && Run(actions + [a]) == Some(w') && AlwaysSerial(actions + [a]) && AllOver(w')
  {
    w' := Step(w, a);
    Extends(actions, a);
    SerialRun(actions, [a], 0);
  }

  /** The first start, on "c". */
  lemma FirstStartRuns() returns (w: World)
    ensures Run(WholeStart(0, "c")) == Some(w) && AlwaysSerial(WholeStart(0, "c")) && AllOver(w)
    ensures w == World(Registry(map["p" := Entry("c", 0, Some(0))], {}, 1), map[0 := Supervisor("p", Running)],
                       map[0 := Starter("p", "c", Over)], map[])
  {
    w := NextStartRuns([], EMPTY, 0, "c");
    assert [] + WholeStart(0, "c") == WholeStart(0, "c");
    assert w.registry.entries == map["p" := Entry("c", 0, Some(0))] && w.supervisors == map[0 := Supervisor("p", Running)];
  }

  /** A proxy on "c", the snapshot of that connection's cleanup, and a whole restart of the proxy on "d" before its turn. */
  const MOVED: seq<Action> := WholeStart(0, "c") + [BeginCleanup(0, "c")] + WholeStart(1, "d")

  /** The cleanup of "c" then stops the proxy of "d", though no starts overlapped. */
  lemma CleanupStopsAMovedProxy()
    ensures AlwaysSerial(MOVED) && Run(MOVED).Some? && Enabled(Run(MOVED).value, CleanOne(0, "p"))
    ensures var r, r' := Run(MOVED).value.registry, Step(Run(MOVED).value, CleanOne(0, "p")).registry;
            r.entries == map["p" := Entry("d", 1, Some(1))] && r'.entries == map[] && 1 !in r.cancelled && 1 in r'.cancelled
  {
    var w := FirstStartRuns();
    var noted := NextStepRuns(WholeStart(0, "c"), w, BeginCleanup(0, "c"));
    assert "p" in noted.cleanups[0].victims;
    var moved := NextStartRuns(WholeStart(0, "c") + [BeginCleanup(0, "c")], noted, 1, "d");
    assert moved.registry.entries == map["p" := Entry("d", 1, Some(1))];
    assert Step(moved, CleanOne(0, "p")).registry.entries == map[];
  }
}
