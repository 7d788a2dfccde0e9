/**
 * The life of interactive terminal sessions in the connection manager:
 * started, detached, reattached, expired, closed and evicted under per-connection
 * generation counters. Each manager call is one step.
 */
module PtySessions {
  import opened Wrappers

  type ConnId = string
  type SessionId = nat
  type ClientId = nat
  type TokenId = nat

  /** A parked session: its generation, and when it was (last) parked. */
  datatype Parked = Parked(session: SessionId, generation: nat, parkedAt: nat)

  /** Who a session was created for: the connection and the generation it was handed out with. */
  datatype Birth = Birth(id: ConnId, generation: nat)

  /**
   * `dead` and `cancelled` are the sessions' own flags. `born` records every
   * session ever created; `clients` and `tokens` count the handles given out.
   */
  datatype Manager = Manager(
    connections: map<ConnId, ClientId>,
    active: map<ConnId, SessionId>,
    detached: map<ConnId, Parked>,
    generations: map<ConnId, nat>,
    jobs: map<(ConnId, string), TokenId>,
    dead: set<SessionId>,
    cancelled: set<SessionId>,
    cancelledJobs: set<TokenId>,
    born: map<SessionId, Birth>,
    clients: nat,
    tokens: nat)
  {
    function Generation(id: ConnId): nat {
      if id in generations then generations[id] else 0
    }

    /** Session `s` was created for connection `id` as generation `g`. */
    predicate BornAs(s: SessionId, id: ConnId, g: nat) {
      s in born && born[s] == Birth(id, g)
    }
  }

  const EMPTY: Manager := Manager(map[], map[], map[], map[], map[], {}, {}, {}, map[], 0, 0)

  // ---------- The calls ----------

  /** What opening a fresh shell channel came to. */
  datatype Shell = Opened | SessionDead | OtherFailure

  datatype StartResult = Attached(generation: nat, reattached: bool) | Dead | Failed

  function Connect(m: Manager, id: ConnId): Manager {
    m.(connections := m.connections[id := m.clients], clients := m.clients + 1)
  }

  /** Takes a parked session out of the registry; a dead one is torn down instead of returned. */
  function TakeDetached(m: Manager, id: ConnId): (Manager, Option<Parked>) {
    if id !in m.detached then (m, None) else
      var p := m.detached[id];
      var m' := m.(detached := m.detached - {id});
      if p.session in m.dead then (m'.(cancelled := m.cancelled + {p.session}), None) else (m', Some(p))
  }

  function CancelActive(m: Manager, id: ConnId): Manager {
    if id in m.active then m.(active := m.active - {id}, cancelled := m.cancelled + {m.active[id]}) else m
  }

  /** Replaces whatever is attached by the new session `s`, under the next generation. */
  function Install(m: Manager, id: ConnId, s: SessionId): Manager {
    var gen := m.Generation(id) + 1;
    var c := CancelActive(m, id);
    c.(active := c.active[id := s], generations := m.generations[id := gen], born := m.born[s := Birth(id, gen)])
  }

  function StartPty(m: Manager, id: ConnId, shell: Shell, handle: SessionId): (Manager, StartResult) {
    var (m1, parked) := TakeDetached(m, id);
    if parked.Some? then (m1.(active := m1.active[id := parked.value.session]), Attached(parked.value.generation, true))
    else if id !in m1.connections then (m1, Dead)
    else match shell
      case SessionDead => (EvictDead(m1, id, m1.connections[id]), Dead)
      case OtherFailure => (m1, Failed)
      case Opened => (Install(m1, id, handle), Attached(m1.Generation(id) + 1, false))
  }

  function CancelTransfers(m: Manager, id: ConnId): Manager {
    m.(jobs := map k | k in m.jobs && k.0 != id :: m.jobs[k],
       cancelledJobs := m.cancelledJobs + set k | k in m.jobs && k.0 == id :: m.jobs[k])
  }

  /** Evicts the client it was called with, and nothing if another one has taken its place. */
  function EvictDead(m: Manager, id: ConnId, expected: ClientId): Manager {
    if id !in m.connections || m.connections[id] != expected then m
    else CancelActive(CancelTransfers(m.(connections := m.connections - {id}), id), id)
  }

  predicate Stale(m: Manager, id: ConnId, expected: Option<nat>) {
    expected.Some? && expected.value != m.Generation(id)
  }

  function Detach(m: Manager, id: ConnId, expected: Option<nat>, now: nat): Manager {
    if Stale(m, id, expected) || id !in m.active then m
    else if m.active[id] in m.dead then CancelActive(m, id)
    else m.(active := m.active - {id}, detached := m.detached[id := Parked(m.active[id], m.Generation(id), now)])
  }

  function Close(m: Manager, id: ConnId, expected: Option<nat>): Manager {
    if Stale(m, id, expected) then m else CancelActive(m, id)
  }

  function DropDetached(m: Manager, id: ConnId): Manager {
    if id in m.detached
    then m.(detached := m.detached - {id}, cancelled := m.cancelled + {m.detached[id].session})
    else m
  }

  /** Grace expiry: returns whether a session was expired. */
  function Expire(m: Manager, id: ConnId, grace: nat, now: nat): (Manager, bool) {
    if id !in m.detached || now - m.detached[id].parkedAt < grace then (m, false)
    else (DropDetached(m, id), true)
  }

  /** A failing disconnect ends the call before the parked session is looked at. */
  function CloseConnection(m: Manager, id: ConnId, disconnectOk: bool): Manager {
    var m1 := CancelTransfers(m, id);
    var m2 := m1.(connections := m1.connections - {id});
    if id in m.connections && !disconnectOk then m2 else DropDetached(m2, id)
  }

  function CloseDetached(m: Manager, id: ConnId, disconnectOk: bool): Manager {
    CloseConnection(DropDetached(m, id), id, disconnectOk)
  }

  /** A reader, or the drain of a parked session, finds the output channel closed. */
  function ChannelClosed(m: Manager, s: SessionId): Manager {
    m.(dead := m.dead + {s})
  }

  function RegisterTransfer(m: Manager, id: ConnId, transfer: string): Manager {
    m.(jobs := m.jobs[(id, transfer) := m.tokens], tokens := m.tokens + 1)
  }

  function FinishTransfer(m: Manager, id: ConnId, transfer: string): Manager {
    m.(jobs := m.jobs - {(id, transfer)})
  }

  // ---------- Runs ----------

  datatype Call =
    | CConnect(id: ConnId)
    | CStart(id: ConnId, shell: Shell, handle: SessionId)
    | CDetach(id: ConnId, expected: Option<nat>)
    | CClose(id: ConnId, expected: Option<nat>)
    | CExpire(id: ConnId, grace: nat)
    | CCloseConnection(id: ConnId, ok: bool)
    | CCloseDetached(id: ConnId, ok: bool)
    | CEvict(id: ConnId, client: ClientId)
    | CChannelClosed(session: SessionId)
    | CRegister(id: ConnId, transfer: string)
    | CFinish(id: ConnId, transfer: string)

  /** A fresh shell gets a session handle never used before. */
  predicate Admissible(m: Manager, call: Call) {
    call.CStart? ==> call.handle !in m.born && call.handle !in m.cancelled && call.handle !in m.dead
  }

  function Apply(m: Manager, call: Call, now: nat): Manager {
    match call
    case CConnect(id) => Connect(m, id)
    case CStart(id, shell, handle) => StartPty(m, id, shell, handle).0
    case CDetach(id, expected) => Detach(m, id, expected, now)
    case CClose(id, expected) => Close(m, id, expected)
    case CExpire(id, grace) => Expire(m, id, grace, now).0
    case CCloseConnection(id, ok) => CloseConnection(m, id, ok)
    case CCloseDetached(id, ok) => CloseDetached(m, id, ok)
    case CEvict(id, client) => EvictDead(m, id, client)
    case CChannelClosed(s) => ChannelClosed(m, s)
    case CRegister(id, t) => RegisterTransfer(m, id, t)
    case CFinish(id, t) => FinishTransfer(m, id, t)
  }

  /** A call made at a time. */
  datatype Timed = Timed(call: Call, at: nat)

  function Run(calls: seq<Timed>): Option<Manager> {
    if calls == [] then Some(EMPTY) else
      var n := |calls| - 1;
      match Run(calls[..n])
      case None => None
      case Some(m) =>
        if Admissible(m, calls[n].call) && (n > 0 ==> calls[n - 1].at <= calls[n].at)
        then Some(Apply(m, calls[n].call, calls[n].at)) else None
  }

  // ---------- The invariant ----------

  /** What the manager holds for one connection id. */
  ghost predicate IdOk(m: Manager, id: ConnId) {
    && !(id in m.active && id in m.detached)
    && (id in m.active ==> m.BornAs(m.active[id], id, m.Generation(id)))
    && (id in m.detached ==>
          && m.BornAs(m.detached[id].session, id, m.detached[id].generation)
          && m.detached[id].generation == m.Generation(id))
  }

  /** A session the manager was handed is held by it, under its own connection, exactly while it is not cancelled. */
  ghost predicate SessionOk(m: Manager, s: SessionId)
    requires s in m.born
  {
    var b := m.born[s];
    && 1 <= b.generation <= m.Generation(b.id)
    && (s !in m.cancelled <==>
          (b.id in m.active && m.active[b.id] == s) || (b.id in m.detached && m.detached[b.id].session == s))
  }

  ghost predicate Inv(m: Manager) {
    && (forall id :: IdOk(m, id))
    && (forall s :: s in m.born ==> SessionOk(m, s))
    && (forall s, t :: s in m.born && t in m.born && m.born[s] == m.born[t] ==> s == t)
  }

  lemma TakeDetachedKeepsInv(m: Manager, id: ConnId)
    requires Inv(m)
    ensures var (m', taken) := TakeDetached(m, id);
            && (taken.None? ==> Inv(m') && id !in m'.detached)
            && (taken.Some? ==> id !in m.active && id in m.detached && m.detached[id] == taken.value
                                && taken.value.session !in m.dead && m' == m.(detached := m.detached - {id}))
  {
    var (m', taken) := TakeDetached(m, id);
    assert IdOk(m, id);
    if taken.None? && id in m.detached {
      DropDetachedKeepsInv(m, id);
      assert m' == DropDetached(m, id);
    }
  }

  lemma DropDetachedKeepsInv(m: Manager, id: ConnId)
    requires Inv(m)
    ensures Inv(DropDetached(m, id)) && id !in DropDetached(m, id).detached
  {
    var m' := DropDetached(m, id);
    forall i ensures IdOk(m', i) { assert IdOk(m, i); }
    forall s | s in m'.born ensures SessionOk(m', s) {
      assert SessionOk(m, s) && IdOk(m, id) && IdOk(m, m.born[s].id);
    }
  }

  lemma CancelActiveKeepsInv(m: Manager, id: ConnId)
    requires Inv(m)
    ensures Inv(CancelActive(m, id)) && id !in CancelActive(m, id).active
  {
    var m' := CancelActive(m, id);
    forall i ensures IdOk(m', i) { assert IdOk(m, i); }
    forall s | s in m'.born ensures SessionOk(m', s) {
      assert SessionOk(m, s) && IdOk(m, id) && IdOk(m, m.born[s].id);
    }
  }

  lemma InstallKeepsInv(m: Manager, id: ConnId, s: SessionId)
    requires Inv(m) && id !in m.detached && s !in m.born && s !in m.cancelled
    ensures Inv(Install(m, id, s))
  {
    CancelActiveKeepsInv(m, id);
    var c, m' := CancelActive(m, id), Install(m, id, s);
    assert IdOk(m, id);
    forall i ensures IdOk(m', i) { assert IdOk(c, i); }
    forall t | t in m'.born ensures SessionOk(m', t) {
      if t != s {
        assert SessionOk(c, t) && IdOk(c, id) && IdOk(c, c.born[t].id);
      }
    }
    forall t | t in m.born ensures m.born[t] != m'.born[s] { assert SessionOk(m, t); }
  }

  lemma ReattachKeepsInv(m: Manager, id: ConnId)
    requires Inv(m) && id in m.detached
    ensures Inv(m.(detached := m.detached - {id}, active := m.active[id := m.detached[id].session]))
  {
    var m' := m.(detached := m.detached - {id}, active := m.active[id := m.detached[id].session]);
    forall i ensures IdOk(m', i) { assert IdOk(m, i); }
    forall s | s in m'.born ensures SessionOk(m', s) {
      assert SessionOk(m, s) && IdOk(m, id) && IdOk(m, m.born[s].id);
    }
  }

  lemma ParkKeepsInv(m: Manager, id: ConnId, now: nat)
    requires Inv(m) && id in m.active
    ensures Inv(m.(active := m.active - {id}, detached := m.detached[id := Parked(m.active[id], m.Generation(id), now)]))
  {
    var m' := m.(active := m.active - {id}, detached := m.detached[id := Parked(m.active[id], m.Generation(id), now)]);
    forall i ensures IdOk(m', i) { assert IdOk(m, i); }
    forall s | s in m'.born ensures SessionOk(m', s) {
      assert SessionOk(m, s) && IdOk(m, id) && IdOk(m, m.born[s].id);
    }
  }

  /** The invariant only looks at the session registries. */
  lemma SameRegistriesKeepInv(m: Manager, m': Manager)
    requires Inv(m)
    requires m'.active == m.active && m'.detached == m.detached && m'.generations == m.generations
    requires m'.cancelled == m.cancelled && m'.born == m.born
    ensures Inv(m')
  {
    forall i ensures IdOk(m', i) { assert IdOk(m, i); }
    forall s | s in m'.born ensures SessionOk(m', s) { assert SessionOk(m, s); }
  }

  lemma EvictKeepsInv(m: Manager, id: ConnId, client: ClientId)
    requires Inv(m)
    ensures Inv(EvictDead(m, id, client))
  {
    var m1 := CancelTransfers(m.(connections := m.connections - {id}), id);
    SameRegistriesKeepInv(m, m1);
    CancelActiveKeepsInv(m1, id);
  }

  lemma CloseConnectionKeepsInv(m: Manager, id: ConnId, ok: bool)
    requires Inv(m)
    ensures Inv(CloseConnection(m, id, ok))
  {
    var m1 := CancelTransfers(m, id);
    var m2 := m1.(connections := m1.connections - {id});
    SameRegistriesKeepInv(m, m2);
    DropDetachedKeepsInv(m2, id);
  }

  lemma StartKeepsInv(m: Manager, id: ConnId, shell: Shell, handle: SessionId)
    requires Inv(m) && Admissible(m, CStart(id, shell, handle))
    ensures Inv(StartPty(m, id, shell, handle).0)
  {
    TakeDetachedKeepsInv(m, id);
    var (m1, parked) := TakeDetached(m, id);
    if parked.Some? {
      ReattachKeepsInv(m, id);
    } else if id in m1.connections {
      EvictKeepsInv(m1, id, m1.connections[id]);
      if shell.Opened? {
        assert handle !in m1.cancelled by {
          if id in m.detached { assert IdOk(m, id); }
        }
        InstallKeepsInv(m1, id, handle);
      }
    }
  }

  lemma ApplyKeepsInv(m: Manager, call: Call, now: nat)
    requires Inv(m) && Admissible(m, call)
    ensures Inv(Apply(m, call, now))
  {
    match call
    case CStart(id, shell, handle) => StartKeepsInv(m, id, shell, handle);
    case CDetach(id, _) =>
      CancelActiveKeepsInv(m, id);
      if id in m.active {
        ParkKeepsInv(m, id, now);
      }
    case CClose(id, _) => CancelActiveKeepsInv(m, id);
    case CExpire(id, _) => DropDetachedKeepsInv(m, id);
    case CCloseConnection(id, ok) => CloseConnectionKeepsInv(m, id, ok);
    case CCloseDetached(id, ok) =>
      DropDetachedKeepsInv(m, id);
      CloseConnectionKeepsInv(DropDetached(m, id), id, ok);
    case CEvict(id, client) => EvictKeepsInv(m, id, client);
    case _ => SameRegistriesKeepInv(m, Apply(m, call, now));
  }

  /**
   * In every reachable manager no connection has an attached and a parked
   * session at once, stored generations are the counters, no two sessions of a
   * connection ever shared a generation, and every session is either held once
   * or cancelled.
   */
  lemma {:induction false} EveryManagerIsOk(calls: seq<Timed>)
    requires Run(calls).Some?
    ensures Inv(Run(calls).value)
  {
    if calls != [] {
      var n := |calls| - 1;
      EveryManagerIsOk(calls[..n]);
      ApplyKeepsInv(Run(calls[..n]).value, calls[n].call, calls[n].at);
    }
  }

  // ---------- What callers can rely on ----------

  /** A reattach hands back the session that was parked, alive, under the generation it was created with. */
  lemma ReattachReturnsTheParkedSession(calls: seq<Timed>, id: ConnId, shell: Shell, handle: SessionId)
    requires Run(calls).Some?
    ensures var m := Run(calls).value;
            var (m', r) := StartPty(m, id, shell, handle);
            r.Attached? && r.reattached ==>
              && id in m.detached && m.detached[id].session !in m.dead
              && m'.active == m.active[id := m.detached[id].session] && id !in m'.detached
              && m.BornAs(m.detached[id].session, id, r.generation) && r.generation == m'.Generation(id)
  {
    EveryManagerIsOk(calls);
    assert IdOk(Run(calls).value, id);
  }

  /** A start that opens a shell gives it a generation no session of the connection ever had, and cancels the attached one. */
  lemma FreshStartsGetFreshGenerations(calls: seq<Timed>, id: ConnId, handle: SessionId)
    requires Run(calls).Some?
    ensures var m := Run(calls).value;
            var (m', r) := StartPty(m, id, Opened, handle);
            r.Attached? && !r.reattached ==>
              && (forall s :: s in m.born && m.born[s].id == id ==> m.born[s].generation < r.generation)
              && m'.active == m.active[id := handle] && m'.born == m.born[handle := Birth(id, r.generation)]
              && (id in m.active ==> m.active[id] in m'.cancelled)
  {
    EveryManagerIsOk(calls);
    var m := Run(calls).value;
    TakeDetachedKeepsInv(m, id);
    forall s | s in m.born && m.born[s].id == id ensures m.born[s].generation <= m.Generation(id) { assert SessionOk(m, s); }
  }

  /** A Close carrying generation `g` changes something exactly when the attached session was created as `g`. */
  lemma CloseTouchesOnlyItsGeneration(calls: seq<Timed>, id: ConnId, g: nat)
    requires Run(calls).Some?
    ensures var m := Run(calls).value;
            var m' := Close(m, id, Some(g));
            && (m' != m <==> id in m.active && m.BornAs(m.active[id], id, g))
            && (m' != m ==> m' == m.(active := m.active - {id}, cancelled := m.cancelled + {m.active[id]}))
  {
    EveryManagerIsOk(calls);
    assert IdOk(Run(calls).value, id);
  }

  /** Likewise a Detach: it parks that session under `g`, or cancels it when it is dead, and changes nothing else. */
  lemma DetachTouchesOnlyItsGeneration(calls: seq<Timed>, id: ConnId, g: nat, now: nat)
    requires Run(calls).Some?
    ensures var m := Run(calls).value;
            var m' := Detach(m, id, Some(g), now);
            && (m' != m <==> id in m.active && m.BornAs(m.active[id], id, g))
            && (m' != m ==>
                  if m.active[id] in m.dead
                  then m' == m.(active := m.active - {id}, cancelled := m.cancelled + {m.active[id]})
                  else m' == m.(active := m.active - {id}, detached := m.detached[id := Parked(m.active[id], g, now)]))
  {
    EveryManagerIsOk(calls);
    var m := Run(calls).value;
    assert IdOk(m, id);
    if id in m.active && !Stale(m, id, Some(g)) {
      assert id !in Detach(m, id, Some(g), now).active;
    }
  }

  /** Client handles are given out in order, so a connection that is created again gets one never used before. */
  ghost predicate ClientsFresh(m: Manager) {
    forall id :: id in m.connections ==> m.connections[id] < m.clients
  }

  ghost predicate OnlyDrops(before: map<ConnId, ClientId>, after: map<ConnId, ClientId>) {
    forall id :: id in after ==> id in before && after[id] == before[id]
  }

  /** No call but a connect adds or changes a registered client. */
  lemma OtherCallsOnlyDrop(m: Manager, call: Call, now: nat)
    requires !call.CConnect?
    ensures Apply(m, call, now).clients == m.clients && OnlyDrops(m.connections, Apply(m, call, now).connections)
  {
    match call
    case CStart(id, shell, handle) => StartOnlyDrops(m, id, shell, handle);
    case CCloseDetached(id, ok) => CloseOnlyDrops(DropDetached(m, id), id, ok);
    case CCloseConnection(id, ok) => CloseOnlyDrops(m, id, ok);
    case _ =>
  }

  lemma CloseOnlyDrops(m: Manager, id: ConnId, ok: bool)
    ensures CloseConnection(m, id, ok).clients == m.clients && OnlyDrops(m.connections, CloseConnection(m, id, ok).connections)
  {
  }

  lemma StartOnlyDrops(m: Manager, id: ConnId, shell: Shell, handle: SessionId)
    ensures var m' := StartPty(m, id, shell, handle).0;
            m'.clients == m.clients && OnlyDrops(m.connections, m'.connections)
  {
    var m1 := TakeDetached(m, id).0;
    assert m1.clients == m.clients && m1.connections == m.connections;
  }

  lemma ApplyKeepsClients(m: Manager, call: Call, now: nat)
    requires ClientsFresh(m)
    ensures ClientsFresh(Apply(m, call, now)) && m.clients <= Apply(m, call, now).clients
  {
    if !call.CConnect? {
      OtherCallsOnlyDrop(m, call, now);
    }
  }

  lemma {:induction false} ClientsAreFresh(calls: seq<Timed>)
    requires Run(calls).Some?
    ensures ClientsFresh(Run(calls).value)
  {
    if calls != [] {
      var n := |calls| - 1;
      ClientsAreFresh(calls[..n]);
      ApplyKeepsClients(Run(calls[..n]).value, calls[n].call, calls[n].at);
    }
  }

  ghost predicate Registered(calls: seq<Timed>, id: ConnId, client: ClientId) {
    Run(calls).Some? && id in Run(calls).value.connections && Run(calls).value.connections[id] == client
  }

  lemma {:induction false} ClientsOnlyGrow(before: seq<Timed>, after: seq<Timed>)
    requires Run(before + after).Some?
    ensures Run(before).Some? && Run(before).value.clients <= Run(before + after).value.clients
  {
    if after == [] {
      assert before + after == before;
    } else {
      var n := |after| - 1;
      assert (before + after)[..|before + after| - 1] == before + after[..n];
      ClientsOnlyGrow(before, after[..n]);
      ClientsAreFresh(before + after[..n]);
      ApplyKeepsClients(Run(before + after[..n]).value, after[n].call, after[n].at);
    }
  }

  /** A client registered before and after some calls was registered all the while, and nobody connected meanwhile. */
  lemma {:induction false} StillRegistered(before: seq<Timed>, after: seq<Timed>, id: ConnId, client: ClientId, k: nat)
    requires Registered(before, id, client) && Registered(before + after, id, client) && k <= |after|
    ensures Registered(before + after[..k], id, client)
    ensures k < |after| ==> after[k].call != CConnect(id)
    decreases |after|
  {
    if k == |after| {
      assert after[..k] == after;
    } else {
      var n := |after| - 1;
      assert (before + after)[..|before + after| - 1] == before + after[..n];
      LastCallKept(before, after[..n], after[n], id, client);
      assert before + after == before + after[..n] + [after[n]];
      if k < n {
        StillRegistered(before, after[..n], id, client, k);
        assert after[..n][..k] == after[..k] && after[..n][k] == after[k];
      }
    }
  }

  lemma LastCallKept(before: seq<Timed>, after: seq<Timed>, last: Timed, id: ConnId, client: ClientId)
    requires Registered(before, id, client) && Run(before + after).Some?
    requires var m := Apply(Run(before + after).value, last.call, last.at); id in m.connections && m.connections[id] == client
    ensures Registered(before + after, id, client) && last.call != CConnect(id)
  {
    ClientsAreFresh(before);
    ClientsOnlyGrow(before, after);
    if !last.call.CConnect? {
      OtherCallsOnlyDrop(Run(before + after).value, last.call, last.at);
    }
  }

  /**
   * A late eviction through a client registered some calls ago changes something
   * exactly when that client has stayed registered all along.
   */
  lemma LateEvictionsNeedTheSameClient(before: seq<Timed>, after: seq<Timed>, id: ConnId, client: ClientId)
    requires Registered(before, id, client) && Run(before + after).Some?
    ensures EvictDead(Run(before + after).value, id, client) != Run(before + after).value
            <==> forall k :: 0 <= k <= |after| ==> Registered(before + after[..k], id, client)
  {
    var m := Run(before + after).value;
    assert after[..|after|] == after;
    if Registered(before + after, id, client) {
      assert id !in EvictDead(m, id, client).connections;
      forall k | 0 <= k <= |after|
        ensures Registered(before + after[..k], id, client)
      {
        StillRegistered(before, after, id, client, k);
      }
    }
  }

  /** So a connection created again in between, with its session and its transfers, is left untouched. */
  lemma StaleEvictionsSpareRecreatedConnections(before: seq<Timed>, after: seq<Timed>, id: ConnId, client: ClientId, k: nat)
    requires Registered(before, id, client) && Run(before + after).Some?
    requires k < |after| && after[k].call == CConnect(id)
    ensures EvictDead(Run(before + after).value, id, client) == Run(before + after).value
  {
    if Registered(before + after, id, client) {
      StillRegistered(before, after, id, client, k);
    }
  }

  /** Nothing that belongs to connection `id` differs between the two managers. */
  ghost predicate SameFor(m: Manager, m': Manager, id: ConnId) {
    && (id in m.connections <==> id in m'.connections) && (id in m.connections ==> m.connections[id] == m'.connections[id])
    && (id in m.active <==> id in m'.active) && (id in m.active ==> m.active[id] == m'.active[id])
    && (id in m.detached <==> id in m'.detached) && (id in m.detached ==> m.detached[id] == m'.detached[id])
    && (forall t :: (id, t) in m.jobs <==> (id, t) in m'.jobs)
    && (forall t :: (id, t) in m.jobs ==> m.jobs[(id, t)] == m'.jobs[(id, t)])
    && (forall s :: s in m.born && m.born[s].id == id ==> (s in m.cancelled <==> s in m'.cancelled))
  }

  /**
   * In every reachable manager a matching eviction leaves the connection
   * without a client and without transfers, every session ever created for it
   * cancelled except one that is parked, and every other connection untouched.
   */
  lemma EvictionIsComplete(calls: seq<Timed>, id: ConnId)
    requires Run(calls).Some? && id in Run(calls).value.connections
    ensures var m := Run(calls).value;
            var m' := EvictDead(m, id, m.connections[id]);
            && id !in m'.connections && (forall t :: (id, t) !in m'.jobs)
            && (forall s :: s in m.born && m.born[s].id == id ==>
                  (s in m'.cancelled <==> !(id in m.detached && m.detached[id].session == s)))
            && (forall other :: other != id ==> SameFor(m, m', other))
  {
    EveryManagerIsOk(calls);
    var m := Run(calls).value;
    var m' := EvictDead(m, id, m.connections[id]);
    EvictKeepsInv(m, id, m.connections[id]);
    assert id !in m'.active && m'.detached == m.detached && m'.born == m.born;
    forall s | s in m.born && m.born[s].id == id
      ensures s in m'.cancelled <==> !(id in m.detached && m.detached[id].session == s)
    {
      assert SessionOk(m', s);
    }
    forall other | other != id
      ensures SameFor(m, m', other)
    {
      EvictionSparesOthers(m, id, other);
    }
  }

  lemma EvictionSparesOthers(m: Manager, id: ConnId, other: ConnId)
    requires Inv(m) && id in m.connections && other != id
    ensures SameFor(m, EvictDead(m, id, m.connections[id]), other)
  {
    assert IdOk(m, id);
  }

  /** The entry parked at call `k` is still the parked one after `calls`. */
  ghost predicate ParkedSince(calls: seq<Timed>, id: ConnId, k: nat)
    requires Run(calls).Some?
  {
    && k < |calls| && calls[k].call.CDetach? && calls[k].call.id == id
    && id in Run(calls).value.detached && Run(calls).value.detached[id].parkedAt == calls[k].at
    && forall j :: k < j <= |calls| ==>
         && Run(calls[..j]).Some? && id in Run(calls[..j]).value.detached
         && Run(calls[..j]).value.detached[id] == Run(calls).value.detached[id]
  }

  /** Every parked session has been parked without interruption since the detach that parked it. */
  lemma {:induction false} ParkedContinuously(calls: seq<Timed>, id: ConnId) returns (k: nat)
    requires Run(calls).Some? && id in Run(calls).value.detached
    ensures ParkedSince(calls, id, k)
  {
    var n := |calls| - 1;
    var earlier := calls[..n];
    var m, m', c := Run(earlier).value, Run(calls).value, calls[n].call;
    assert calls[..n + 1] == calls;
    EveryManagerIsOk(earlier);
    if id in m.detached && m'.detached[id] == m.detached[id] {
      k := ParkedContinuously(earlier, id);
      forall j | k < j <= |calls|
        ensures Run(calls[..j]).Some? && id in Run(calls[..j]).value.detached
        ensures Run(calls[..j]).value.detached[id] == m'.detached[id]
      {
        if j <= n {
          assert calls[..j] == earlier[..j];
        }
      }
    } else {
      NewlyParkedByDetach(m, c, calls[n].at, id);
      k := n;
    }
  }

  /** Only a detach of an attached session ever adds or changes a parked entry. */
  lemma NewlyParkedByDetach(m: Manager, call: Call, now: nat, id: ConnId)
    requires id in Apply(m, call, now).detached
    requires id in m.detached ==> Apply(m, call, now).detached[id] != m.detached[id]
    ensures call.CDetach? && call.id == id && Apply(m, call, now).detached[id].parkedAt == now
  {
    if call.CStart? {
      StartOnlyUnparks(m, call.id, call.shell, call.handle);
    } else if !call.CDetach? {
      OtherCallsOnlyUnpark(m, call, now);
    }
  }

  /** Over every run and whatever the call, only a session not known to be dead is parked, and only by its own detach. */
  lemma DeadSessionsAreNotParked(calls: seq<Timed>, call: Call, now: nat, id: ConnId)
    requires Run(calls).Some? && id in Apply(Run(calls).value, call, now).detached
    ensures var m, m' := Run(calls).value, Apply(Run(calls).value, call, now);
            || (id in m.detached && m'.detached[id] == m.detached[id])
            || (&& call.CDetach? && call.id == id && id in m.active && m.active[id] !in m.dead && id !in m'.active
                && m'.detached[id] == Parked(m.active[id], m.Generation(id), now)
                && m.BornAs(m.active[id], id, m'.detached[id].generation))
  {
    var m, m' := Run(calls).value, Apply(Run(calls).value, call, now);
    EveryManagerIsOk(calls);
    assert IdOk(m, id);
    if !(id in m.detached && m'.detached[id] == m.detached[id]) {
      NewlyParkedByDetach(m, call, now, id);
    }
  }

  ghost predicate OnlyUnparks(before: map<ConnId, Parked>, after: map<ConnId, Parked>) {
    forall i :: i in after ==> i in before && after[i] == before[i]
  }

  lemma StartOnlyUnparks(m: Manager, id: ConnId, shell: Shell, handle: SessionId)
    ensures OnlyUnparks(m.detached, StartPty(m, id, shell, handle).0.detached)
  {
    var m1 := TakeDetached(m, id).0;
    assert OnlyUnparks(m.detached, m1.detached);
    assert StartPty(m, id, shell, handle).0.detached == m1.detached;
  }

  lemma OtherCallsOnlyUnpark(m: Manager, call: Call, now: nat)
    requires !call.CStart? && !call.CDetach?
    ensures OnlyUnparks(m.detached, Apply(m, call, now).detached)
  {
    match call
    case CCloseDetached(id, ok) => assert OnlyUnparks(m.detached, DropDetached(m, id).detached);
    case _ =>
  }

  /**
   * However stale the timer, a session is expired only after it has been
   * parked, without interruption, for at least the grace period.
   */
  lemma ExpiryRespectsTheGracePeriod(calls: seq<Timed>, id: ConnId, grace: nat, now: nat) returns (k: nat)
    requires Run(calls).Some? && Expire(Run(calls).value, id, grace, now).1
    ensures ParkedSince(calls, id, k) && calls[k].at + grace <= now
    ensures Run(calls).value.detached[id].session in Expire(Run(calls).value, id, grace, now).0.cancelled
  {
    k := ParkedContinuously(calls, id);
  }
}
