/** What each manager call does to whom, over every reachable manager, told without the calls' own definitions. */
module PtyEffects {
  import opened Wrappers
  import opened PtySessions
  import opened PtyTransfers

  predicate AttachedAt(m: Manager, s: SessionId, id: ConnId) {
    id in m.active && m.active[id] == s
  }

  predicate ParkedAt(m: Manager, s: SessionId, id: ConnId) {
    id in m.detached && m.detached[id].session == s
  }

  /** A start can hand a parked session back: there is one, not known to be dead. */
  predicate CanReattach(m: Manager, id: ConnId) {
    id in m.detached && m.detached[id].session !in m.dead
  }

  /** A start opens a new shell: nothing to hand back, a connection, and the channel comes up. */
  predicate OpensFresh(m: Manager, id: ConnId, shell: Shell) {
    !CanReattach(m, id) && id in m.connections && shell.Opened?
  }

  // ---------- What the parts of a call leave alone ----------

  ghost predicate SameRecords(m: Manager, m': Manager) {
    m'.generations == m.generations && m'.born == m.born && m'.dead == m.dead && m'.clients == m.clients
  }

  lemma TakingKeepsRecords(m: Manager, id: ConnId)
    ensures var m' := TakeDetached(m, id).0;
            && SameRecords(m, m') && m'.connections == m.connections && m'.active == m.active
            && m'.jobs == m.jobs && m'.cancelledJobs == m.cancelledJobs
            && m'.detached == if id in m.detached then m.detached - {id} else m.detached
    ensures TakeDetached(m, id).1.Some? <==> CanReattach(m, id)
  {
    if id in m.detached {
      var p, taken := m.detached[id], m.(detached := m.detached - {id});
      assert TakeDetached(m, id)
          == if p.session in m.dead then (taken.(cancelled := m.cancelled + {p.session}), None) else (taken, Some(p));
    }
  }

  lemma ClosingKeepsRecords(m: Manager, id: ConnId, ok: bool)
    ensures var m' := CloseConnection(m, id, ok);
            SameRecords(m, m') && m'.active == m.active && m'.connections == m.connections - {id}
    ensures var m' := CloseDetached(m, id, ok);
            SameRecords(m, m') && m'.active == m.active && m'.connections == m.connections - {id}
  {
    var d := DropDetached(m, id);
    assert SameRecords(m, d) && d.connections == m.connections;
  }

  lemma EvictingKeepsRecords(m: Manager, id: ConnId, client: ClientId)
    ensures var m' := EvictDead(m, id, client);
            && SameRecords(m, m')
            && m'.connections == if id in m.connections && m.connections[id] == client then m.connections - {id} else m.connections
  {
  }

  // ---------- Starts ----------

  /** What a start answers, for every reachable manager. */
  ghost predicate StartAnswers(m: Manager, id: ConnId, shell: Shell, r: StartResult) {
    && ((r.Attached? && r.reattached) <==> CanReattach(m, id))
    && ((r.Attached? && !r.reattached) <==> OpensFresh(m, id, shell))
    && (r.Dead? <==> !CanReattach(m, id) && (id !in m.connections || shell.SessionDead?))
    && (r.Failed? <==> !CanReattach(m, id) && id in m.connections && shell.OtherFailure?)
    && (CanReattach(m, id) ==> r.generation == m.detached[id].generation)
    && (OpensFresh(m, id, shell) ==> r.generation == m.Generation(id) + 1)
  }

  /** A reattach moves the parked session back and changes nothing else. */
  ghost predicate OnlyReattached(m: Manager, m': Manager, id: ConnId)
    requires id in m.detached
  {
    && m'.detached == m.detached - {id} && m'.active == m.active[id := m.detached[id].session]
    && m'.connections == m.connections && m'.generations == m.generations && m'.born == m.born && m'.clients == m.clients
    && m'.dead == m.dead && m'.cancelled == m.cancelled
    && m'.jobs == m.jobs && m'.cancelledJobs == m.cancelledJobs && m'.tokens == m.tokens
    && forall other :: other != id ==> SameFor(m, m', other)
  }

  lemma StartsAnswer(m: Manager, id: ConnId, shell: Shell, handle: SessionId)
    ensures StartAnswers(m, id, shell, StartPty(m, id, shell, handle).1)
  {
    TakingKeepsRecords(m, id);
  }

  lemma ReattachesOnly(m: Manager, id: ConnId, shell: Shell, handle: SessionId)
    requires CanReattach(m, id)
    ensures OnlyReattached(m, StartPty(m, id, shell, handle).0, id)
  {
  }

  /**
   * Over every run a start hands the parked session back exactly when there is
   * one that is not known to be dead, whatever the new shell would come to, and
   * then nothing else changes; otherwise it opens a new one, finds the session
   * dead or fails, each in exactly the stated case.
   */
  lemma StartsReattachIffParkedAlive(calls: seq<Timed>, id: ConnId, shell: Shell, handle: SessionId)
    requires Run(calls).Some?
    ensures var m := Run(calls).value; var (m', r) := StartPty(m, id, shell, handle);
            && StartAnswers(m, id, shell, r)
            && (CanReattach(m, id) ==>
                  OnlyReattached(m, m', id) && m.BornAs(m.detached[id].session, id, r.generation))
  {
    EveryManagerIsOk(calls);
    assert IdOk(Run(calls).value, id);
    StartsAnswer(Run(calls).value, id, shell, handle);
    if CanReattach(Run(calls).value, id) {
      ReattachesOnly(Run(calls).value, id, shell, handle);
    }
  }

  // ---------- Which sessions end ----------

  predicate Matches(m: Manager, s: SessionId, expected: Option<nat>)
    requires s in m.born
  {
    expected.None? || expected.value == m.born[s].generation
  }

  /** The call ends session `s`. */
  predicate Ends(m: Manager, call: Call, now: nat, s: SessionId)
    requires s in m.born
  {
    var id := m.born[s].id;
    match call
    case CStart(i, shell, _) =>
      i == id && ((ParkedAt(m, s, id) && s in m.dead)
                  || (AttachedAt(m, s, id) && id in m.connections && !shell.OtherFailure?))
    case CDetach(i, expected) => i == id && AttachedAt(m, s, id) && Matches(m, s, expected) && s in m.dead
    case CClose(i, expected) => i == id && AttachedAt(m, s, id) && Matches(m, s, expected)
    case CExpire(i, grace) => i == id && ParkedAt(m, s, id) && m.detached[id].parkedAt + grace <= now
    case CCloseConnection(i, ok) => i == id && ParkedAt(m, s, id) && (ok || id !in m.connections)
    case CCloseDetached(i, _) => i == id && ParkedAt(m, s, id)
    case CEvict(i, client) => i == id && AttachedAt(m, s, id) && id in m.connections && m.connections[id] == client
    case _ => false
  }

  /** In every reachable manager a call cancels a session exactly when it ends it. */
  lemma SessionsEndExactly(calls: seq<Timed>, call: Call, now: nat, s: SessionId)
    requires Run(calls).Some? && s in Run(calls).value.born && Admissible(Run(calls).value, call)
    ensures s in Apply(Run(calls).value, call, now).cancelled
            <==> s in Run(calls).value.cancelled || Ends(Run(calls).value, call, now, s)
  {
    EveryManagerIsOk(calls);
    var m := Run(calls).value;
    assert SessionOk(m, s) && IdOk(m, m.born[s].id);
    match call
    case CStart(id, shell, handle) => StartsEnd(m, id, shell, handle, s);
    case CCloseConnection(id, ok) => OnlyTheHeldEnd(m, id, s);
    case CCloseDetached(id, ok) => OnlyTheHeldEnd(m, id, s);
    case CChannelClosed(_) =>
    case _ => OnlyTheHeldEnd(m, call.id, s);
  }

  lemma OnlyTheHeldEnd(m: Manager, id: ConnId, s: SessionId)
    requires Inv(m) && s in m.born
    ensures AttachedAt(m, s, id) || ParkedAt(m, s, id) ==> m.born[s].id == id && s !in m.cancelled
    ensures AttachedAt(m, s, id) ==> m.born[s].generation == m.Generation(id)
  {
    assert IdOk(m, id) && SessionOk(m, s);
  }

  lemma StartsEnd(m: Manager, id: ConnId, shell: Shell, handle: SessionId, s: SessionId)
    requires Inv(m) && s in m.born && Admissible(m, CStart(id, shell, handle))
    ensures s in StartPty(m, id, shell, handle).0.cancelled <==> s in m.cancelled || Ends(m, CStart(id, shell, handle), 0, s)
  {
    OnlyTheHeldEnd(m, id, s);
    assert IdOk(m, id);
  }

  // ---------- Which sessions are parked ----------

  /** The call parks the attached session `s`. */
  predicate Parks(m: Manager, call: Call, s: SessionId)
    requires s in m.born
  {
    var id := m.born[s].id;
    call.CDetach? && call.id == id && AttachedAt(m, s, id) && Matches(m, s, call.expected) && s !in m.dead
  }

  /**
   * In every reachable manager a session is parked after a call exactly when
   * the call parked it, or it was parked and the call neither ended it nor was
   * a start of its connection. Every other uncancelled session is attached.
   */
  lemma SessionsParkExactly(calls: seq<Timed>, call: Call, now: nat, s: SessionId)
    requires Run(calls).Some? && s in Run(calls).value.born && Admissible(Run(calls).value, call)
    ensures var m, m' := Run(calls).value, Apply(Run(calls).value, call, now);
            var id := m.born[s].id;
            && s in m'.born && m'.born[s] == m.born[s]
            && (ParkedAt(m', s, id) <==>
                  Parks(m, call, s) || (ParkedAt(m, s, id) && !Ends(m, call, now, s) && !(call.CStart? && call.id == id)))
            && (AttachedAt(m', s, id) <==> s !in m'.cancelled && !ParkedAt(m', s, id))
            && (Parks(m, call, s) ==> m'.detached[id] == Parked(s, m.born[s].generation, now))
  {
    var m, m' := Run(calls).value, Apply(Run(calls).value, call, now);
    EveryManagerIsOk(calls);
    BirthsStay(m, call, now, s);
    ApplyKeepsInv(m, call, now);
    assert SessionOk(m, s) && SessionOk(m', s) && IdOk(m', m.born[s].id);
    assert IdOk(m, m.born[s].id);
    ParksExactly(m, call, now, s);
    if Parks(m, call, s) {
      ParkedAsBorn(m, call, now, s);
    }
  }

  lemma BirthsStay(m: Manager, call: Call, now: nat, s: SessionId)
    requires s in m.born && Admissible(m, call)
    ensures s in Apply(m, call, now).born && Apply(m, call, now).born[s] == m.born[s]
  {
    GenerationsCountShells(m, call, now);
  }

  lemma ParksExactly(m: Manager, call: Call, now: nat, s: SessionId)
    requires Inv(m) && s in m.born && Admissible(m, call)
    ensures var id := m.born[s].id;
            ParkedAt(Apply(m, call, now), s, id) <==>
              Parks(m, call, s) || (ParkedAt(m, s, id) && !Ends(m, call, now, s) && !(call.CStart? && call.id == id))
  {
    var id := m.born[s].id;
    assert IdOk(m, id);
    match call
    case CDetach(_, _) => if Parks(m, call, s) { ParkedAsBorn(m, call, now, s); }
    case CStart(i, shell, handle) => StartsUnpark(m, i, shell, handle);
    case CCloseConnection(i, ok) => ClosesUnpark(m, i, ok);
    case CCloseDetached(i, ok) => ClosesUnpark(m, i, ok);
    case _ =>
  }

  function Dropped(parked: map<ConnId, Parked>, id: ConnId): map<ConnId, Parked> {
    if id in parked then parked - {id} else parked
  }

  lemma ClosesUnpark(m: Manager, id: ConnId, ok: bool)
    ensures CloseConnection(m, id, ok).detached == if id in m.connections && !ok then m.detached else Dropped(m.detached, id)
    ensures CloseDetached(m, id, ok).detached == Dropped(m.detached, id)
  {
    var d := DropDetached(m, id);
    assert d.detached == Dropped(m.detached, id) && id !in d.detached;
  }

  lemma ParkedAsBorn(m: Manager, call: Call, now: nat, s: SessionId)
    requires Inv(m) && s in m.born && Parks(m, call, s)
    ensures var id := m.born[s].id;
            id in Apply(m, call, now).detached && Apply(m, call, now).detached[id] == Parked(s, m.born[s].generation, now)
  {
    assert IdOk(m, m.born[s].id);
  }

  lemma StartsUnpark(m: Manager, id: ConnId, shell: Shell, handle: SessionId)
    ensures StartPty(m, id, shell, handle).0.detached == Dropped(m.detached, id)
  {
    TakingKeepsRecords(m, id);
  }

  // ---------- Connections, generations and flags ----------

  /** A connect registers a client never used before; a connection goes exactly when a call tears it down. */
  lemma ConnectionsChangeExactly(calls: seq<Timed>, call: Call, now: nat, id: ConnId)
    requires Run(calls).Some?
    ensures var m, m' := Run(calls).value, Apply(Run(calls).value, call, now);
            && (id in m'.connections <==> call == CConnect(id) || (id in m.connections && !TearsDown(m, call, id)))
            && (call == CConnect(id) ==> forall i :: i in m.connections ==> m.connections[i] != m'.connections[id])
            && (id in m'.connections && call != CConnect(id) ==> m'.connections[id] == m.connections[id])
  {
    ClientsAreFresh(calls);
    var m := Run(calls).value;
    match call
    case CStart(i, shell, handle) => StartsDisconnect(m, i, shell, handle);
    case CCloseConnection(i, ok) => ClosingKeepsRecords(m, i, ok);
    case CCloseDetached(i, ok) => ClosingKeepsRecords(m, i, ok);
    case CEvict(i, client) => EvictingKeepsRecords(m, i, client);
    case _ =>
  }

  lemma StartsDisconnect(m: Manager, id: ConnId, shell: Shell, handle: SessionId)
    ensures StartPty(m, id, shell, handle).0.connections
         == if TearsDown(m, CStart(id, shell, handle), id) then m.connections - {id} else m.connections
  {
    TakingKeepsRecords(m, id);
    var m1 := TakeDetached(m, id).0;
    if id in m1.connections {
      EvictingKeepsRecords(m1, id, m1.connections[id]);
    }
  }

  /** Generations count the shells opened; a session is recorded under the one it was opened with; only a closed channel kills. */
  lemma GenerationsCountShells(m: Manager, call: Call, now: nat)
    requires Admissible(m, call)
    ensures var m' := Apply(m, call, now);
            var starts := call.CStart? && OpensFresh(m, call.id, call.shell);
            && (forall id :: m'.Generation(id) == m.Generation(id) + if starts && id == call.id then 1 else 0)
            && m'.born == (if starts then m.born[call.handle := Birth(call.id, m.Generation(call.id) + 1)] else m.born)
            && m'.dead == m.dead + if call.CChannelClosed? then {call.session} else {}
  {
    match call
    case CStart(id, shell, handle) => StartsCount(m, id, shell, handle);
    case CCloseConnection(id, ok) => ClosingKeepsRecords(m, id, ok);
    case CCloseDetached(id, ok) => ClosingKeepsRecords(m, id, ok);
    case CEvict(id, client) => EvictingKeepsRecords(m, id, client);
    case _ => assert SameRecords(m, Apply(m, call, now)) || call.CConnect? || call.CChannelClosed?;
  }

  lemma StartsCount(m: Manager, id: ConnId, shell: Shell, handle: SessionId)
    ensures var m' := StartPty(m, id, shell, handle).0;
            && m'.dead == m.dead
            && (if OpensFresh(m, id, shell)
                then m'.generations == m.generations[id := m.Generation(id) + 1] && m'.born == m.born[handle := Birth(id, m.Generation(id) + 1)]
                else SameRecords(m, m'))
  {
    TakingKeepsRecords(m, id);
    var m1 := TakeDetached(m, id).0;
    if id in m1.connections {
      EvictingKeepsRecords(m1, id, m1.connections[id]);
    }
  }

  // ---------- Expiry ----------

  /** A timer expires a session exactly when it has been parked for the grace period. */
  lemma ExpiryIsDue(m: Manager, id: ConnId, grace: nat, now: nat)
    ensures Expire(m, id, grace, now).1 <==> id in m.detached && m.detached[id].parkedAt + grace <= now
    ensures Expire(m, id, grace, now).1 ==>
              id !in Expire(m, id, grace, now).0.detached && m.detached[id].session in Expire(m, id, grace, now).0.cancelled
    ensures !Expire(m, id, grace, now).1 ==> Expire(m, id, grace, now).0 == m
  {
  }
}
