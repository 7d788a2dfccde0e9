/** The connection manager as an object: each method updates its maps and is proved against the call it stands for. */
module PtyManager {
  import opened Wrappers
  import opened PtyEffects
  import opened PtySessions
  import opened PtyTransfers

  function JobsOf(jobs: map<(ConnId, string), TokenId>, keys: set<(ConnId, string)>): set<TokenId>
    requires keys <= jobs.Keys
  {
    set k | k in keys :: jobs[k]
  }

  lemma OneMoreJob(
    jobs: map<(ConnId, string), TokenId>, all: set<(ConnId, string)>, keys: set<(ConnId, string)>, key: (ConnId, string))
    requires keys <= all <= jobs.Keys && key in keys
    ensures JobsOf(jobs, all - (keys - {key})) == JobsOf(jobs, all - keys) + {jobs[key]}
    ensures jobs - (all - keys) - {key} == jobs - (all - (keys - {key}))
  {
    assert all - (keys - {key}) == (all - keys) + {key};
  }

  lemma CancelTransfersByKeys(m: Manager, id: ConnId, keys: set<(ConnId, string)>)
    requires keys == set k | k in m.jobs && k.0 == id
    ensures CancelTransfers(m, id) == m.(jobs := m.jobs - keys, cancelledJobs := m.cancelledJobs + JobsOf(m.jobs, keys))
  {
  }

  /**
   * Sessions, clients and transfer tokens are handles; the flags the source
   * keeps inside a session or a token are the sets `dead`, `cancelled` and
   * `cancelledJobs`.
   */
  class ConnectionManager {
    var connections: map<ConnId, ClientId>
    var ptySessions: map<ConnId, SessionId>
    var detachedSessions: map<ConnId, Parked>
    var ptyGenerations: map<ConnId, nat>
    var transferJobs: map<(ConnId, string), TokenId>
    var dead: set<SessionId>
    var cancelled: set<SessionId>
    var cancelledJobs: set<TokenId>
    var clients: nat
    var tokens: nat
    ghost var born: map<SessionId, Birth>

    ghost function State(): Manager
      reads this
    {
      Manager(connections, ptySessions, detachedSessions, ptyGenerations, transferJobs,
              dead, cancelled, cancelledJobs, born, clients, tokens)
    }

    constructor ()
      ensures State() == EMPTY && Inv(State())
    {
      connections, ptySessions, detachedSessions, ptyGenerations, transferJobs := map[], map[], map[], map[], map[];
      dead, cancelled, cancelledJobs, clients, tokens, born := {}, {}, {}, 0, 0, map[];
    }

    method CreateConnection(id: ConnId)
      modifies this
      ensures State() == Connect(old(State()), id)
    {
      connections := connections[id := clients];
      clients := clients + 1;
    }

    method CancelAllConnectionTransfers(id: ConnId)
      modifies this`transferJobs, this`cancelledJobs
      ensures State() == CancelTransfers(old(State()), id)
    {
      var keys := set k | k in transferJobs && k.0 == id;
      ghost var all, jobs, gone := keys, transferJobs, cancelledJobs;
      while keys != {}
        invariant keys <= all <= jobs.Keys
        invariant transferJobs == jobs - (all - keys)
        invariant cancelledJobs == gone + JobsOf(jobs, all - keys)
        decreases |keys|
      {
        var key :| key in keys;
        OneMoreJob(jobs, all, keys, key);
        cancelledJobs := cancelledJobs + {transferJobs[key]};
        transferJobs := transferJobs - {key};
        keys := keys - {key};
      }
      assert all - keys == all;
      CancelTransfersByKeys(old(State()), id, all);
    }

    method TakeDetachedSession(id: ConnId) returns (taken: Option<Parked>)
      modifies this`detachedSessions, this`cancelled
      ensures (State(), taken) == TakeDetached(old(State()), id)
    {
      if id !in detachedSessions {
        return None;
      }
      var session := detachedSessions[id];
      detachedSessions := detachedSessions - {id};
      if session.session in dead {
        cancelled := cancelled + {session.session};
        return None;
      }
      return Some(session);
    }

    /** `handle` names the shell channel, should one be opened; `shell` is what opening it comes to. */
    method StartPtyConnection(id: ConnId, shell: Shell, handle: SessionId) returns (result: StartResult)
      requires Inv(State()) && Admissible(State(), CStart(id, shell, handle))
      modifies this
      ensures (State(), result) == StartPty(old(State()), id, shell, handle)
      ensures StartAnswers(old(State()), id, shell, result)
      ensures CanReattach(old(State()), id) ==> OnlyReattached(old(State()), State(), id)
      ensures Inv(State())
    {
      StartKeepsInv(State(), id, shell, handle);
      StartsAnswer(State(), id, shell, handle);
      if CanReattach(State(), id) {
        ReattachesOnly(State(), id, shell, handle);
      }
      var detached := TakeDetachedSession(id);
      if detached.Some? {
        ptySessions := ptySessions[id := detached.value.session];
        return Attached(detached.value.generation, true);
      }
      if id !in connections {
        return Dead;
      }
      var client := connections[id];
      match shell {
        case SessionDead =>
          EvictDeadConnection(id, client);
          return Dead;
        case OtherFailure =>
          return Failed;
        case Opened =>
      }
      var gen := InstallSession(id, handle);
      return Attached(gen, false);
    }

    /** The end of a start: the old session is cancelled, the generation bumped, the new session stored. */
    method InstallSession(id: ConnId, handle: SessionId) returns (gen: nat)
      modifies this`ptySessions, this`ptyGenerations, this`cancelled, this`born
      ensures State() == Install(old(State()), id, handle) && gen == old(State()).Generation(id) + 1
    {
      if id in ptySessions {
        cancelled := cancelled + {ptySessions[id]};
        ptySessions := ptySessions - {id};
      }
      gen := (if id in ptyGenerations then ptyGenerations[id] else 0) + 1;
      ptyGenerations := ptyGenerations[id := gen];
      born := born[handle := Birth(id, gen)];
      ptySessions := ptySessions[id := handle];
    }

    method EvictDeadConnection(id: ConnId, expected: ClientId)
      modifies this`connections, this`ptySessions, this`transferJobs, this`cancelled, this`cancelledJobs
      ensures State() == EvictDead(old(State()), id, expected)
    {
      var isSame := id in connections && connections[id] == expected;
      if !isSame {
        return;
      }
      connections := connections - {id};
      CancelAllConnectionTransfers(id);
      if id in ptySessions {
        cancelled := cancelled + {ptySessions[id]};
        ptySessions := ptySessions - {id};
      }
    }

    method DetachPtyConnection(id: ConnId, expected: Option<nat>, now: nat)
      requires Inv(State())
      modifies this
      ensures State() == Detach(old(State()), id, expected, now)
      ensures Inv(State())
    {
      ApplyKeepsInv(State(), CDetach(id, expected), now);
      var currentGen := if id in ptyGenerations then ptyGenerations[id] else 0;
      if expected.Some? && currentGen != expected.value {
        return;
      }
      if id !in ptySessions {
        return;
      }
      var session := ptySessions[id];
      ptySessions := ptySessions - {id};
      if session in dead {
        cancelled := cancelled + {session};
        return;
      }
      detachedSessions := detachedSessions[id := Parked(session, currentGen, now)];
    }

    method ClosePtyConnection(id: ConnId, expected: Option<nat>)
      requires Inv(State())
      modifies this
      ensures State() == Close(old(State()), id, expected)
      ensures Inv(State())
    {
      ApplyKeepsInv(State(), CClose(id, expected), 0);
      var currentGen := if id in ptyGenerations then ptyGenerations[id] else 0;
      if expected.Some? && currentGen != expected.value {
        return;
      }
      if id in ptySessions {
        cancelled := cancelled + {ptySessions[id]};
        ptySessions := ptySessions - {id};
      }
    }

    method ExpireDetachedSession(id: ConnId, grace: nat, now: nat) returns (expired: bool)
      requires Inv(State())
      modifies this
      ensures (State(), expired) == Expire(old(State()), id, grace, now)
      ensures expired <==> id in old(detachedSessions) && old(detachedSessions)[id].parkedAt + grace <= now
      ensures Inv(State())
    {
      ApplyKeepsInv(State(), CExpire(id, grace), now);
      if id !in detachedSessions {
        return false;
      }
      var info := detachedSessions[id];
      if now - info.parkedAt < grace {
        return false;
      }
      detachedSessions := detachedSessions - {id};
      cancelled := cancelled + {info.session};
      return true;
    }

    method CloseConnectionById(id: ConnId, disconnectOk: bool) returns (ok: bool)
      requires Inv(State())
      modifies this
      ensures State() == CloseConnection(old(State()), id, disconnectOk)
      ensures ok <==> disconnectOk || id !in old(connections)
      ensures Inv(State())
    {
      CloseConnectionKeepsInv(State(), id, disconnectOk);
      CancelAllConnectionTransfers(id);
      if id in connections {
        connections := connections - {id};
        if !disconnectOk {
          return false;
        }
      } else {
        assert connections - {id} == connections;
      }
      if id in detachedSessions {
        cancelled := cancelled + {detachedSessions[id].session};
        detachedSessions := detachedSessions - {id};
      }
      return true;
    }

    method CloseDetachedSession(id: ConnId, disconnectOk: bool) returns (ok: bool)
      requires Inv(State())
      modifies this
      ensures State() == CloseDetached(old(State()), id, disconnectOk)
      ensures Inv(State())
    {
      DropDetachedKeepsInv(State(), id);
      if id in detachedSessions {
        cancelled := cancelled + {detachedSessions[id].session};
        detachedSessions := detachedSessions - {id};
      }
      ok := CloseConnectionById(id, disconnectOk);
    }

    /** `read_from_pty` or a drain finds the output channel of a session closed. */
    method MarkDead(session: SessionId)
      modifies this`dead
      ensures State() == ChannelClosed(old(State()), session)
    {
      dead := dead + {session};
    }

    method RegisterTransferJob(id: ConnId, transfer: string) returns (token: TokenId)
      modifies this`transferJobs, this`tokens
      ensures State() == RegisterTransfer(old(State()), id, transfer)
      ensures (id, transfer) in transferJobs && transferJobs[(id, transfer)] == token
      ensures old(TokensOk(State())) ==>
                TokensOk(State()) && token !in old(transferJobs).Values && token !in cancelledJobs
    {
      if TokensOk(State()) {
        ApplyKeepsTokens(State(), CRegister(id, transfer), 0);
      }
      token := tokens;
      tokens := tokens + 1;
      transferJobs := transferJobs[(id, transfer) := token];
    }

    method FinishTransferJob(id: ConnId, transfer: string)
      modifies this`transferJobs
      ensures State() == FinishTransfer(old(State()), id, transfer)
    {
      transferJobs := transferJobs - {(id, transfer)};
    }
  }
}
