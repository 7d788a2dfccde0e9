/** Which transfers the connection manager cancels, over whole runs of its calls. */
module PtyTransfers {
  import opened PtySessions

  /** Registered tokens were handed out, each under one key, and are not cancelled. */
  ghost predicate TokensOk(m: Manager) {
    && (forall k :: k in m.jobs ==> m.jobs[k] < m.tokens && m.jobs[k] !in m.cancelledJobs)
    && (forall k, l :: k in m.jobs && l in m.jobs && m.jobs[k] == m.jobs[l] ==> k == l)
    && (forall t :: t in m.cancelledJobs ==> t < m.tokens)
  }

  /** The call ends everything of connection `id`: a close, an eviction of its client, or a start that finds it dead. */
  predicate TearsDown(m: Manager, call: Call, id: ConnId) {
    match call
    case CCloseConnection(i, _) => i == id
    case CCloseDetached(i, _) => i == id
    case CEvict(i, client) => i == id && id in m.connections && m.connections[id] == client
    case CStart(i, shell, _) => i == id && shell.SessionDead? && id in m.connections && TakeDetached(m, id).1.None?
    case _ => false
  }

  /** What a call that registers nothing does to the transfers. */
  ghost predicate CancelsExactly(m: Manager, m': Manager, call: Call) {
    && m'.tokens == m.tokens
    && (forall k :: k in m'.jobs ==> k in m.jobs && m'.jobs[k] == m.jobs[k])
    && (forall k :: k in m.jobs && TearsDown(m, call, k.0) ==> k !in m'.jobs)
    && (forall t :: t in m'.cancelledJobs <==>
          t in m.cancelledJobs || exists k :: k in m.jobs && TearsDown(m, call, k.0) && m.jobs[k] == t)
  }

  lemma CancelledTokens(m: Manager, id: ConnId, t: TokenId)
    ensures t in CancelTransfers(m, id).cancelledJobs <==> t in m.cancelledJobs || exists k :: k in m.jobs && k.0 == id && m.jobs[k] == t
  {
  }

  function IdOf(call: Call): ConnId {
    if call.CChannelClosed? then "" else call.id
  }

  ghost predicate SameTransfers(m: Manager, m': Manager) {
    m'.tokens == m.tokens && m'.jobs == m.jobs && m'.cancelledJobs == m.cancelledJobs
  }

  /** The transfers as they are without those of `id`, when `torn`. */
  function Without(m: Manager, id: ConnId, torn: bool): Manager {
    if torn then CancelTransfers(m, id) else m
  }

  lemma EvictionsCancel(m: Manager, id: ConnId, client: ClientId)
    ensures SameTransfers(Without(m, id, id in m.connections && m.connections[id] == client), EvictDead(m, id, client))
  {
  }

  lemma StartsCancel(m: Manager, id: ConnId, shell: Shell, handle: SessionId)
    ensures SameTransfers(Without(m, id, TearsDown(m, CStart(id, shell, handle), id)), StartPty(m, id, shell, handle).0)
  {
    var m1 := TakeDetached(m, id).0;
    assert SameTransfers(m, m1) && m1.connections == m.connections;
    if id in m1.connections {
      EvictionsCancel(m1, id, m1.connections[id]);
    }
  }

  lemma ClosesCancel(m: Manager, id: ConnId, ok: bool)
    ensures SameTransfers(CancelTransfers(m, id), CloseConnection(m, id, ok))
    ensures SameTransfers(CancelTransfers(m, id), CloseDetached(m, id, ok))
  {
    var d := DropDetached(m, id);
    assert SameTransfers(m, d) && SameTransfers(CancelTransfers(m, id), CancelTransfers(d, id));
    var c := CancelTransfers(m, id);
    assert SameTransfers(c, DropDetached(c.(connections := c.connections - {id}), id));
  }

  lemma CallsCancel(m: Manager, call: Call, now: nat)
    requires !call.CRegister? && !call.CFinish?
    ensures SameTransfers(Without(m, IdOf(call), TearsDown(m, call, IdOf(call))), Apply(m, call, now))
  {
    match call
    case CStart(id, shell, handle) => StartsCancel(m, id, shell, handle);
    case CEvict(id, client) => EvictionsCancel(m, id, client);
    case CCloseConnection(id, ok) => ClosesCancel(m, id, ok);
    case CCloseDetached(id, ok) => ClosesCancel(m, id, ok);
    case _ =>
  }

  lemma CallsCancelExactly(m: Manager, call: Call, now: nat)
    requires !call.CRegister?
    ensures CancelsExactly(m, Apply(m, call, now), call)
  {
    if !call.CFinish? {
      CallsCancel(m, call, now);
      forall t ensures t in CancelTransfers(m, IdOf(call)).cancelledJobs <==>
                 t in m.cancelledJobs || exists k :: k in m.jobs && k.0 == IdOf(call) && m.jobs[k] == t
      {
        CancelledTokens(m, IdOf(call), t);
      }
    }
  }

  lemma ApplyKeepsTokens(m: Manager, call: Call, now: nat)
    requires TokensOk(m)
    ensures TokensOk(Apply(m, call, now))
  {
    if !call.CRegister? {
      CallsCancelExactly(m, call, now);
    }
  }

  lemma {:induction false} TokensAreOk(calls: seq<Timed>)
    requires Run(calls).Some?
    ensures TokensOk(Run(calls).value)
  {
    if calls != [] {
      var n := |calls| - 1;
      TokensAreOk(calls[..n]);
      ApplyKeepsTokens(Run(calls[..n]).value, calls[n].call, calls[n].at);
    }
  }

  /** The token a registration hands out is no other transfer's and has never been cancelled. */
  lemma RegisteredTokensAreNew(calls: seq<Timed>, id: ConnId, transfer: string)
    requires Run(calls).Some?
    ensures var m := Run(calls).value;
            var m' := RegisterTransfer(m, id, transfer);
            && (id, transfer) in m'.jobs && m'.jobs[(id, transfer)] !in m.jobs.Values + m'.cancelledJobs
            && (forall k :: k in m'.jobs && m'.jobs[k] == m'.jobs[(id, transfer)] ==> k == (id, transfer))
  {
    TokensAreOk(calls);
  }

  /** In every reachable manager a call cancels a running transfer exactly when it ends that transfer's connection. */
  lemma TransfersEndWithTheirConnection(calls: seq<Timed>, call: Call, now: nat, key: (ConnId, string))
    requires Run(calls).Some? && key in Run(calls).value.jobs
    ensures Run(calls).value.jobs[key] in Apply(Run(calls).value, call, now).cancelledJobs
            <==> TearsDown(Run(calls).value, call, key.0)
  {
    TokensAreOk(calls);
    if !call.CRegister? {
      CallsCancelExactly(Run(calls).value, call, now);
    }
  }

  /** Handed out, no longer registered, not cancelled: the token of a transfer that has finished or was registered over. */
  ghost predicate Settled(m: Manager, t: TokenId) {
    t < m.tokens && t !in m.cancelledJobs && forall k :: k in m.jobs ==> m.jobs[k] != t
  }

  lemma ApplyKeepsSettled(m: Manager, call: Call, now: nat, t: TokenId)
    requires Settled(m, t)
    ensures Settled(Apply(m, call, now), t)
  {
    if !call.CRegister? {
      CallsCancelExactly(m, call, now);
    }
  }

  lemma {:induction false} SettledTokensStay(before: seq<Timed>, after: seq<Timed>, t: TokenId)
    requires Run(before).Some? && Settled(Run(before).value, t) && Run(before + after).Some?
    ensures Settled(Run(before + after).value, t)
  {
    if after == [] {
      assert before + after == before;
    } else {
      var n := |after| - 1;
      assert (before + after)[..|before + after| - 1] == before + after[..n];
      SettledTokensStay(before, after[..n], t);
      ApplyKeepsSettled(Run(before + after[..n]).value, after[n].call, after[n].at, t);
    }
  }

  /** A transfer that has finished is never cancelled, whatever follows, also when its key is used again. */
  lemma FinishedTransfersAreNeverCancelled(before: seq<Timed>, now: nat, after: seq<Timed>, key: (ConnId, string))
    requires Run(before).Some? && key in Run(before).value.jobs
    requires Run(before + [Timed(CFinish(key.0, key.1), now)] + after).Some?
    ensures Run(before).value.jobs[key] !in Run(before + [Timed(CFinish(key.0, key.1), now)] + after).value.cancelledJobs
  {
    var finished := before + [Timed(CFinish(key.0, key.1), now)];
    TokensAreOk(before);
    ClientsOnlyGrow(finished, after);
    assert finished[..|finished| - 1] == before;
    SettledTokensStay(finished, after, Run(before).value.jobs[key]);
  }
}
