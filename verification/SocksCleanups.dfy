/** Which proxies the cleanup of one connection stops, and which it spares, whatever interleaves with it. */
module SocksCleanups {
  import opened Wrappers
  import opened SocksLifecycle

  /** Proxy `id` served that connection then. */
  predicate Served(w: World, id: ProxyId, connection: ConnId) {
    id in w.registry.entries && w.registry.entries[id].connection == connection
  }

  /** A cleanup begins with exactly the proxies of its connection, and only ever drops some. */
  lemma {:induction false} VictimsServedTheConnection(before: seq<Action>, k: nat, connection: ConnId, after: seq<Action>, id: ProxyId)
    requires Run(before).Some? && Run(before + [BeginCleanup(k, connection)] + after).Some?
    ensures var w := Run(before + [BeginCleanup(k, connection)] + after).value;
            && k in w.cleanups && w.cleanups[k].connection == connection
            && (id in w.cleanups[k].victims <==> Served(Run(before).value, id, connection) && CleanOne(k, id) !in after)
  {
    var begun := before + [BeginCleanup(k, connection)];
    if after == [] {
      assert begun + after == begun && begun[..|begun| - 1] == before;
    } else {
      var n := |after| - 1;
      assert (begun + after)[..|begun + after| - 1] == begun + after[..n];
      VictimsServedTheConnection(before, k, connection, after[..n], id);
      assert after == after[..n] + [after[n]];
      VictimsOnlyLeave(Run(begun + after[..n]).value, after[n], k, id);
    }
  }

  lemma VictimsOnlyLeave(w: World, a: Action, k: nat, id: ProxyId)
    requires Enabled(w, a) && k in w.cleanups
    ensures var w' := Step(w, a);
            && k in w'.cleanups && w'.cleanups[k].connection == w.cleanups[k].connection
            && (id in w'.cleanups[k].victims <==> id in w.cleanups[k].victims && a != CleanOne(k, id))
  {
  }

  /** Something other than cleanup `k` removes or replaces the entry of `id`. */
  predicate Touches(w: World, a: Action, id: ProxyId, k: nat)
    requires Enabled(w, a)
  {
    match a
    case Stop(i) => i == id
    case RemoveOld(t) => w.starters[t].id == id
    case Insert(t) => w.starters[t].id == id
    case Cleanup(g) => id in w.registry.entries && w.registry.entries[id].generation == g
    case CleanOne(j, i) => j != k && i == id
    case _ => false
  }

  ghost predicate LeftAlone(before: seq<Action>, after: seq<Action>, id: ProxyId, k: nat) {
    forall n | 0 <= n < |after| ::
      && Run(before + after[..n]).Some? && Enabled(Run(before + after[..n]).value, after[n])
      && !Touches(Run(before + after[..n]).value, after[n], id, k)
  }

  /** The entry is still the same listener of the same connection, and that listener is not cancelled. */
  ghost predicate StillServes(w: World, id: ProxyId, connection: ConnId, g: Gen) {
    Served(w, id, connection) && w.registry.entries[id].generation == g && g !in w.registry.cancelled
  }

  lemma LeftAloneBefore(before: seq<Action>, after: seq<Action>, id: ProxyId, k: nat, n: nat)
    requires LeftAlone(before, after, id, k) && n <= |after|
    ensures LeftAlone(before, after[..n], id, k)
  {
    forall m | 0 <= m < n
      ensures Run(before + after[..n][..m]).Some? && Enabled(Run(before + after[..n][..m]).value, after[..n][m])
      ensures !Touches(Run(before + after[..n][..m]).value, after[..n][m], id, k)
    {
      assert after[..n][..m] == after[..m] && after[..n][m] == after[m];
    }
  }

  lemma LastStep(before: seq<Action>, after: seq<Action>, id: ProxyId, k: nat) returns (w: World)
    requires after != [] && Run(before + after).Some? && LeftAlone(before, after, id, k)
    ensures var n := |after| - 1;
            && LeftAlone(before, after[..n], id, k) && Run(before + after[..n]) == Some(w) && Inv(w)
            && Enabled(w, after[n]) && !Touches(w, after[n], id, k) && Run(before + after) == Some(Step(w, after[n]))
  {
    var n := |after| - 1;
    assert (before + after)[..|before + after| - 1] == before + after[..n];
    LeftAloneBefore(before, after, id, k, n);
    EveryWorldIsOk(before + after[..n]);
    w := Run(before + after[..n]).value;
  }

  /** A step that does not touch the entry, and no turn for it of cleanup `k`, which has not noted it. */
  lemma SparedByStep(w: World, a: Action, id: ProxyId, k: nat, connection: ConnId, g: Gen)
    requires Inv(w) && Enabled(w, a) && StillServes(w, id, connection, g) && !Touches(w, a, id, k)
    requires k in w.cleanups && id !in w.cleanups[k].victims
    ensures StillServes(Step(w, a), id, connection, g)
  {
    assert EntryOk(w, id);
    match a
    case Stop(i) => if i in w.registry.entries { assert EntryOk(w, i); }
    case CleanOne(_, i) => if i in w.registry.entries { assert EntryOk(w, i); }
    case RemoveOld(t) => if w.starters[t].id in w.registry.entries { assert EntryOk(w, w.starters[t].id); }
    case _ =>
  }

  /**
   * A proxy that served another connection when the cleanup began survives the
   * whole cleanup, with its listener uncancelled, unless something else touches
   * its entry.
   */
  lemma {:induction false} CleanupSparesOthers(
    before: seq<Action>, k: nat, connection: ConnId, after: seq<Action>, id: ProxyId, other: ConnId, g: Gen)
    requires Run(before).Some? && StillServes(Run(before).value, id, other, g) && other != connection
    requires Run(before + [BeginCleanup(k, connection)] + after).Some?
    requires LeftAlone(before + [BeginCleanup(k, connection)], after, id, k)
    ensures StillServes(Run(before + [BeginCleanup(k, connection)] + after).value, id, other, g)
  {
    var begun := before + [BeginCleanup(k, connection)];
    if after == [] {
      assert begun + after == begun && begun[..|begun| - 1] == before;
    } else {
      var n := |after| - 1;
      var w := LastStep(begun, after, id, k);
      CleanupSparesOthers(before, k, connection, after[..n], id, other, g);
      VictimsServedTheConnection(before, k, connection, after[..n], id);
      SparedByStep(w, after[n], id, k, other, g);
    }
  }
}
