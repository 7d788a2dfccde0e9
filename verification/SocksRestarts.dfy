/** What a restart of a SOCKS proxy waits for, and when an older listener of the same id outlives the wait. */
module SocksRestarts {
  import opened Wrappers
  import opened SocksLifecycle

  // ---------- The handle is there when it is needed ----------

  /** The start that is still to store the entry's handle. */
  predicate Fills(w: World, id: ProxyId, t: nat)
    requires id in w.registry.entries
  {
    t in w.starters && w.starters[t].id == id && (w.starters[t].stage.Spawning? || w.starters[t].stage.Filling?)
    && w.starters[t].stage.g == w.registry.entries[id].generation
  }

  ghost predicate HandleComes(w: World, id: ProxyId)
    requires id in w.registry.entries
  {
    w.registry.entries[id].join.Some? || exists t :: Fills(w, id, t)
  }

  lemma StepKeepsHandle(w: World, a: Action, id: ProxyId)
    requires Inv(w) && Enabled(w, a) && id in Step(w, a).registry.entries
    requires id in w.registry.entries ==> HandleComes(w, id)
    ensures HandleComes(Step(w, a), id)
  {
    var w' := Step(w, a);
    if a.Insert? && w.starters[a.t].id == id {
      assert Fills(w', id, a.t);
    } else if w.registry.entries[id].join.None? {
      var t :| Fills(w, id, t);
      FillerStays(w, a, id, t);
    }
  }

  /** The start that is to store the handle is still there after the step, or has stored it. */
  lemma FillerStays(w: World, a: Action, id: ProxyId, t: nat)
    requires Enabled(w, a) && id in w.registry.entries && id in Step(w, a).registry.entries && Fills(w, id, t)
    requires !(a.Insert? && w.starters[a.t].id == id)
    ensures Step(w, a).registry.entries[id].join.Some? || Fills(Step(w, a), id, t)
  {
  }

  lemma {:induction false} EveryHandleComes(actions: seq<Action>, id: ProxyId)
    requires Run(actions).Some? && id in Run(actions).value.registry.entries
    ensures HandleComes(Run(actions).value, id)
  {
    if actions != [] {
      var n := |actions| - 1;
      var w := Run(actions[..n]).value;
      EveryWorldIsOk(actions[..n]);
      if id in w.registry.entries {
        EveryHandleComes(actions[..n], id);
      }
      StepKeepsHandle(w, actions[n], id);
    }
  }

  /** When starts of one id do not overlap, the entry a restart removes always carries its listener's handle. */
  lemma SerialRemovalsFindTheHandle(actions: seq<Action>, t: nat)
    requires AlwaysSerial(actions) && Run(actions).Some? && Enabled(Run(actions).value, RemoveOld(t))
    ensures var w := Run(actions).value;
            w.starters[t].id in w.registry.entries ==>
              w.registry.entries[w.starters[t].id].join == Some(w.registry.entries[w.starters[t].id].generation)
  {
    var w := Run(actions).value;
    var id := w.starters[t].id;
    assert actions[..|actions|] == actions;
    if id in w.registry.entries {
      EveryWorldIsOk(actions);
      assert EntryOk(w, id);
      EveryHandleComes(actions, id);
      if u :| Fills(w, id, u) {
        assert u == t;
      }
    }
  }

  // ---------- What the wait achieves ----------

  /** A start that has removed the old entry waits for one handle and never goes back. */
  ghost predicate PastRemoval(w: World, t: nat, handle: Option<Gen>) {
    t in w.starters && !w.starters[t].stage.Removing? && (w.starters[t].stage.Awaiting? ==> w.starters[t].stage.handle == handle)
  }

  lemma {:induction false} KeepsItsHandle(before: seq<Action>, middle: seq<Action>, t: nat, handle: Option<Gen>)
    requires Run(before).Some? && PastRemoval(Run(before).value, t, handle) && Run(before + middle).Some?
    ensures PastRemoval(Run(before + middle).value, t, handle)
  {
    if middle == [] {
      assert before + middle == before;
    } else {
      var n := |middle| - 1;
      assert (before + middle)[..|before + middle| - 1] == before + middle[..n];
      KeepsItsHandle(before, middle[..n], t, handle);
      StepKeepsItsHandle(Run(before + middle[..n]).value, middle[n], t, handle);
    }
  }

  lemma StepKeepsItsHandle(w: World, a: Action, t: nat, handle: Option<Gen>)
    requires Enabled(w, a) && PastRemoval(w, t, handle)
    ensures PastRemoval(Step(w, a), t, handle)
  {
  }

  lemma {:induction false} PrefixRuns(before: seq<Action>, after: seq<Action>)
    requires Run(before + after).Some?
    ensures Run(before).Some?
  {
    if after == [] {
      assert before + after == before;
    } else {
      assert (before + after)[..|before + after| - 1] == before + after[..|after| - 1];
      PrefixRuns(before, after[..|after| - 1]);
    }
  }

  lemma StepFinishesOnlyByCleanup(w: World, a: Action, g: Gen)
    requires Inv(w) && Enabled(w, a)
    ensures IsDone(Step(w, a), g) <==> IsDone(w, g) || a == Cleanup(g)
  {
    if a.Insert? || a.Spawn? {
      assert StarterOk(w, a.t);
    }
  }

  /** A supervisor is done from its exit cleanup on, and never before. */
  lemma {:induction false} DoneIffCleanedUp(actions: seq<Action>, g: Gen)
    requires Run(actions).Some?
    ensures IsDone(Run(actions).value, g) <==> Cleanup(g) in actions
  {
    if actions != [] {
      var n := |actions| - 1;
      DoneIffCleanedUp(actions[..n], g);
      EveryWorldIsOk(actions[..n]);
      StepFinishesOnlyByCleanup(Run(actions[..n]).value, actions[n], g);
      assert actions == actions[..n] + [actions[n]];
    }
  }

  /**
   * A restart whose earlier starts did not overlap waits for the very listener
   * it removed. After a wait that did not time out that listener's supervisor
   * is done; after any wait it is done exactly when its exit cleanup ran
   * between the removal and the end of the wait.
   */
  lemma RemovedListenerIsDoneIffItExits(before: seq<Action>, middle: seq<Action>, t: nat, timedOut: bool)
    requires AlwaysSerial(before) && Run(before + [RemoveOld(t)] + middle + [StopWaiting(t, timedOut)]).Some?
    requires Run(before).Some? && t in Run(before).value.starters
    requires Run(before).value.starters[t].id in Run(before).value.registry.entries
    ensures var g := Run(before).value.registry.entries[Run(before).value.starters[t].id].generation;
            var waited := Run(before + [RemoveOld(t)] + middle);
            var end := Run(before + [RemoveOld(t)] + middle + [StopWaiting(t, timedOut)]).value;
            && waited.Some? && t in waited.value.starters && waited.value.starters[t].stage == Awaiting(Some(g))
            && (!timedOut ==> IsDone(end, g))
            && (IsDone(end, g) <==> Cleanup(g) in middle)
  {
    var removed := before + [RemoveOld(t)];
    var waited := removed + middle;
    var all := waited + [StopWaiting(t, timedOut)];
    assert all[..|all| - 1] == waited;
    PrefixRuns(removed, middle);
    assert removed[..|removed| - 1] == before;
    SerialRemovalsFindTheHandle(before, t);
    var id := Run(before).value.starters[t].id;
    var g := Run(before).value.registry.entries[id].generation;
    KeepsItsHandle(removed, middle, t, Some(g));
    EveryWorldIsOk(before);
    assert EntryOk(Run(before).value, id);
    DoneIffCleanedUp(before, g);
    DoneIffCleanedUp(all, g);
  }

  // ---------- Which older listeners a start can meet ----------

  /** The step gives up on listener `g`: a stop or a cleanup removes its entry, or a wait for it ends too early. */
  predicate LetsGo(w: World, a: Action, g: Gen) {
    match a
    case Stop(id) => id in w.registry.entries && w.registry.entries[id].generation == g
    case CleanOne(_, id) => id in w.registry.entries && w.registry.entries[id].generation == g
    case StopWaiting(t, _) => t in w.starters && w.starters[t].stage == Awaiting(Some(g)) && !IsDone(w, g)
    case _ => false
  }

  ghost predicate LetGo(actions: seq<Action>, g: Gen) {
    exists k :: 0 <= k < |actions| && Run(actions[..k]).Some? && LetsGo(Run(actions[..k]).value, actions[k], g)
  }

  predicate Awaits(w: World, t: nat, g: Gen) {
    t in w.starters && w.starters[t].stage == Awaiting(Some(g))
  }

  /** An unfinished listener is the current one of its id, is being waited for, or was let go. */
  ghost predicate Accounted(actions: seq<Action>, w: World, g: Gen)
    requires g in w.supervisors
  {
    var id := w.supervisors[g].id;
    || (id in w.registry.entries && w.registry.entries[id].generation == g)
    || (exists t :: Awaits(w, t, g) && w.starters[t].id == id)
    || LetGo(actions, g)
  }

  lemma LetGoStays(actions: seq<Action>, a: Action, g: Gen)
    requires Run(actions).Some?
    ensures LetGo(actions, g) || LetsGo(Run(actions).value, a, g) ==> LetGo(actions + [a], g)
  {
    var longer := actions + [a];
    if LetGo(actions, g) {
      var k :| 0 <= k < |actions| && Run(actions[..k]).Some? && LetsGo(Run(actions[..k]).value, actions[k], g);
      assert longer[..k] == actions[..k] && longer[k] == actions[k];
    } else if LetsGo(Run(actions).value, a, g) {
      assert longer[..|actions|] == actions && longer[|actions|] == a;
    }
  }

  lemma StepKeepsAccounts(actions: seq<Action>, w: World, a: Action, g: Gen)
    requires Run(actions) == Some(w) && Inv(w) && SlotsAreFree(w) && Enabled(w, a)
    requires a.RemoveOld? && w.starters[a.t].id in w.registry.entries ==>
               w.registry.entries[w.starters[a.t].id].join == Some(w.registry.entries[w.starters[a.t].id].generation)
    requires g in Step(w, a).supervisors && Step(w, a).supervisors[g].life != Done
    requires g in w.supervisors ==> Accounted(actions, w, g)
    ensures Accounted(actions + [a], Step(w, a), g)
  {
    var w' := Step(w, a);
    LetGoStays(actions, a, g);
    if g in w.supervisors && !LetGo(actions + [a], g) {
      var id := w.supervisors[g].id;
      assert a.Insert? ==> StarterOk(w, a.t);
      if id in w.registry.entries && w.registry.entries[id].generation == g {
        EntryMovesOn(w, a, id);
      } else {
        var t :| Awaits(w, t, g) && w.starters[t].id == id;
        assert Awaits(w', t, g);
      }
    }
  }

  /** Short of a stop, a cleanup and an exit, an entry stays until a restart takes it and waits for its listener. */
  lemma EntryMovesOn(w: World, a: Action, id: ProxyId)
    requires Inv(w) && SlotsAreFree(w) && Enabled(w, a) && id in w.registry.entries
    requires a.RemoveOld? && w.starters[a.t].id == id ==> w.registry.entries[id].join == Some(w.registry.entries[id].generation)
    requires !LetsGo(w, a, w.registry.entries[id].generation)
    requires Step(w, a).supervisors[w.registry.entries[id].generation].life != Done
    ensures var w', g := Step(w, a), w.registry.entries[id].generation;
            || (id in w'.registry.entries && w'.registry.entries[id].generation == g)
            || (exists t :: Awaits(w', t, g) && w'.starters[t].id == id)
  {
    assert EntryOk(w, id);
    var w', g := Step(w, a), w.registry.entries[id].generation;
    if a.RemoveOld? && w.starters[a.t].id == id {
      assert Awaits(w', a.t, g);
    }
  }

  lemma {:induction false} EveryListenerIsAccounted(actions: seq<Action>, g: Gen)
    requires AlwaysSerial(actions)
    requires Run(actions).Some? && g in Run(actions).value.supervisors && Run(actions).value.supervisors[g].life != Done
    ensures Accounted(actions, Run(actions).value, g)
  {
    if actions != [] {
      var n := |actions| - 1;
      var earlier, a := actions[..n], actions[n];
      var w := Run(earlier).value;
      SerialPrefix(actions);
      SerialStartsLoseNothing(earlier);
      EveryWorldIsOk(earlier);
      if a.RemoveOld? {
        SerialRemovalsFindTheHandle(earlier, a.t);
      }
      if g in w.supervisors {
        EveryListenerIsAccounted(earlier, g);
      }
      StepKeepsAccounts(earlier, w, a, g);
      assert actions == earlier + [a];
    }
  }

  lemma SerialPrefix(actions: seq<Action>)
    requires AlwaysSerial(actions) && actions != []
    ensures AlwaysSerial(actions[..|actions| - 1]) && Run(actions[..|actions| - 1]).Some?
  {
    var n := |actions| - 1;
    forall m | 0 <= m <= n
      ensures Run(actions[..n][..m]).Some? && Serial(Run(actions[..n][..m]).value)
    {
      assert actions[..n][..m] == actions[..m];
    }
    assert actions[..n] == actions[..n][..n];
  }

  /**
   * Over runs whose starts of one id do not overlap: once a start has waited,
   * an older listener of its id is still unfinished exactly when it had been let
   * go, by a stop, by a cleanup, or by a wait that ended before it was done, and
   * its exit cleanup has not run.
   */
  lemma StartsMeetOnlyListenersLetGo(actions: seq<Action>, t: nat, g: Gen)
    requires AlwaysSerial(actions) && Run(actions).Some?
    requires var w := Run(actions).value; t in w.starters && (w.starters[t].stage.Bound? || w.starters[t].stage.Numbered?)
    requires var w := Run(actions).value; g in w.supervisors && w.supervisors[g].id == w.starters[t].id
    ensures !IsDone(Run(actions).value, g) <==> LetGo(actions, g) && Cleanup(g) !in actions
  {
    assert actions[..|actions|] == actions;
    DoneIffCleanedUp(actions, g);
    if !IsDone(Run(actions).value, g) {
      EveryListenerIsAccounted(actions, g);
      SerialStartsLoseNothing(actions);
    }
  }

  // ---------- Both ways to meet one do happen ----------

  /** A restart whose wait times out leaves the old listener running beside the new one, though no starts overlap. */
  lemma TimedOutRestartLeavesBothRunning()
    ensures var actions := WholeStart(0, "c") + WholeStart(1, "c");
            && AlwaysSerial(actions) && Run(actions).Some? && Run(actions).value.registry.cancelled == {0}
            && Run(actions).value.supervisors == map[0 := Supervisor("p", Running), 1 := Supervisor("p", Running)]
  {
    var first := FirstStartRuns();
    var second := NextStartRuns(WholeStart(0, "c"), first, 1, "c");
    assert second.supervisors == map[0 := Supervisor("p", Running), 1 := Supervisor("p", Running)];
  }

  /** So does a start right after a stop: there is no entry, hence nothing to wait for. */
  lemma StartAfterStopLeavesBothRunning()
    ensures var actions := WholeStart(0, "c") + [Stop("p")] + WholeStart(1, "c");
            && AlwaysSerial(actions) && Run(actions).Some? && Run(actions).value.registry.cancelled == {0}
            && Run(actions).value.supervisors == map[0 := Supervisor("p", Running), 1 := Supervisor("p", Running)]
  {
    var first := FirstStartRuns();
    var stopped := NextStepRuns(WholeStart(0, "c"), first, Stop("p"));
    var second := NextStartRuns(WholeStart(0, "c") + [Stop("p")], stopped, 1, "c");
    assert second.supervisors == map[0 := Supervisor("p", Running), 1 := Supervisor("p", Running)];
  }
}
