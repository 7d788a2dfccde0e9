/** The manager's SOCKS methods as they mutate its map, each against the registry functions of the state machine. */
module SocksManager {
  import opened Wrappers
  import opened SocksLifecycle

  /** What a whole, uninterrupted cleanup of one connection leaves. */
  function Purged(r: Registry, connection: ConnId): Registry {
    r.(entries := r.entries - Victims(r, connection),
       cancelled := r.cancelled + set id | id in Victims(r, connection) :: r.entries[id].generation)
  }

  ghost predicate SameElsewhere(before: map<ProxyId, Entry>, after: map<ProxyId, Entry>, id: ProxyId) {
    forall other :: other != id ==>
      (other in after <==> other in before) && (other in after ==> after[other] == before[other])
  }

  /** Exactly the entries of those ids are gone and their listeners cancelled. */
  ghost predicate Removed(before: Registry, after: Registry, ids: set<ProxyId>) {
    && (forall id :: id in after.entries <==> id in before.entries && id !in ids)
    && (forall id :: id in after.entries ==> after.entries[id] == before.entries[id])
    && (forall g :: g in after.cancelled <==>
          g in before.cancelled || exists id :: id in ids && id in before.entries && before.entries[id].generation == g)
    && after.next == before.next
  }

  class SocksProxies {
    var entries: map<ProxyId, Entry>
    var cancelled: set<Gen>
    var next: Gen

    function State(): Registry
      reads this
    {
      Registry(entries, cancelled, next)
    }

    constructor ()
      ensures State() == EMPTY.registry
    {
      entries, cancelled, next := map[], {}, 0;
    }

    /** Restart: takes the old entry out, cancels it and hands back what to wait for. */
    method RemoveOld(id: ProxyId) returns (exited: Option<Gen>)
      modifies this
      ensures State() == Take(old(State()), id)
      ensures Removed(old(State()), State(), {id})
      ensures exited == if id in old(entries) then old(entries)[id].join else None
    {
      exited := None;
      if id in entries {
        var entry := entries[id];
        entries := entries - {id};
        cancelled := cancelled + {entry.generation};
        exited := entry.join;
      }
    }

    method FetchGeneration() returns (g: Gen)
      modifies this`next
      ensures g == old(next) && next == old(next) + 1
    {
      g := next;
      next := next + 1;
    }

    method InsertEntry(id: ProxyId, connection: ConnId, g: Gen)
      modifies this`entries
      ensures State() == Put(old(State()), id, connection, g)
      ensures id in entries && entries[id] == Entry(connection, g, None)
      ensures SameElsewhere(old(entries), entries, id)
    {
      entries := entries[id := Entry(connection, g, None)];
    }

    method Backfill(id: ProxyId, g: Gen)
      modifies this`entries
      ensures State() == Backfilled(old(State()), id, g)
      ensures id in entries <==> id in old(entries)
      ensures id in entries ==>
                entries[id] == if old(entries)[id].generation == g then old(entries)[id].(join := Some(g)) else old(entries)[id]
      ensures SameElsewhere(old(entries), entries, id)
    {
      if id in entries {
        var entry := entries[id];
        if entry.generation == g {
          entries := entries[id := entry.(join := Some(g))];
        }
      }
    }

    method SupervisorExit(id: ProxyId, g: Gen)
      modifies this`entries
      ensures State() == Swept(old(State()), id, g)
      ensures id in entries <==> id in old(entries) && old(entries)[id].generation != g
      ensures id in entries ==> entries[id] == old(entries)[id]
      ensures SameElsewhere(old(entries), entries, id)
    {
      var superseded := true;
      if id in entries {
        superseded := entries[id].generation != g;
      }
      if !superseded {
        entries := entries - {id};
      }
    }

    method Stop(id: ProxyId) returns (stopped: bool)
      modifies this
      ensures State() == Take(old(State()), id)
      ensures Removed(old(State()), State(), {id})
      ensures stopped <==> id in old(entries)
    {
      stopped := id in entries;
      if stopped {
        cancelled := cancelled + {entries[id].generation};
        entries := entries - {id};
      }
    }

    /** The snapshot is taken once; the victims are then removed one lock at a time, in any order. */
    method CleanUp(connection: ConnId)
      modifies this
      ensures State() == Purged(old(State()), connection)
      ensures forall id :: id in entries <==> id in old(entries) && old(entries)[id].connection != connection
      ensures forall id :: id in entries ==> entries[id] == old(entries)[id]
      ensures forall g :: g in cancelled <==>
                g in old(cancelled) || exists id :: id in old(entries) && old(entries)[id].connection == connection && old(entries)[id].generation == g
      ensures next == old(next)
    {
      var left := set id | id in entries && entries[id].connection == connection;
      while left != {}
        invariant left <= Victims(old(State()), connection)
        invariant next == old(next)
        invariant entries == old(entries) - (Victims(old(State()), connection) - left)
        invariant cancelled == old(cancelled) + set id | id in Victims(old(State()), connection) - left :: old(entries)[id].generation
        decreases |left|
      {
        var id :| id in left;
        ghost var gone := Victims(old(State()), connection) - left;
        left := left - {id};
        assert Victims(old(State()), connection) - left == gone + {id};
        cancelled := cancelled + {entries[id].generation};
        entries := entries - {id};
      }
      assert Victims(old(State()), connection) - left == Victims(old(State()), connection);
    }
  }
}
