/**
 The port allocator as the program has it: two maps over shared, mutable records.
 Every method is proved to do to the ghost `world` exactly what its specification
 function in PortModel says, and `Valid` ties `world` to the real objects.
 */
module PortAllocators {
  import opened Wrappers
  import opened PortModel
  import opened PortRuns

  /** `allocs` lists the given records of the heap, each once. */
  ghost predicate Lists(allocs: seq<Record>, w: World, ids: set<nat>) {
    && (forall id | id in ids :: id < |w.heap|)
    && |allocs| == |ids|
    && (set a | a in allocs) == (set id | id in ids :: w.heap[id])
  }

  lemma MarkNone(w: World)
    ensures Mark(w, {}) == w && Lists([], w, {})
  {
    assert Mark(w, {}).heap == w.heap;
  }

  /** Before the first turn of a marking loop nothing is marked or listed. */
  lemma LoopStart(w: World, picked: set<string>)
    requires picked <= w.names.Keys
    ensures var ids := IdsOf(w, picked - w.names.Keys); Mark(w, ids) == w && Lists([], w, ids)
  {
    MarkNone(w);
    assert IdsOf(w, picked - w.names.Keys) == {};
  }

  /** One turn of a marking loop, at key `k`: a picked key adds a record not marked yet; another key adds none. */
  lemma NextIds(w: World, picked: set<string>, todo: set<string>, k: string)
    requires Inv(w) && picked <= w.names.Keys && todo <= w.names.Keys && k in todo
    ensures var id, ids := w.names[k], IdsOf(w, picked - todo);
            && id !in ids && (forall i | i in ids :: i < |w.heap|)
            && IdsOf(w, picked - (todo - {k})) == if k in picked then ids + {id} else ids
  {
    var id, ids, ids' := w.names[k], IdsOf(w, picked - todo), IdsOf(w, picked - (todo - {k}));
    assert forall l | l in picked - todo :: l in w.names && Key(w.heap[w.names[l]].who) == l;
    forall i ensures i in ids' <==> i in ids || (k in picked && i == id) {
      if i in ids {
        var l :| l in picked - todo && l in w.names && w.names[l] == i;
        assert l in picked - (todo - {k});
      }
      if k in picked && i == id {
        assert k in picked - (todo - {k});
      }
    }
  }

  /** Writing Freed to one more record, and listing it, is the next stage of the loop. */
  lemma MarkOneMore(w: World, ids: set<nat>, id: nat, allocs: seq<Record>)
    requires id < |w.heap| && id !in ids && Lists(allocs, Mark(w, ids), ids)
    ensures var rec := w.heap[id].(status := Freed);
            && Mark(w, ids).heap[id] == w.heap[id]
            && Mark(w, ids + {id}) == Put(Mark(w, ids), id, rec)
            && Lists(allocs + [rec], Mark(w, ids + {id}), ids + {id})
  {
    var rec := w.heap[id].(status := Freed);
    var v, v' := Mark(w, ids), Mark(w, ids + {id});
    assert v'.heap == Put(v, id, rec).heap;
    assert (set a | a in allocs + [rec]) == (set a | a in allocs) + {rec};
    assert (set i | i in ids + {id} :: v'.heap[i]) == (set i | i in ids :: v.heap[i]) + {rec};
  }

  lemma MarkNext(w: World, picked: set<string>, todo: set<string>, k: string, allocs: seq<Record>)
    requires Inv(w) && picked <= w.names.Keys && todo <= w.names.Keys && k in todo
    requires Lists(allocs, Mark(w, IdsOf(w, picked - todo)), IdsOf(w, picked - todo))
    ensures var id, v := w.names[k], Mark(w, IdsOf(w, picked - todo));
            var ids' := IdsOf(w, picked - (todo - {k}));
            && v.heap[id] == w.heap[id]
            && (k !in picked ==> ids' == IdsOf(w, picked - todo))
            && (k in picked ==>
                  var rec := w.heap[id].(status := Freed);
                  Mark(w, ids') == Put(v, id, rec) && Lists(allocs + [rec], Mark(w, ids'), ids'))
  {
    NextIds(w, picked, todo, k);
    MarkOneMore(w, IdsOf(w, picked - todo), w.names[k], allocs);
  }

  /** The record of one key at most. */
  lemma AtMostOne(ids: set<nat>, w: World, key: string)
    requires forall id | id in ids :: key in w.names && id == w.names[key]
    ensures |ids| <= 1
  {
    if ids != {} {
      assert ids == {w.names[key]};
    }
  }

  lemma ListOneMore(allocs: seq<Record>, w: World, ids: set<nat>, id: nat)
    requires id < |w.heap| && id !in ids && Lists(allocs, w, ids)
    ensures Lists(allocs + [w.heap[id]], w, ids + {id})
  {
    assert (set a | a in allocs + [w.heap[id]]) == (set a | a in allocs) + {w.heap[id]};
    assert (set i | i in ids + {id} :: w.heap[i]) == (set i | i in ids :: w.heap[i]) + {w.heap[id]};
  }

  lemma SameHeapLists(allocs: seq<Record>, w: World, v: World, ids: set<nat>)
    requires Lists(allocs, w, ids) && v.heap == w.heap
    ensures Lists(allocs, v, ids)
  {
  }

  /** The listed records carry the keys and ports the records had before they were marked. */
  lemma ListedFields(allocs: seq<Record>, w: World, ids: set<nat>)
    requires Lists(allocs, Mark(w, ids), ids)
    ensures (set a | a in allocs :: Key(a.who)) == (set id | id in ids :: Key(w.heap[id].who))
    ensures (set a | a in allocs :: a.mappingPort) == (set id | id in ids :: w.heap[id].mappingPort)
  {
    var listed := set a | a in allocs;
    assert (set a | a in allocs :: Key(a.who)) == (set a | a in listed :: Key(a.who));
    assert (set a | a in allocs :: a.mappingPort) == (set a | a in listed :: a.mappingPort);
    forall id | id in ids ensures Mark(w, ids).heap[id] in listed {
    }
  }

  /** The world without the keys and ports of the listed records. */
  ghost function Deleted(w: World, allocs: seq<Record>): World {
    w.(names := w.names - (set a | a in allocs :: Key(a.who)),
      ports := w.ports - (set a | a in allocs :: a.mappingPort))
  }

  lemma DeletedNone(w: World)
    ensures Deleted(w, []) == w
  {
    assert Deleted(w, []).names == w.names && Deleted(w, []).ports == w.ports;
  }

  lemma DeletedOneMore(w: World, allocs: seq<Record>, a: Record)
    ensures var v := Deleted(w, allocs);
            Deleted(w, allocs + [a]) == v.(names := v.names - {Key(a.who)}, ports := v.ports - {a.mappingPort})
  {
    var v, v' := Deleted(w, allocs), Deleted(w, allocs + [a]);
    assert (set b | b in allocs + [a] :: Key(b.who)) == (set b | b in allocs :: Key(b.who)) + {Key(a.who)};
    assert (set b | b in allocs + [a] :: b.mappingPort) == (set b | b in allocs :: b.mappingPort) + {a.mappingPort};
    assert v'.names == v.names - {Key(a.who)} && v'.ports == v.ports - {a.mappingPort};
  }

  class PortAllocation {
    const who: Ident
    const mappingPort: int
    var clientPort: int
    var status: Status
    var allocTime: Option<int>
    var startTime: Option<int>

    constructor (rec: Record)
      ensures Value() == rec
    {
      who, mappingPort := rec.who, rec.mappingPort;
      clientPort, status, allocTime, startTime := rec.clientPort, rec.status, rec.allocTime, rec.startTime;
    }

    function Value(): Record
      reads this
    {
      Record(who, clientPort, mappingPort, status, allocTime, startTime)
    }
  }

  class PortAllocator {
    const minPort: int
    const maxPort: int
    var names: map<string, PortAllocation>
    var ports: map<int, PortAllocation>
    /** Every record this allocator created, oldest first; sessions may still hold any of them. */
    ghost var created: seq<PortAllocation>
    ghost var world: World

    ghost predicate Valid()
      reads this, created
    {
      Inv(world) && Mirrors()
    }

    /** The objects and maps say what `world` says; record number i of the heap is `created[i]`. */
    ghost predicate Mirrors()
      reads this, created
    {
      && world.minPort == minPort && world.maxPort == maxPort
      && (forall i, j | 0 <= i < j < |created| :: created[i] != created[j])
      && |created| == |world.heap|
      && (forall i | 0 <= i < |created| :: created[i].Value() == world.heap[i])
      && names.Keys == world.names.Keys
      && (forall k | k in names :: world.names[k] < |created| && names[k] == created[world.names[k]])
      && ports.Keys == world.ports.Keys
      && (forall p | p in ports :: world.ports[p] < |created| && ports[p] == created[world.ports[p]])
    }

    constructor (minPort: int, maxPort: int)
      ensures Valid() && world == Init(minPort, maxPort) && created == []
    {
      this.minPort, this.maxPort := minPort, maxPort;
      names, ports := map[], map[];
      created, world := [], Init(minPort, maxPort);
    }

    /** Records are only ever added, and only ones created by this very call. */
    twostate predicate OnlyGrows()
      reads this
    {
      && old(created) <= created
      && forall i | |old(created)| <= i < |created| :: fresh(created[i])
    }

    method AllocatePort(who: Ident, clientPort: int, now: int) returns (r: Option<Record>)
      requires Valid()
      modifies this, created
      ensures Valid() && OnlyGrows()
      ensures (world, r) == PortModel.AllocatePort(old(world), who, clientPort, now)
      ensures created == old(created) || (Key(who) in names && created == old(created) + [names[Key(who)]])
    {
      hide Inv;
      if Key(who) in names {
        r := Reallocate(who, clientPort, now);
        return;
      }
      var port := minPort;
      while port <= maxPort
        invariant FirstFree(world.ports, minPort, maxPort) == FirstFree(world.ports, port, maxPort)
      {
        if port !in ports {
          var rec := NewRecord(who, clientPort, port, now);
          assert PortModel.AllocatePort(world, who, clientPort, now) == (Insert(world, rec), Some(rec));
          r := AddRecord(rec);
          return;
        }
        port := port + 1;
      }
      port := minPort;
      while port <= maxPort
        invariant FirstFreed(world, minPort, maxPort) == FirstFreed(world, port, maxPort)
      {
        if port in ports && ports[port].status == Freed {
          assert HoldsFreed(world, port);
          var rec := NewRecord(who, clientPort, port, now);
          assert PortModel.AllocatePort(world, who, clientPort, now) == (Insert(world, rec), Some(rec));
          r := AddRecord(rec);
          return;
        }
        port := port + 1;
      }
      r := None;
    }

    method Reallocate(who: Ident, clientPort: int, now: int) returns (r: Option<Record>)
      requires Valid() && Key(who) in names
      modifies created, `world
      ensures Valid() && created == old(created)
      ensures (world, r) == PortModel.AllocatePort(old(world), who, clientPort, now)
    {
      hide Inv;
      var alloc := names[Key(who)];
      alloc.clientPort := clientPort;
      alloc.status := Allocated;
      alloc.allocTime := Some(now);
      alloc.startTime := None;
      world := PortModel.AllocatePort(world, who, clientPort, now).0;
      r := Some(alloc.Value());
    }

    method AddRecord(rec: Record) returns (r: Option<Record>)
      requires Mirrors()
      modifies this
      ensures Mirrors() && OnlyGrows()
      ensures world == Insert(old(world), rec) && r == Some(rec)
      ensures created == old(created) + [names[Key(rec.who)]]
    {
      var alloc := new PortAllocation(rec);
      names := names[Key(rec.who) := alloc];
      ports := ports[rec.mappingPort := alloc];
      created, world := created + [alloc], Insert(world, rec);
      r := Some(rec);
    }

    /** The pointer or the error the specification names. */
    ghost predicate Returns(r: Result<PortAllocation, ConnectError>, spec: Result<nat, ConnectError>)
      reads this
    {
      match spec
      case Ok(id) => id < |created| && r == Ok(created[id])
      case Err(e) => r == Err(e)
    }

    method OnConnected(who: Ident, clientPort: int, mappingPort: int, now: int)
      returns (r: Result<PortAllocation, ConnectError>)
      requires Valid()
      modifies this, created
      ensures Valid() && OnlyGrows()
      ensures world == PortModel.OnConnected(old(world), who, clientPort, mappingPort, now).0
      ensures Returns(r, PortModel.OnConnected(old(world), who, clientPort, mappingPort, now).1)
      ensures created == old(created) || (r.Ok? && created == old(created) + [r.value])
    {
      if Identified(who) {
        r := ApplyNew(who, clientPort, mappingPort, now);
      } else {
        r := ApplyOld(clientPort, mappingPort, now);
      }
    }

    method ApplyNew(who: Ident, clientPort: int, mappingPort: int, now: int)
      returns (r: Result<PortAllocation, ConnectError>)
      requires Valid()
      modifies this, created
      ensures Valid() && OnlyGrows()
      ensures world == PortModel.ApplyNew(old(world), who, clientPort, mappingPort, now).0
      ensures Returns(r, PortModel.ApplyNew(old(world), who, clientPort, mappingPort, now).1)
      ensures created == old(created) || (r.Ok? && created == old(created) + [r.value])
    {
      hide Inv;
      var key := Key(who);
      if key in names {
        var alloc := names[key];
        if clientPort != alloc.clientPort {
          r := Err(ClientPortConflict);
        } else if mappingPort != alloc.mappingPort {
          r := Err(MappingPortConflict);
        } else {
          alloc.status := Connected;
          alloc.startTime := Some(now);
          world := PortModel.ApplyNew(world, who, clientPort, mappingPort, now).0;
          r := Ok(alloc);
        }
      } else if mappingPort in ports {
        r := Err(AlreadyAllocated);
      } else {
        var rec := Record(who, clientPort, mappingPort, Connected, Some(now), Some(now));
        assert PortModel.ApplyNew(world, who, clientPort, mappingPort, now).0 == Insert(world, rec);
        var _ := AddRecord(rec);
        r := Ok(names[key]);
      }
    }

    method ApplyOld(clientPort: int, mappingPort: int, now: int) returns (r: Result<PortAllocation, ConnectError>)
      requires Valid()
      modifies created, `world
      ensures Valid() && created == old(created)
      ensures world == PortModel.ApplyOld(old(world), clientPort, mappingPort, now).0
      ensures Returns(r, PortModel.ApplyOld(old(world), clientPort, mappingPort, now).1)
    {
      hide Inv;
      if mappingPort !in ports {
        r := Err(NotExist);
        return;
      }
      var alloc := ports[mappingPort];
      if clientPort != alloc.clientPort {
        r := Err(ClientPortConflict);
      } else if alloc.status != Allocated {
        r := Err(AlreadyUsed);
      } else {
        alloc.startTime := Some(now);
        alloc.status := Connected;
        world := PortModel.ApplyOld(world, clientPort, mappingPort, now).0;
        r := Ok(alloc);
      }
    }

    method OnDisconnected(alloc: PortAllocation, ghost id: nat, now: int)
      requires Valid() && id < |created| && created[id] == alloc
      modifies alloc, `world
      ensures Valid() && created == old(created)
      ensures world == PortModel.OnDisconnected(old(world), id, now)
    {
      hide Inv;
      alloc.status := Allocated;
      alloc.allocTime := Some(now);
      alloc.startTime := None;
      world := PortModel.OnDisconnected(world, id, now);
    }

    /** One write of the status field, which is one place of the heap. */
    method SetStatus(alloc: PortAllocation, status: Status, ghost id: nat)
      requires Mirrors() && id < |created| && created[id] == alloc
      modifies alloc, `world
      ensures Mirrors() && alloc.Value() == world.heap[id]
      ensures world == Put(old(world), id, old(world).heap[id].(status := status))
    {
      alloc.status := status;
      world := Put(world, id, world.heap[id].(status := status));
    }

    method FreePort(who: Ident) returns (allocs: seq<Record>)
      requires Valid()
      modifies this, created
      ensures Valid() && created == old(created)
      ensures world == PortModel.FreePort(old(world), who)
      ensures Lists(allocs, world,
                    if IsBulk(who) then BulkIds(old(world), who.clientId) else ExactIds(old(world), Key(who)))
    {
      if IsBulk(who) {
        allocs := FreeClient(who.clientId);
      } else {
        allocs := FreeKey(who);
      }
    }

    method FreeKey(who: Ident) returns (allocs: seq<Record>)
      requires Valid() && !IsBulk(who)
      modifies this, created
      ensures Valid() && created == old(created)
      ensures world == PortModel.FreePort(old(world), who)
      ensures Lists(allocs, world, ExactIds(old(world), Key(who)))
    {
      var key := Key(who);
      ghost var w, ids := world, ExactIds(world, key);
      allocs := [];
      MarkNone(w);
      if key in names {
        var alloc := names[key];
        MarkOneMore(w, {}, w.names[key], []);
        assert ids == {} + {w.names[key]};
        SetStatus(alloc, Freed, w.names[key]);
        allocs := allocs + [alloc.Value()];
      }
      Unindex(allocs, w, ids);
    }

    method FreeClient(clientId: string) returns (allocs: seq<Record>)
      requires Valid()
      modifies created, `world
      ensures Valid() && created == old(created)
      ensures world == Mark(old(world), BulkIds(old(world), clientId))
      ensures Lists(allocs, world, BulkIds(old(world), clientId))
    {
      hide Inv, Mark, Lists, IdsOf;
      ghost var w := world;
      ghost var picked := BulkKeys(w, clientId);
      var todo := names.Keys;
      allocs := [];
      LoopStart(w, picked);
      while todo != {}
        invariant todo <= names.Keys && Mirrors()
        invariant world == Mark(w, IdsOf(w, picked - todo))
        invariant Lists(allocs, world, IdsOf(w, picked - todo))
        decreases todo
      {
        var k :| k in todo;
        var alloc := names[k];
        MarkNext(w, picked, todo, k, allocs);
        assert alloc.Value() == w.heap[w.names[k]];
        if alloc.status != Freed && alloc.who.clientId == clientId {
          SetStatus(alloc, Freed, w.names[k]);
          allocs := allocs + [alloc.Value()];
        }
        todo := todo - {k};
      }
      assert picked - todo == picked;
      assert world == PortModel.FreePort(w, Ident(clientId, "", ""));
    }

    /** The delete loop both frees share: takes each listed record's key and port out of the maps. */
    method Unindex(allocs: seq<Record>, ghost w: World, ghost ids: set<nat>)
      requires Mirrors() && Inv(w) && ids <= w.names.Values
      requires world == Mark(w, ids) && Lists(allocs, world, ids)
      modifies `names, `ports, `world
      ensures Mirrors() && Inv(world) && (forall id | id in ids :: id < |w.heap|)
      ensures world == Remove(w, ids) && Lists(allocs, world, ids)
    {
      RemoveKeepsInv(w, ids);
      ListedFields(allocs, w, ids);
      SameHeapLists(allocs, world, Remove(w, ids), ids);
      hide Inv, Lists;
      DeleteAll(allocs);
    }

    method DeleteAll(allocs: seq<Record>)
      requires Mirrors()
      modifies `names, `ports, `world
      ensures Mirrors() && world == Deleted(old(world), allocs)
    {
      ghost var before := world;
      DeletedNone(before);
      hide Deleted, Mirrors;
      for i := 0 to |allocs|
        invariant Mirrors() && world == Deleted(before, allocs[..i])
      {
        DeletedOneMore(before, allocs[..i], allocs[i]);
        assert allocs[..i + 1] == allocs[..i] + [allocs[i]];
        Delete(Key(allocs[i].who), allocs[i].mappingPort);
      }
      assert allocs[..|allocs|] == allocs;
    }

    method Delete(key: string, port: int)
      requires Mirrors()
      modifies `names, `ports, `world
      ensures Mirrors()
      ensures world == old(world).(names := old(world).names - {key}, ports := old(world).ports - {port})
    {
      names := names - {key};
      ports := ports - {port};
      world := world.(names := world.names - {key}, ports := world.ports - {port});
    }

    method FreeHangingPorts(now: int) returns (allocs: seq<Record>)
      requires Valid()
      modifies this, created
      ensures Valid() && created == old(created)
      ensures world == PortModel.FreeHangingPorts(old(world), now)
      ensures Lists(allocs, world, ExpiredIds(old(world), now))
    {
      ghost var w := world;
      allocs := MarkExpired(now);
      Unindex(allocs, w, ExpiredIds(w, now));
    }

    method MarkExpired(now: int) returns (allocs: seq<Record>)
      requires Valid()
      modifies created, `world
      ensures Mirrors() && created == old(created)
      ensures world == Mark(old(world), ExpiredIds(old(world), now))
      ensures Lists(allocs, world, ExpiredIds(old(world), now))
    {
      hide Mark, Lists, IdsOf;
      ghost var w := world;
      ghost var picked := ExpiredKeys(w, now);
      var todo := names.Keys;
      allocs := [];
      LoopStart(w, picked);
      while todo != {}
        invariant todo <= names.Keys && Mirrors()
        invariant world == Mark(w, IdsOf(w, picked - todo))
        invariant Lists(allocs, world, IdsOf(w, picked - todo))
        decreases todo
      {
        var k :| k in todo;
        var alloc := names[k];
        MarkNext(w, picked, todo, k, allocs);
        assert alloc.Value() == w.heap[w.names[k]];
        if alloc.status == Allocated && now - alloc.allocTime.value > HOLD {
          SetStatus(alloc, Freed, w.names[k]);
          allocs := allocs + [alloc.Value()];
        }
        todo := todo - {k};
      }
      assert picked - todo == picked;
    }

    method LookupPort(who: Ident) returns (r: Option<PortAllocation>)
      requires Valid()
      ensures r == if Key(who) in world.names && world.heap[world.names[Key(who)]].status != Freed
                   then Some(created[world.names[Key(who)]]) else None
    {
      if Key(who) in names {
        var alloc := names[Key(who)];
        if alloc.status == Freed {
          return None;
        }
        return Some(alloc);
      }
      return None;
    }

    /** An empty field of the query matches everything. */
    predicate Matches(who: Ident, query: Ident) {
      && (query.clientId == "" || query.clientId == who.clientId)
      && (query.userId == "" || query.userId == who.userId)
      && (query.appName == "" || query.appName == who.appName)
    }

    ghost function MatchingIds(query: Ident): set<nat>
      requires Valid()
      reads this, created
    {
      set k | k in world.names && Matches(world.heap[world.names[k]].who, query) :: world.names[k]
    }

    lemma MatchingMeans(query: Ident)
      requires Valid()
      ensures forall id :: id in MatchingIds(query) <==>
                && id in world.names.Values
                && (query.clientId != "" ==> created[id].who.clientId == query.clientId)
                && (query.userId != "" ==> created[id].who.userId == query.userId)
                && (query.appName != "" ==> created[id].who.appName == query.appName)
    {
      forall id | id in world.names.Values
        ensures id < |created| && (id in MatchingIds(query) <==> Matches(created[id].who, query))
      {
        var k :| k in world.names && world.names[k] == id;
        assert created[id].Value() == world.heap[id];
      }
    }

    /** Lists exactly the indexed records that match, each once; a full query finds at most one. */
    method QueryPorts(query: Ident) returns (found: seq<Record>)
      requires Valid()
      ensures Lists(found, world, MatchingIds(query))
      ensures forall id :: id in MatchingIds(query) <==>
                && id in world.names.Values
                && (query.clientId != "" ==> created[id].who.clientId == query.clientId)
                && (query.userId != "" ==> created[id].who.userId == query.userId)
                && (query.appName != "" ==> created[id].who.appName == query.appName)
      ensures Identified(query) ==> |found| <= 1
    {
      ghost var picked := set k | k in world.names && Matches(world.heap[world.names[k]].who, query);
      var todo := names.Keys;
      found := [];
      while todo != {}
        invariant todo <= names.Keys
        invariant Lists(found, world, IdsOf(world, picked - todo))
        decreases todo
      {
        var k :| k in todo;
        var alloc := names[k];
        NextIds(world, picked, todo, k);
        ListOneMore(found, world, IdsOf(world, picked - todo), world.names[k]);
        assert alloc.Value() == world.heap[world.names[k]];
        if Matches(alloc.who, query) {
          found := found + [alloc.Value()];
        }
        todo := todo - {k};
      }
      assert IdsOf(world, picked - todo) == MatchingIds(query);
      MatchingMeans(query);
      if Identified(query) {
        assert forall k | k in picked :: k == Key(query);
        AtMostOne(IdsOf(world, picked - todo), world, Key(query));
      }
    }
  }
}
