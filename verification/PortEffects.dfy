/**
 What each request does to the records, field by field, and what it leaves alone; and
 what follows for a request nobody comes back to.
 */
module PortEffects {
  import opened Wrappers
  import opened PortModel
  import opened PortRuns
  import opened PortLifetime

  /** All records but this one are as they were, and records are only added at the end. */
  ghost predicate OnlyRecord(w: World, w': World, id: nat) {
    && |w.heap| <= |w'.heap|
    && forall i | 0 <= i < |w.heap| && i != id :: w'.heap[i] == w.heap[i]
  }

  // ---------- Allocation ----------

  /**
   Whoever asks for a port gets a record that waits for its tunnel, Allocated at the
   time of the request with the client port of the request and never started; a key
   that was known keeps its record, a new key gets a new one of its own.
   */
  lemma AllocationWaits(w: World, who: Ident, clientPort: int, now: int)
    requires Inv(w)
    ensures var (w', r) := AllocatePort(w, who, clientPort, now);
            && (r.None? ==> w' == w)
            && (r.Some? ==>
                  var rec, key := r.value, Key(who);
                  && key in w'.names && Waiting(w', w'.names[key], rec, now)
                  && rec.clientPort == clientPort && rec.startTime == None
                  && OnlyRecord(w, w', w'.names[key])
                  && (if key in w.names then
                        && w'.names == w.names && w'.ports == w.ports && |w'.heap| == |w.heap|
                        && rec.who == w.heap[w.names[key]].who && rec.mappingPort == w.heap[w.names[key]].mappingPort
                      else
                        && rec.who == who && w'.names == w.names[key := |w.heap|]
                        && w'.ports == w.ports[rec.mappingPort := |w.heap|]))
  {
    if Key(who) !in w.names {
      NewKeyWaits(w, who, clientPort, now);
    }
    hide Insert, FirstFree, FirstFreed, NewRecord;
  }

  lemma NewKeyWaits(w: World, who: Ident, clientPort: int, now: int)
    requires Inv(w) && Key(who) !in w.names
    ensures var (w', r) := AllocatePort(w, who, clientPort, now);
            && (r.None? ==> w' == w)
            && (r.Some? ==>
                  var rec := r.value;
                  && w'.names == w.names[Key(who) := |w.heap|] && w'.ports == w.ports[rec.mappingPort := |w.heap|]
                  && rec.who == who && rec.clientPort == clientPort && rec.startTime == None
                  && Waiting(w', |w.heap|, rec, now) && OnlyRecord(w, w', |w.heap|))
  {
    hide Inv, FirstFree, FirstFreed;
  }

  /**
   The port a new key gets, on any run: the least one of the range that nobody holds; if
   all are held, the least one whose record is Freed; and none if no record is.
   */
  lemma PortForNewKey(w: World, who: Ident, clientPort: int, now: int)
    requires Inv(w) && Key(who) !in w.names
    ensures var r := AllocatePort(w, who, clientPort, now).1;
            var allHeld := forall q | w.minPort <= q <= w.maxPort :: q in w.ports;
            && (r.None? <==> allHeld && forall q | w.minPort <= q <= w.maxPort :: !HeldFreed(w, q))
            && (r.Some? ==>
                  var p := r.value.mappingPort;
                  && w.minPort <= p <= w.maxPort
                  && (if allHeld then HeldFreed(w, p) && forall q | w.minPort <= q < p :: !HeldFreed(w, q)
                      else p !in w.ports && forall q | w.minPort <= q < p :: q in w.ports))
  {
    forall q | q in w.ports ensures HoldsFreed(w, q) <==> HeldFreed(w, q) {
      assert PortBacked(w, q);
    }
  }

  ghost predicate HeldFreed(w: World, p: int) {
    p in w.ports && w.ports[p] < |w.heap| && w.heap[w.ports[p]].status == Freed
  }

  /** A port that was asked for and that nobody touches again is gone fifteen minutes after the request. */
  lemma RequestIsFreed(w: World, who: Ident, clientPort: int, now: int, ops: seq<Op>, start: int)
    requires Inv(w) && AllocatePort(w, who, clientPort, now).1.Some? && start <= now
    requires IdealTicker(ops, start, now + 15 * MINUTE)
    requires var (w', r) := AllocatePort(w, who, clientPort, now);
             Key(who) in w'.names && Untouched(ops, w'.names[Key(who)], r.value)
    ensures var (w', r) := AllocatePort(w, who, clientPort, now);
            Gone(Run(w', ops), w'.names[Key(who)], r.value)
  {
    AllocationWaits(w, who, clientPort, now);
    var (w', r) := AllocatePort(w, who, clientPort, now);
    hide AllocatePort;
    GoneWithinFifteenMinutes(w', ops, w'.names[Key(who)], r.value, now, start);
  }

  /** And until ten minutes after the request no sweep takes it. */
  lemma RequestIsKept(w: World, who: Ident, clientPort: int, now: int, ops: seq<Op>)
    requires Inv(w) && AllocatePort(w, who, clientPort, now).1.Some?
    requires var (w', r) := AllocatePort(w, who, clientPort, now);
             Key(who) in w'.names && Untouched(ops, w'.names[Key(who)], r.value)
    requires forall i | 0 <= i < |ops| && ops[i].SweepOp? :: ops[i].now <= now + 10 * MINUTE
    ensures var (w', r) := AllocatePort(w, who, clientPort, now);
            Waiting(Run(w', ops), w'.names[Key(who)], r.value, now)
  {
    AllocationWaits(w, who, clientPort, now);
    var (w', r) := AllocatePort(w, who, clientPort, now);
    hide AllocatePort;
    KeptForTenMinutes(w', ops, w'.names[Key(who)], r.value, now);
  }

  /**
   The client then connects on the port it was given, whether it identifies itself or not,
   in that order and no other.
   */
  lemma RequestIsHonoured(w: World, who: Ident, clientPort: int, now: int, header: Ident, later: int)
    requires OneToOne(w) && AllocatePort(w, who, clientPort, now).1.Some?
    requires !Recycles(w, AllocateOp(who, clientPort, now))
    requires header == who || header.clientId == "" || header.userId == "" || header.appName == ""
    ensures var (w', r) := AllocatePort(w, who, clientPort, now);
            && Key(who) in w'.names
            && OnConnected(w', header, clientPort, r.value.mappingPort, later).1 == Ok(w'.names[Key(who)])
  {
    AllocationWaits(w, who, clientPort, now);
    OneToOneStep(w, AllocateOp(who, clientPort, now));
    var (w', r) := AllocatePort(w, who, clientPort, now);
    assert w' == Next(w, AllocateOp(who, clientPort, now));
    hide AllocatePort, Next;
    assert NameBacked(w', Key(who));
  }

  // ---------- Connecting ----------

  /** A tunnel that comes up: the record it is given, and what else changed. */
  ghost predicate Taken(w: World, w': World, id: nat, who: Ident, clientPort: int, mappingPort: int, now: int) {
    && id < |w'.heap| && OnlyRecord(w, w', id)
    && var rec := w'.heap[id];
    && rec.status == Connected && rec.startTime == Some(now)
    && rec.clientPort == clientPort && rec.mappingPort == mappingPort
    && (if id < |w.heap| then
          && |w'.heap| == |w.heap| && w'.names == w.names && w'.ports == w.ports
          && rec.who == w.heap[id].who && rec.allocTime == w.heap[id].allocTime
        else
          && id == |w.heap| && |w'.heap| == id + 1 && rec.who == who && rec.allocTime == Some(now)
          && w'.names == w.names[Key(who) := id] && w'.ports == w.ports[mappingPort := id])
  }

  /** Why a client that identifies itself is refused. */
  ghost predicate RefusedByName(w: World, who: Ident, clientPort: int, mappingPort: int, e: ConnectError)
    requires Inv(w)
  {
    if Key(who) in w.names then
      var rec := w.heap[w.names[Key(who)]];
      && (e == ClientPortConflict <==> rec.clientPort != clientPort)
      && (e == MappingPortConflict <==> rec.clientPort == clientPort && rec.mappingPort != mappingPort)
      && (e == ClientPortConflict || e == MappingPortConflict)
    else e == AlreadyAllocated && mappingPort in w.ports
  }

  /** Why a client that does not is. */
  ghost predicate RefusedByPort(w: World, clientPort: int, mappingPort: int, e: ConnectError)
    requires Inv(w)
  {
    if mappingPort !in w.ports then e == NotExist
    else
      && PortBacked(w, mappingPort)
      && var rec := w.heap[w.ports[mappingPort]];
      && (e == ClientPortConflict <==> rec.clientPort != clientPort)
      && (e == AlreadyUsed <==> rec.clientPort == clientPort && rec.status != Allocated)
      && (e == ClientPortConflict || e == AlreadyUsed)
  }

  /**
   With all three names the client is looked up by key, else by port. It is given its
   record, Connected from now on with the two ports it asked for, or is refused for a
   reason that is true, and then nothing has changed.
   */
  lemma ConnectEffect(w: World, who: Ident, clientPort: int, mappingPort: int, now: int)
    requires Inv(w)
    ensures var (w', r) := OnConnected(w, who, clientPort, mappingPort, now);
            var named := who.clientId != "" && who.userId != "" && who.appName != "";
            match r
            case Ok(id) =>
              && Taken(w, w', id, who, clientPort, mappingPort, now)
              && (if named then Key(who) in w'.names && w'.names[Key(who)] == id
                  else mappingPort in w.ports && w.ports[mappingPort] == id)
            case Err(e) =>
              && w' == w
              && if named then RefusedByName(w, who, clientPort, mappingPort, e)
                 else RefusedByPort(w, clientPort, mappingPort, e)
  {
    if Identified(who) {
      ConnectByName(w, who, clientPort, mappingPort, now);
    } else {
      ConnectByPort(w, who, clientPort, mappingPort, now);
    }
    hide ApplyNew, ApplyOld, Taken, RefusedByName, RefusedByPort, Inv;
  }

  lemma ConnectByName(w: World, who: Ident, clientPort: int, mappingPort: int, now: int)
    requires Inv(w)
    ensures var (w', r) := ApplyNew(w, who, clientPort, mappingPort, now);
            match r
            case Ok(id) =>
              Taken(w, w', id, who, clientPort, mappingPort, now) && Key(who) in w'.names && w'.names[Key(who)] == id
            case Err(e) => w' == w && RefusedByName(w, who, clientPort, mappingPort, e)
  {
  }

  lemma ConnectByPort(w: World, who: Ident, clientPort: int, mappingPort: int, now: int)
    requires Inv(w)
    ensures var (w', r) := ApplyOld(w, clientPort, mappingPort, now);
            match r
            case Ok(id) =>
              Taken(w, w', id, who, clientPort, mappingPort, now) && mappingPort in w.ports
                && w.ports[mappingPort] == id
            case Err(e) => w' == w && RefusedByPort(w, clientPort, mappingPort, e)
  {
    if mappingPort in w.ports {
      assert PortBacked(w, mappingPort);
    }
  }

  /** OnDisconnected would put a record back to waiting, as if its port had just been asked for. */
  lemma DisconnectedWaits(w: World, id: nat, now: int)
    requires Inv(w) && Indexed(w, id)
    ensures var w' := OnDisconnected(w, id, now);
            && id < |w'.heap| && Waiting(w', id, w'.heap[id], now) && OnlyRecord(w, w', id)
            && w'.heap[id].startTime == None && w'.heap[id].clientPort == w.heap[id].clientPort
            && w'.names == w.names && w'.ports == w.ports
  {
  }

  // ---------- Freeing ----------

  /** The records are Freed and otherwise as they were; all others are as they were. */
  ghost predicate OnlyFreed(w: World, w': World, ids: set<nat>) {
    && |w'.heap| == |w.heap|
    && forall i | 0 <= i < |w.heap| :: w'.heap[i] == if i in ids then w.heap[i].(status := Freed) else w.heap[i]
  }

  /**
   Without a user or an application all of the client's indexed records are marked and
   stay in both maps; with both, the one record of the key is marked and leaves both.
   */
  lemma FreeEffect(w: World, who: Ident)
    requires Inv(w)
    ensures var w' := FreePort(w, who);
            if who.userId == "" || who.appName == "" then
              && w'.names == w.names && w'.ports == w.ports
              && OnlyFreed(w, w', set k | k in w.names && w.heap[w.names[k]].who.clientId == who.clientId :: w.names[k])
            else if Key(who) in w.names then
              var id := w.names[Key(who)];
              && w'.names == w.names - {Key(who)} && w'.ports == w.ports - {w.heap[id].mappingPort}
              && OnlyFreed(w, w', {id})
            else w' == w
  {
    if IsBulk(who) {
      BulkFreeEffect(w, who.clientId);
    } else if Key(who) in w.names {
      var ids := {w.names[Key(who)]};
      assert (set i | i in ids :: Key(w.heap[i].who)) == {Key(who)};
      assert (set i | i in ids :: w.heap[i].mappingPort) == {w.heap[w.names[Key(who)]].mappingPort};
    } else {
      FreeNothing(w);
    }
  }

  lemma FreeNothing(w: World)
    ensures Remove(w, {}) == w
  {
    assert Mark(w, {}).heap == w.heap;
    assert Remove(w, {}).names == w.names && Remove(w, {}).ports == w.ports;
  }

  lemma BulkFreeEffect(w: World, clientId: string)
    requires Inv(w)
    ensures OnlyFreed(w, Mark(w, BulkIds(w, clientId)),
                      set k | k in w.names && w.heap[w.names[k]].who.clientId == clientId :: w.names[k])
  {
    var ids := set k | k in w.names && w.heap[w.names[k]].who.clientId == clientId :: w.names[k];
    forall i | i in ids ensures i in BulkIds(w, clientId) || w.heap[i].status == Freed {
      var k :| k in w.names && w.names[k] == i && w.heap[i].who.clientId == clientId;
      assert k in BulkKeys(w, clientId) <==> w.heap[i].status != Freed;
    }
    forall i | i in BulkIds(w, clientId) ensures i in ids {
    }
  }

  /** A bulk free reports exactly the records it changed. */
  lemma BulkFreeReports(w: World, clientId: string, id: nat)
    requires Inv(w) && id < |w.heap|
    ensures id in BulkIds(w, clientId) <==>
              id in w.names.Values && w.heap[id].status != Freed && w.heap[id].who.clientId == clientId
  {
    if id in w.names.Values {
      var k :| k in w.names && w.names[k] == id;
      assert k in BulkKeys(w, clientId) <==> w.heap[id].status != Freed && w.heap[id].who.clientId == clientId;
    }
  }

  /** What a sweep takes is Freed, so that a session still holding it can tell. */
  lemma SweptIsFreed(w: World, now: int, key: string)
    requires Inv(w) && key in w.names && key !in FreeHangingPorts(w, now).names
    ensures FreeHangingPorts(w, now).heap[w.names[key]] == w.heap[w.names[key]].(status := Freed)
  {
    StickyStep(w, SweepOp(now), key);
    assert key in ExpiredKeys(w, now);
    assert w.names[key] in ExpiredIds(w, now);
  }
}
