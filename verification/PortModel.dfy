/**
 The port allocator as a function on values.

 A `World` holds every record the allocator ever created, in creation order; a
 record's identity is its position in `heap`, which is what a Go pointer to it is
 in the program. `names` and `ports` are the two indexes. Records that have left
 both indexes stay in `heap`, because sessions keep pointers to them.
 */
module PortModel {
  import opened Wrappers

  datatype Status = Freed | Allocated | Connected

  /** Times and durations are in nanoseconds, as in Go. */
  const MINUTE := 60_000_000_000
  const HOLD := 10 * MINUTE

  /** The identity a client sends: client machine, user and application. */
  datatype Ident = Ident(clientId: string, userId: string, appName: string)

  function Key(who: Ident): string {
    who.clientId + "-" + who.userId + "-" + who.appName
  }

  datatype Record = Record(
    who: Ident, clientPort: int, mappingPort: int,
    status: Status, allocTime: Option<int>, startTime: Option<int>)

  datatype World = World(
    minPort: int, maxPort: int,
    heap: seq<Record>, names: map<string, nat>, ports: map<int, nat>)

  function Init(minPort: int, maxPort: int): World {
    World(minPort, maxPort, [], map[], map[])
  }

  /**
   What holds on every run: the indexes point at records, `names` files a record
   under its own key, `ports` under its own port, and the port index is backed by
   the name index. AllocTime is never nil, so the sweep may dereference it.
   */
  ghost predicate Inv(w: World) {
    && (forall id | 0 <= id < |w.heap| :: w.heap[id].allocTime.Some?)
    && (forall k | k in w.names :: w.names[k] < |w.heap| && Key(w.heap[w.names[k]].who) == k)
    && (forall p | p in w.ports :: PortBacked(w, p))
  }

  ghost predicate PortBacked(w: World, p: int)
    requires p in w.ports
  {
    && w.ports[p] < |w.heap|
    && w.heap[w.ports[p]].mappingPort == p
    && var k := Key(w.heap[w.ports[p]].who);
    k in w.names && w.names[k] == w.ports[p]
  }

  function Put(w: World, id: nat, rec: Record): World
    requires id < |w.heap|
  {
    w.(heap := w.heap[id := rec])
  }

  /** A new record enters the heap and both indexes. */
  function Insert(w: World, rec: Record): World {
    w.(heap := w.heap + [rec],
       names := w.names[Key(rec.who) := |w.heap|],
       ports := w.ports[rec.mappingPort := |w.heap|])
  }

  /** Marks the records Freed. */
  function Mark(w: World, ids: set<nat>): World {
    w.(heap := seq(|w.heap|, i requires 0 <= i < |w.heap| =>
                 if i in ids then w.heap[i].(status := Freed) else w.heap[i]))
  }

  /** Marks the records Freed and takes their key and their port out of the indexes. */
  function Remove(w: World, ids: set<nat>): World
    requires forall id | id in ids :: id < |w.heap|
  {
    Mark(w, ids).(names := w.names - (set id | id in ids :: Key(w.heap[id].who)),
                  ports := w.ports - (set id | id in ids :: w.heap[id].mappingPort))
  }

  /** The least port in [lo, hi] that no record holds. */
  function FirstFree(ports: map<int, nat>, lo: int, hi: int): (r: Option<int>)
    ensures r.Some? ==> lo <= r.value <= hi && r.value !in ports
    ensures r.Some? ==> forall q | lo <= q < r.value :: q in ports
    ensures r.None? ==> forall q | lo <= q <= hi :: q in ports
    decreases hi - lo
  {
    if lo > hi then None
    else if lo !in ports then Some(lo)
    else FirstFree(ports, lo + 1, hi)
  }

  predicate HoldsFreed(w: World, p: int)
    requires Inv(w)
  {
    p in w.ports && w.heap[w.ports[p]].status == Freed
  }

  /** The least port in [lo, hi] whose record is marked Freed. */
  function FirstFreed(w: World, lo: int, hi: int): (r: Option<int>)
    requires Inv(w)
    ensures r.Some? ==> lo <= r.value <= hi && HoldsFreed(w, r.value)
    ensures r.Some? ==> forall q | lo <= q < r.value :: !HoldsFreed(w, q)
    ensures r.None? ==> forall q | lo <= q <= hi :: !HoldsFreed(w, q)
    decreases hi - lo
  {
    if lo > hi then None
    else if HoldsFreed(w, lo) then Some(lo)
    else FirstFreed(w, lo + 1, hi)
  }

  function NewRecord(who: Ident, clientPort: int, port: int, now: int): Record {
    Record(who, clientPort, port, Allocated, Some(now), None)
  }

  /** server/port_allocator.go: AllocatePort. None is the "no available ports" error. */
  function AllocatePort(w: World, who: Ident, clientPort: int, now: int): (r: (World, Option<Record>))
    requires Inv(w)
    ensures Inv(r.0)
  {
    var key := Key(who);
    if key in w.names then
      var id := w.names[key];
      var rec := w.heap[id].(clientPort := clientPort, status := Allocated, allocTime := Some(now), startTime := None);
      (Put(w, id, rec), Some(rec))
    else
      match FirstFree(w.ports, w.minPort, w.maxPort)
      case Some(p) =>
        var rec := NewRecord(who, clientPort, p, now);
        (Insert(w, rec), Some(rec))
      case None =>
        match FirstFreed(w, w.minPort, w.maxPort)
        case Some(p) =>
          var rec := NewRecord(who, clientPort, p, now);
          (Insert(w, rec), Some(rec))
        case None => (w, None)
  }

  datatype ConnectError =
    | ClientPortConflict | MappingPortConflict | AlreadyAllocated | NotExist | AlreadyUsed

  /** Clients that identify themselves: take over the key's record, or claim a port nobody holds. */
  function ApplyNew(w: World, who: Ident, clientPort: int, mappingPort: int, now: int)
    : (r: (World, Result<nat, ConnectError>))
    requires Inv(w)
    ensures Inv(r.0)
    ensures r.1.Ok? ==> r.1.value < |r.0.heap|
  {
    var key := Key(who);
    if key in w.names then
      var id := w.names[key];
      if clientPort != w.heap[id].clientPort then (w, Err(ClientPortConflict))
      else if mappingPort != w.heap[id].mappingPort then (w, Err(MappingPortConflict))
      else (Put(w, id, w.heap[id].(status := Connected, startTime := Some(now))), Ok(id))
    else if mappingPort in w.ports then (w, Err(AlreadyAllocated))
    else (Insert(w, Record(who, clientPort, mappingPort, Connected, Some(now), Some(now))), Ok(|w.heap|))
  }

  /** Old clients send only the two ports. */
  function ApplyOld(w: World, clientPort: int, mappingPort: int, now: int)
    : (r: (World, Result<nat, ConnectError>))
    requires Inv(w)
    ensures Inv(r.0)
    ensures r.1.Ok? ==> r.1.value < |r.0.heap|
  {
    if mappingPort !in w.ports then (w, Err(NotExist))
    else
      var id := w.ports[mappingPort];
      if clientPort != w.heap[id].clientPort then (w, Err(ClientPortConflict))
      else if w.heap[id].status != Allocated then (w, Err(AlreadyUsed))
      else (Put(w, id, w.heap[id].(status := Connected, startTime := Some(now))), Ok(id))
  }

  predicate Identified(who: Ident) {
    who.clientId != "" && who.userId != "" && who.appName != ""
  }

  function OnConnected(w: World, who: Ident, clientPort: int, mappingPort: int, now: int)
    : (r: (World, Result<nat, ConnectError>))
    requires Inv(w)
    ensures Inv(r.0)
    ensures r.1.Ok? ==> r.1.value < |r.0.heap|
  {
    if Identified(who) then ApplyNew(w, who, clientPort, mappingPort, now)
    else ApplyOld(w, clientPort, mappingPort, now)
  }

  function OnDisconnected(w: World, id: nat, now: int): (w': World)
    requires Inv(w)
    ensures Inv(w')
  {
    if id < |w.heap| then
      Put(w, id, w.heap[id].(status := Allocated, allocTime := Some(now), startTime := None))
    else w
  }

  /** The last write of a session, done through its pointer without the lock. */
  function EndSession(w: World, id: nat): (w': World)
    requires Inv(w)
    ensures Inv(w')
  {
    if id < |w.heap| then Put(w, id, w.heap[id].(status := Allocated)) else w
  }

  predicate IsBulk(who: Ident) {
    who.appName == "" || who.userId == ""
  }

  /** The records a bulk free touches: every indexed record of the client not yet Freed. */
  function BulkIds(w: World, clientId: string): set<nat>
    requires Inv(w)
  {
    IdsOf(w, BulkKeys(w, clientId))
  }

  function BulkKeys(w: World, clientId: string): set<string>
    requires Inv(w)
  {
    set k | k in w.names && w.heap[w.names[k]].status != Freed && w.heap[w.names[k]].who.clientId == clientId
  }

  function IdsOf(w: World, keys: set<string>): set<nat> {
    set k | k in keys && k in w.names :: w.names[k]
  }

  function ExactIds(w: World, key: string): set<nat> {
    if key in w.names then {w.names[key]} else {}
  }

  function FreePort(w: World, who: Ident): (w': World)
    requires Inv(w)
    ensures Inv(w')
  {
    if IsBulk(who) then Mark(w, BulkIds(w, who.clientId))
    else RemoveKeepsInv(w, ExactIds(w, Key(who))); Remove(w, ExactIds(w, Key(who)))
  }

  predicate Expired(rec: Record, now: int) {
    rec.status == Allocated && rec.allocTime.Some? && now - rec.allocTime.value > HOLD
  }

  function ExpiredIds(w: World, now: int): set<nat>
    requires Inv(w)
  {
    IdsOf(w, ExpiredKeys(w, now))
  }

  function ExpiredKeys(w: World, now: int): set<string>
    requires Inv(w)
  {
    set k | k in w.names && Expired(w.heap[w.names[k]], now)
  }

  function FreeHangingPorts(w: World, now: int): (w': World)
    requires Inv(w)
    ensures Inv(w')
  {
    RemoveKeepsInv(w, ExpiredIds(w, now));
    Remove(w, ExpiredIds(w, now))
  }

  lemma RemoveKeepsInv(w: World, ids: set<nat>)
    requires Inv(w) && ids <= w.names.Values
    ensures forall id | id in ids :: id < |w.heap|
    ensures Inv(Remove(w, ids))
  {
    var w' := Remove(w, ids);
    forall p | p in w'.ports ensures PortBacked(w', p) {
      assert PortBacked(w, p);
      ghost var k := Key(w.heap[w.ports[p]].who);
      assert forall id | id in ids && Key(w.heap[id].who) == k :: id == w.ports[p];
    }
  }
}
