/** What becomes of a record over time: retention while it is indexed, and isolation once it is not. */
module PortLifetime {
  import opened Wrappers
  import opened PortModel
  import opened PortRuns

  // ---------- Detached records ----------

  /** The record is in neither index; only a session's pointer can still reach it. */
  ghost predicate Detached(w: World, id: nat) {
    id < |w.heap| && id !in w.names.Values && id !in w.ports.Values
  }

  /** Freeing a key exactly detaches its record, whatever happened before. */
  lemma ExactFreeDetaches(w: World, who: Ident)
    requires Inv(w) && !IsBulk(who) && Key(who) in w.names
    ensures Detached(FreePort(w, who), w.names[Key(who)])
  {
    RemoveDetaches(w, ExactIds(w, Key(who)), w.names[Key(who)]);
  }

  lemma RemoveDetaches(w: World, ids: set<nat>, id: nat)
    requires Inv(w) && ids <= w.names.Values && id in ids
    ensures forall i | i in ids :: i < |w.heap|
    ensures Detached(Remove(w, ids), id)
    ensures Key(w.heap[id].who) !in Remove(w, ids).names
  {
    var w' := Remove(w, ids);
    forall p | p in w'.ports ensures w'.ports[p] != id {
      assert PortBacked(w, p);
    }
  }

  lemma DetachedStep(w: World, op: Op, id: nat)
    requires Inv(w) && Detached(w, id)
    ensures Detached(Next(w, op), id)
  {
    match op {
      case AllocateOp(who, clientPort, now) => DetachedAllocate(w, who, clientPort, now, id);
      case ConnectOp(who, clientPort, mappingPort, now) => DetachedConnect(w, who, clientPort, mappingPort, now, id);
      case _ =>
    }
    hide AllocatePort, OnConnected, Inv;
  }

  lemma DetachedAllocate(w: World, who: Ident, clientPort: int, now: int, id: nat)
    requires Inv(w) && Detached(w, id)
    ensures Detached(AllocatePort(w, who, clientPort, now).0, id)
  {
  }

  lemma DetachedConnect(w: World, who: Ident, clientPort: int, mappingPort: int, now: int, id: nat)
    requires Inv(w) && Detached(w, id)
    ensures Detached(OnConnected(w, who, clientPort, mappingPort, now).0, id)
  {
  }

  lemma {:induction false} DetachedForever(w: World, ops: seq<Op>, id: nat)
    requires Inv(w) && Detached(w, id)
    ensures Detached(Run(w, ops), id)
    decreases |ops|
  {
    if ops != [] {
      DetachedStep(w, ops[0], id);
      DetachedForever(Next(w, ops[0]), ops[1..], id);
    }
  }

  /** What a client or an operator can see: the two indexes with the records they point at. */
  function NamesView(w: World): map<string, Record>
    requires Inv(w)
  {
    map k | k in w.names :: w.heap[w.names[k]]
  }

  function PortsView(w: World): map<int, Record>
    requires Inv(w)
  {
    map p | p in w.ports :: (assert PortBacked(w, p); w.heap[w.ports[p]])
  }

  /** The two worlds differ at most in one detached record. */
  ghost predicate SameBut(w: World, v: World, id: nat) {
    && Detached(w, id) && Detached(v, id)
    && w.minPort == v.minPort && w.maxPort == v.maxPort && w.names == v.names && w.ports == v.ports
    && |w.heap| == |v.heap|
    && forall i | 0 <= i < |w.heap| && i != id :: w.heap[i] == v.heap[i]
  }

  lemma {:induction false} FirstFreedAgrees(w: World, v: World, id: nat, lo: int, hi: int)
    requires Inv(w) && Inv(v) && SameBut(w, v, id)
    ensures FirstFreed(w, lo, hi) == FirstFreed(v, lo, hi)
    decreases hi - lo
  {
    if lo <= hi {
      if lo in w.ports { assert PortBacked(w, lo); }
      FirstFreedAgrees(w, v, id, lo + 1, hi);
    }
  }

  lemma SameButStep(w: World, v: World, op: Op, id: nat)
    requires Inv(w) && Inv(v) && SameBut(w, v, id)
    ensures SameBut(Next(w, op), Next(v, op), id)
  {
    DetachedStep(w, op, id);
    DetachedStep(v, op, id);
    match op {
      case AllocateOp(who, clientPort, now) => SameButAllocate(w, v, who, clientPort, now, id);
      case ConnectOp(who, clientPort, mappingPort, now) => SameButConnect(w, v, who, clientPort, mappingPort, now, id);
      case FreeOp(who) => SameButFree(w, v, who, id);
      case SweepOp(now) => SameButSweep(w, v, now, id);
      case DisconnectOp(_, _) =>
      case EndSessionOp(_) =>
    }
  }

  lemma SameButAllocate(w: World, v: World, who: Ident, clientPort: int, now: int, id: nat)
    requires Inv(w) && Inv(v) && SameBut(w, v, id)
    requires Detached(AllocatePort(w, who, clientPort, now).0, id)
      && Detached(AllocatePort(v, who, clientPort, now).0, id)
    ensures SameBut(AllocatePort(w, who, clientPort, now).0, AllocatePort(v, who, clientPort, now).0, id)
  {
    if Key(who) in w.names {
      assert w.heap[w.names[Key(who)]] == v.heap[v.names[Key(who)]];
    } else {
      FirstFreedAgrees(w, v, id, w.minPort, w.maxPort);
      var p := if FirstFree(w.ports, w.minPort, w.maxPort).Some?
      then FirstFree(w.ports, w.minPort, w.maxPort) else FirstFreed(w, w.minPort, w.maxPort);
      if p.Some? {
        SameButInsert(w, v, NewRecord(who, clientPort, p.value, now), id);
      }
    }
  }

  lemma SameButInsert(w: World, v: World, rec: Record, id: nat)
    requires SameBut(w, v, id) && Detached(Insert(w, rec), id)
    ensures SameBut(Insert(w, rec), Insert(v, rec), id)
  {
  }

  lemma SameButConnect(w: World, v: World, who: Ident, clientPort: int, mappingPort: int, now: int, id: nat)
    requires Inv(w) && Inv(v) && SameBut(w, v, id)
    requires Detached(OnConnected(w, who, clientPort, mappingPort, now).0, id)
    requires Detached(OnConnected(v, who, clientPort, mappingPort, now).0, id)
    ensures SameBut(OnConnected(w, who, clientPort, mappingPort, now).0,
      OnConnected(v, who, clientPort, mappingPort, now).0, id)
  {
    if Identified(who) {
      SameButApplyNew(w, v, who, clientPort, mappingPort, now, id);
    } else if mappingPort in w.ports {
      assert PortBacked(w, mappingPort);
      assert w.ports[mappingPort] != id;
    }
  }

  lemma SameButApplyNew(w: World, v: World, who: Ident, clientPort: int, mappingPort: int, now: int, id: nat)
    requires Inv(w) && Inv(v) && SameBut(w, v, id)
    requires Detached(ApplyNew(w, who, clientPort, mappingPort, now).0, id)
    requires Detached(ApplyNew(v, who, clientPort, mappingPort, now).0, id)
    ensures SameBut(ApplyNew(w, who, clientPort, mappingPort, now).0, ApplyNew(v, who, clientPort, mappingPort, now).0,
      id)
  {
    if Key(who) in w.names {
      assert w.heap[w.names[Key(who)]] == v.heap[v.names[Key(who)]];
    }
  }

  lemma SameButFree(w: World, v: World, who: Ident, id: nat)
    requires Inv(w) && Inv(v) && SameBut(w, v, id) && Detached(FreePort(w, who), id) && Detached(FreePort(v, who), id)
    ensures SameBut(FreePort(w, who), FreePort(v, who), id)
  {
    if IsBulk(who) {
      SameIds(w, v, id, who.clientId, 0);
      SameButMark(w, v, BulkIds(w, who.clientId), id);
    } else {
      RemoveAgrees(w, v, ExactIds(w, Key(who)), id);
      SameButMark(w, v, ExactIds(w, Key(who)), id);
    }
    hide Inv, Mark, BulkIds;
  }

  /** Marking the same records keeps the worlds alike everywhere else. */
  lemma SameButMark(w: World, v: World, ids: set<nat>, id: nat)
    requires SameBut(w, v, id)
    ensures SameBut(Mark(w, ids), Mark(v, ids), id)
  {
  }

  lemma SameButSweep(w: World, v: World, now: int, id: nat)
    requires Inv(w) && Inv(v) && SameBut(w, v, id)
    requires Detached(FreeHangingPorts(w, now), id) && Detached(FreeHangingPorts(v, now), id)
    ensures SameBut(FreeHangingPorts(w, now), FreeHangingPorts(v, now), id)
  {
    SameIds(w, v, id, "", now);
    RemoveAgrees(w, v, ExpiredIds(w, now), id);
  }

  lemma SameIds(w: World, v: World, id: nat, clientId: string, now: int)
    requires Inv(w) && Inv(v) && SameBut(w, v, id)
    ensures BulkIds(w, clientId) == BulkIds(v, clientId) && ExpiredIds(w, now) == ExpiredIds(v, now)
  {
    assert forall k | k in w.names :: w.names[k] != id;
  }

  lemma RemoveAgrees(w: World, v: World, ids: set<nat>, id: nat)
    requires Inv(w) && Inv(v) && SameBut(w, v, id) && ids <= w.names.Values
    ensures forall i | i in ids :: i < |w.heap|
    ensures Remove(w, ids).names == Remove(v, ids).names && Remove(w, ids).ports == Remove(v, ids).ports
  {
    assert id !in ids;
    assert (set i | i in ids :: Key(w.heap[i].who)) == (set i | i in ids :: Key(v.heap[i].who));
    assert (set i | i in ids :: w.heap[i].mappingPort) == (set i | i in ids :: v.heap[i].mappingPort);
  }

  lemma {:induction false} SameButRun(w: World, v: World, ops: seq<Op>, id: nat)
    requires Inv(w) && Inv(v) && SameBut(w, v, id)
    ensures SameBut(Run(w, ops), Run(v, ops), id)
    decreases |ops|
  {
    if ops != [] {
      SameButStep(w, v, ops[0], id);
      SameButRun(Next(w, ops[0]), Next(v, ops[0]), ops[1..], id);
    }
  }

  /**
   A session that ends after its key was freed is invisible for ever: any run
   continues with the same indexes and the same indexed records as without its write.
   */
  lemma LateEndIsInvisible(w: World, who: Ident, between: seq<Op>, after: seq<Op>)
    requires Inv(w) && !IsBulk(who) && Key(who) in w.names
    ensures var id := w.names[Key(who)];
            var w1 := Run(FreePort(w, who), between);
            var with, without := Run(EndSession(w1, id), after), Run(w1, after);
            && NamesView(with) == NamesView(without)
            && PortsView(with) == PortsView(without)
  {
    var id := w.names[Key(who)];
    ExactFreeDetaches(w, who);
    DetachedForever(FreePort(w, who), between, id);
    var w1 := Run(FreePort(w, who), between);
    SameButRun(EndSession(w1, id), w1, after, id);
    SameViews(Run(EndSession(w1, id), after), Run(w1, after), id);
  }

  lemma SameViews(w: World, v: World, id: nat)
    requires Inv(w) && Inv(v) && SameBut(w, v, id)
    ensures NamesView(w) == NamesView(v) && PortsView(w) == PortsView(v)
  {
    forall p | p in w.ports ensures PortsView(w)[p] == PortsView(v)[p] {
      assert PortBacked(w, p);
    }
  }

  // ---------- Retention ----------

  /** A sweep removes exactly the Allocated entries more than ten minutes old, from both indexes, and nothing else. */
  lemma SweepRemovesExpired(w: World, now: int)
    requires OneToOne(w)
    ensures var w' := FreeHangingPorts(w, now);
            && NamesView(w') == (map k | k in w.names && !Expired(w.heap[w.names[k]], now) :: w.heap[w.names[k]])
            && PortsView(w') == (map p | p in w.ports && !Expired(PortsView(w)[p], now) :: PortsView(w)[p])
  {
    SweptNames(w, now);
    SweptPorts(w, now);
    hide *;
  }

  lemma SweptNames(w: World, now: int)
    requires Inv(w)
    ensures NamesView(FreeHangingPorts(w, now))
            == (map k | k in w.names && !Expired(w.heap[w.names[k]], now) :: w.heap[w.names[k]])
  {
    var w' := FreeHangingPorts(w, now);
    forall k | k in w.names ensures k in w'.names <==> !Expired(w.heap[w.names[k]], now) {
      StickyStep(w, SweepOp(now), k);
    }
    forall k | k in w'.names ensures w'.heap[w'.names[k]] == w.heap[w.names[k]] {
      assert w.names[k] !in ExpiredIds(w, now);
    }
  }

  lemma SweptPorts(w: World, now: int)
    requires OneToOne(w)
    ensures PortsView(FreeHangingPorts(w, now))
            == (map p | p in w.ports && !Expired(PortsView(w)[p], now) :: PortsView(w)[p])
  {
    hide FreeHangingPorts, Expired, PortBacked;
    var w' := FreeHangingPorts(w, now);
    forall p | p in w.ports ensures p in w'.ports <==> !Expired(PortsView(w)[p], now) {
      SweptPort(w, p, now);
    }
    forall p | p in w'.ports ensures p in w.ports && PortsView(w')[p] == PortsView(w)[p] {
      KeptPort(w, p, now);
    }
  }

  lemma KeptPort(w: World, p: int, now: int)
    requires Inv(w) && p in FreeHangingPorts(w, now).ports
    ensures p in w.ports && PortsView(FreeHangingPorts(w, now))[p] == PortsView(w)[p]
  {
    assert PortBacked(w, p) && PortBacked(FreeHangingPorts(w, now), p);
    assert w.ports[p] !in ExpiredIds(w, now);
  }

  lemma SweptPort(w: World, p: int, now: int)
    requires OneToOne(w) && p in w.ports
    ensures p in FreeHangingPorts(w, now).ports <==> !Expired(PortsView(w)[p], now)
  {
    var ids := ExpiredIds(w, now);
    assert PortBacked(w, p);
    forall id | id in ids && w.heap[id].mappingPort == p ensures id == w.ports[p] {
      assert NameBacked(w, Key(w.heap[id].who));
    }
    if Expired(w.heap[w.ports[p]], now) {
      assert w.names[Key(w.heap[w.ports[p]].who)] in ids;
    }
  }

  /** The record waits in the name index, Allocated at time `t`, with no session on it. */
  ghost predicate Waiting(w: World, id: nat, rec: Record, t: int) {
    && id < |w.heap| && w.heap[id] == rec
    && rec.status == Allocated && rec.allocTime == Some(t)
    && Key(rec.who) in w.names && w.names[Key(rec.who)] == id
  }

  /** The request aims at this record, by its key, its port, its client or a pointer. */
  predicate Touches(op: Op, id: nat, rec: Record) {
    match op
    case AllocateOp(who, _, _) => Key(who) == Key(rec.who)
    case ConnectOp(who, _, mappingPort, _) =>
      if Identified(who) then Key(who) == Key(rec.who) else mappingPort == rec.mappingPort
    case DisconnectOp(i, _) => i == id
    case FreeOp(who) => if IsBulk(who) then who.clientId == rec.who.clientId else Key(who) == Key(rec.who)
    case _ => false
  }

  predicate Overdue(op: Op, t: int) {
    op.SweepOp? && op.now - t > HOLD
  }

  ghost predicate Gone(w: World, id: nat, rec: Record) {
    Detached(w, id) && Key(rec.who) !in w.names
  }

  lemma WaitingStep(w: World, op: Op, id: nat, rec: Record, t: int)
    requires Inv(w) && Waiting(w, id, rec, t) && !Touches(op, id, rec)
    ensures if Overdue(op, t) then Gone(Next(w, op), id, rec) else Waiting(Next(w, op), id, rec, t)
  {
    match op {
      case AllocateOp(who, clientPort, now) => WaitingAllocate(w, who, clientPort, now, id, rec, t);
      case ConnectOp(who, clientPort, mappingPort, now) => WaitingConnect(w, who, clientPort, mappingPort, now, id,
        rec, t);
      case SweepOp(now) => WaitingSweep(w, now, id, rec, t);
      case _ =>
    }
    hide AllocatePort, OnConnected, FreeHangingPorts, Gone;
  }

  lemma WaitingAllocate(w: World, who: Ident, clientPort: int, now: int, id: nat, rec: Record, t: int)
    requires Inv(w) && Waiting(w, id, rec, t) && Key(who) != Key(rec.who)
    ensures Waiting(AllocatePort(w, who, clientPort, now).0, id, rec, t)
  {
  }

  lemma WaitingConnect(w: World, who: Ident, clientPort: int, mappingPort: int, now: int, id: nat, rec: Record, t: int)
    requires Inv(w) && Waiting(w, id, rec, t) && !Touches(ConnectOp(who, clientPort, mappingPort, now), id, rec)
    ensures Waiting(OnConnected(w, who, clientPort, mappingPort, now).0, id, rec, t)
  {
  }

  lemma WaitingSweep(w: World, now: int, id: nat, rec: Record, t: int)
    requires Inv(w) && Waiting(w, id, rec, t)
    ensures if Overdue(SweepOp(now), t) then Gone(FreeHangingPorts(w, now), id, rec)
            else Waiting(FreeHangingPorts(w, now), id, rec, t)
  {
    if Overdue(SweepOp(now), t) {
      RemoveDetaches(w, ExpiredIds(w, now), id);
    } else {
      StickyStep(w, SweepOp(now), Key(rec.who));
      assert id !in ExpiredIds(w, now);
    }
  }

  lemma {:induction false} GoneRun(w: World, ops: seq<Op>, id: nat, rec: Record)
    requires Inv(w) && Gone(w, id, rec) && forall i | 0 <= i < |ops| :: !Touches(ops[i], id, rec)
    ensures Gone(Run(w, ops), id, rec)
    decreases |ops|
  {
    if ops != [] {
      DetachedStep(w, ops[0], id);
      GoneRun(Next(w, ops[0]), ops[1..], id, rec);
    }
  }

  /**
   On any run that leaves the record alone, it survives exactly as long as no sweep comes
   more than ten minutes after `t`.
   */
  lemma {:induction false} RetentionExact(w: World, ops: seq<Op>, id: nat, rec: Record, t: int)
    requires Inv(w) && Waiting(w, id, rec, t) && forall i | 0 <= i < |ops| :: !Touches(ops[i], id, rec)
    ensures if exists i :: 0 <= i < |ops| && Overdue(ops[i], t)
            then Gone(Run(w, ops), id, rec) else Waiting(Run(w, ops), id, rec, t)
    decreases |ops|
  {
    if ops != [] {
      WaitingStep(w, ops[0], id, rec, t);
      var rest := ops[1..];
      if Overdue(ops[0], t) {
        GoneRun(Next(w, ops[0]), rest, id, rec);
      } else {
        RetentionExact(Next(w, ops[0]), rest, id, rec, t);
        if exists i :: 0 <= i < |ops| && Overdue(ops[i], t) {
          var i :| 0 <= i < |ops| && Overdue(ops[i], t);
          assert Overdue(rest[i - 1], t);
        } else {
          assert forall i | 0 <= i < |rest| :: rest[i] == ops[i + 1];
        }
      }
    }
  }

  const TICK := 5 * MINUTE

  /** The run contains the sweep of every tick, five minutes apart from `start`, up to time `until`. */
  ghost predicate IdealTicker(ops: seq<Op>, start: int, until: int) {
    forall n: nat :: n >= 1 && start + n * (5 * MINUTE) <= until ==> SweepOp(start + n * (5 * MINUTE)) in ops
  }

  lemma TickAfter(start: int, time: int) returns (n: nat)
    requires start <= time
    ensures n >= 1 && time < start + n * TICK <= time + TICK
  {
    n := (time - start) / TICK + 1;
  }

  /** An entry left alone is gone no later than fifteen minutes after its allocation. */
  lemma GoneWithinFifteenMinutes(w: World, ops: seq<Op>, id: nat, rec: Record, t: int, start: int)
    requires Inv(w) && Waiting(w, id, rec, t) && start <= t
    requires forall i | 0 <= i < |ops| :: !Touches(ops[i], id, rec)
    requires IdealTicker(ops, start, t + 15 * MINUTE)
    ensures Gone(Run(w, ops), id, rec)
  {
    var n := TickAfter(start, t + HOLD);
    var tick := SweepOp(start + n * TICK);
    assert tick in ops;
    var i :| 0 <= i < |ops| && ops[i] == tick;
    assert Overdue(ops[i], t);
    RetentionExact(w, ops, id, rec, t);
  }

  /** No sweep of the first ten minutes takes it. */
  lemma KeptForTenMinutes(w: World, ops: seq<Op>, id: nat, rec: Record, t: int)
    requires Inv(w) && Waiting(w, id, rec, t)
    requires forall i | 0 <= i < |ops| :: !Touches(ops[i], id, rec)
    requires forall i | 0 <= i < |ops| && ops[i].SweepOp? :: ops[i].now <= t + 10 * MINUTE
    ensures Waiting(Run(w, ops), id, rec, t)
  {
    RetentionExact(w, ops, id, rec, t);
  }

  // ---------- The hold after a session ----------

  /** Every sweep in the ten minutes that follow time `e` leaves the key indexed. */
  ghost predicate HeldFrom(w: World, key: string, e: int)
    requires Inv(w)
  {
    forall s | e <= s <= e + 10 * MINUTE :: key in FreeHangingPorts(w, s).names
  }

  /**
   The port is meant to stay with the client for ten minutes after it disconnects.
   The session's last write sets only the status, so it does exactly when the
   record was allocated no earlier than the session ended.
   */
  lemma HoldAfterSessionEnd(w: World, key: string, e: int)
    requires Inv(w) && key in w.names
    ensures HeldFrom(EndSession(w, w.names[key]), key, e) <==> w.heap[w.names[key]].allocTime.value >= e
  {
    var id := w.names[key];
    var w' := EndSession(w, id);
    forall s ensures key in FreeHangingPorts(w', s).names <==> s - w.heap[id].allocTime.value <= HOLD {
      StickyStep(w', SweepOp(s), key);
    }
    if w.heap[id].allocTime.value < e {
      assert key !in FreeHangingPorts(w', e + 10 * MINUTE).names;
    }
  }

  ghost predicate Untouched(ops: seq<Op>, id: nat, rec: Record) {
    forall i | 0 <= i < |ops| :: !Touches(ops[i], id, rec)
  }

  /** The session's record is the one its key names. */
  ghost predicate Indexed(w: World, id: nat)
    requires Inv(w)
  {
    id < |w.heap| && Key(w.heap[id].who) in w.names && w.names[Key(w.heap[id].who)] == id
  }

  /**
   On any run after its session's end, a record left alone is gone if a sweep came more
   than ten minutes after its allocation, and otherwise stays.
   */
  lemma FateAfterSessionEnd(w: World, id: nat, ops: seq<Op>)
    requires Inv(w) && Indexed(w, id) && Untouched(ops, id, EndSession(w, id).heap[id])
    ensures var w' := EndSession(w, id);
            var rec, t := w'.heap[id], w.heap[id].allocTime.value;
            if exists i :: 0 <= i < |ops| && Overdue(ops[i], t)
            then Gone(Run(w', ops), id, rec) else Waiting(Run(w', ops), id, rec, t)
  {
    RetentionExact(EndSession(w, id), ops, id, EndSession(w, id).heap[id], w.heap[id].allocTime.value);
  }

  /** Every run of ten minutes from time `e` that leaves the record alone keeps its key. */
  ghost predicate HeldOnRuns(w: World, id: nat, e: int)
    requires Inv(w) && id < |w.heap|
  {
    forall ops: seq<Op> | Untouched(ops, id, w.heap[id]) && SweepsWithin(ops, e, e + 10 * MINUTE) ::
      Key(w.heap[id].who) in Run(w, ops).names
  }

  ghost predicate SweepsWithin(ops: seq<Op>, from: int, until: int) {
    forall i | 0 <= i < |ops| && ops[i].SweepOp? :: from <= ops[i].now <= until
  }

  /**
   The same for whole runs: the port is held through all of them exactly when it was
   allocated no earlier than the session ended.
   */
  lemma HoldOnRunsAfterSessionEnd(w: World, id: nat, e: int)
    requires Inv(w) && Indexed(w, id)
    ensures HeldOnRuns(EndSession(w, id), id, e) <==> w.heap[id].allocTime.value >= e
  {
    var w', t := EndSession(w, id), w.heap[id].allocTime.value;
    if t >= e {
      forall ops: seq<Op> | Untouched(ops, id, w'.heap[id]) && SweepsWithin(ops, e, e + 10 * MINUTE)
        ensures Key(w'.heap[id].who) in Run(w', ops).names
      {
        FateAfterSessionEnd(w, id, ops);
      }
    } else {
      var ops := [SweepOp(e + 10 * MINUTE)];
      FateAfterSessionEnd(w, id, ops);
      assert Overdue(ops[0], t);
      assert Key(w'.heap[id].who) !in Run(w', ops).names;
    }
  }

  /**
   A port allocated at time 0, its tunnel connected, and its session ended just before the
   sweep at ten minutes and a moment.
   */
  function LosingTrace(a: Ident): seq<Op> {
    [AllocateOp(a, 80, 0), ConnectOp(a, 80, 1, 0)] + [EndSessionOp(0), SweepOp(HOLD + 1)]
  }

  /** So a client that was connected for longer than that loses its port at once. */
  lemma LostAtOnce(a: Ident)
    requires Identified(a)
    ensures Serving(Run(Init(1, 1), [AllocateOp(a, 80, 0), ConnectOp(a, 80, 1, 0)]), a)
    ensures Key(a) !in Run(Init(1, 1), LosingTrace(a)).names
  {
    var w0 := Init(1, 1);
    RunTwo(w0, AllocateOp(a, 80, 0), ConnectOp(a, 80, 1, 0));
    AllocateIntoEmptyPool(w0, a);
    var w2 := Next(Next(w0, AllocateOp(a, 80, 0)), ConnectOp(a, 80, 1, 0));
    RunTwo(w2, EndSessionOp(0), SweepOp(HOLD + 1));
    RunConcat(w0, [AllocateOp(a, 80, 0), ConnectOp(a, 80, 1, 0)], [EndSessionOp(0), SweepOp(HOLD + 1)]);
    StickyStep(Next(w2, EndSessionOp(0)), SweepOp(HOLD + 1), Key(a));
    hide Run;
  }

  ghost predicate Serving(w: World, a: Ident)
    requires Inv(w)
  {
    Key(a) in w.names && w.heap[w.names[Key(a)]].status == Connected
  }

  /** OnDisconnected, which also refreshes the time, keeps the promise; no caller uses it. */
  lemma HoldAfterOnDisconnected(w: World, key: string, e: int)
    requires Inv(w) && key in w.names
    ensures HeldFrom(OnDisconnected(w, w.names[key], e), key, e)
  {
    var w' := OnDisconnected(w, w.names[key], e);
    forall s | e <= s <= e + 10 * MINUTE ensures key in FreeHangingPorts(w', s).names {
      StickyStep(w', SweepOp(s), key);
    }
  }
}
