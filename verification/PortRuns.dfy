/** Whole runs of the port allocator: every order of requests, sweeps and session writes. */
module PortRuns {
  import opened Wrappers
  import opened PortModel

  /**
   One atomic step. A locked method is one step; a session's unlocked write to its
   record is a step of its own and may come at any time, through any pointer.
   */
  datatype Op =
    | AllocateOp(who: Ident, clientPort: int, now: int)
    | ConnectOp(who: Ident, clientPort: int, mappingPort: int, now: int)
    | DisconnectOp(id: nat, now: int)
    | FreeOp(who: Ident)
    | SweepOp(now: int)
    | EndSessionOp(id: nat)

  function Next(w: World, op: Op): (w': World)
    requires Inv(w)
    ensures Inv(w')
  {
    match op
    case AllocateOp(who, clientPort, now) => AllocatePort(w, who, clientPort, now).0
    case ConnectOp(who, clientPort, mappingPort, now) => OnConnected(w, who, clientPort, mappingPort, now).0
    case DisconnectOp(id, now) => OnDisconnected(w, id, now)
    case FreeOp(who) => FreePort(w, who)
    case SweepOp(now) => FreeHangingPorts(w, now)
    case EndSessionOp(id) => EndSession(w, id)
  }

  function Run(w: World, ops: seq<Op>): (w': World)
    requires Inv(w)
    ensures Inv(w')
    decreases |ops|
  {
    if ops == [] then w else Run(Next(w, ops[0]), ops[1..])
  }

  lemma {:induction false} RunConcat(w: World, a: seq<Op>, b: seq<Op>)
    requires Inv(w)
    ensures Run(w, a + b) == Run(Run(w, a), b)
    decreases |a|
  {
    if a == [] {
      assert a + b == b;
    } else {
      assert (a + b)[1..] == a[1..] + b;
      RunConcat(Next(w, a[0]), a[1..], b);
    }
  }

  // ---------- The two indexes are mutually inverse ----------

  ghost predicate NameBacked(w: World, k: string)
    requires Inv(w) && k in w.names
  {
    var p := w.heap[w.names[k]].mappingPort;
    p in w.ports && w.ports[p] == w.names[k]
  }

  /** `names` and `ports` are views of the same records. */
  ghost predicate OneToOne(w: World) {
    Inv(w) && forall k | k in w.names :: NameBacked(w, k)
  }

  /** The guard of the recycling loop: a new key, no free port, and a port whose record is Freed. */
  predicate Recycles(w: World, op: Op)
    requires Inv(w)
  {
    && op.AllocateOp?
    && Key(op.who) !in w.names
    && FirstFree(w.ports, w.minPort, w.maxPort).None?
    && FirstFreed(w, w.minPort, w.maxPort).Some?
  }

  /** A recycled port is the only thing that ever breaks the one-to-one reading, and it always does. */
  lemma OneToOneStep(w: World, op: Op)
    requires OneToOne(w)
    ensures OneToOne(Next(w, op)) <==> !Recycles(w, op)
  {
    hide Next, Inv, NameBacked, Recycles;
    if Recycles(w, op) {
      RecyclingBreaks(w, op);
    } else {
      forall k | k in Next(w, op).names ensures NameBacked(Next(w, op), k) {
        OthersKeep(w, op, k);
      }
    }
  }

  /** The recycled port's old key still names its old record. */
  lemma RecyclingBreaks(w: World, op: Op)
    requires Inv(w) && Recycles(w, op)
    ensures exists k :: k in Next(w, op).names && !NameBacked(Next(w, op), k)
  {
    var p := FirstFreed(w, w.minPort, w.maxPort).value;
    assert PortBacked(w, p);
    var k := Key(w.heap[w.ports[p]].who);
    assert k in Next(w, op).names && !NameBacked(Next(w, op), k);
  }

  lemma OthersKeep(w: World, op: Op, k: string)
    requires OneToOne(w) && !Recycles(w, op) && k in Next(w, op).names
    ensures NameBacked(Next(w, op), k)
  {
    assert k in w.names ==> NameBacked(w, k);
    match op {
      case AllocateOp(_, _, _) => AllocationKeeps(w, op, k);
      case FreeOp(_) => KeptByRemove(w, op, k);
      case SweepOp(_) => KeptByRemove(w, op, k);
      case _ =>
    }
    hide AllocatePort, FreePort, FreeHangingPorts, Inv, OneToOne;
  }

  lemma AllocationKeeps(w: World, op: Op, k: string)
    requires OneToOne(w) && op.AllocateOp? && !Recycles(w, op) && k in Next(w, op).names
    ensures NameBacked(Next(w, op), k)
  {
    assert k in w.names ==> NameBacked(w, k);
  }

  /** Under one-to-one indexes, removing other records leaves a key's port alone. */
  lemma KeptByRemove(w: World, op: Op, k: string)
    requires OneToOne(w) && (op.FreeOp? || op.SweepOp?) && k in Next(w, op).names
    ensures NameBacked(Next(w, op), k)
  {
    assert NameBacked(w, k);
    var ids := if op.SweepOp? then ExpiredIds(w, op.now) else ExactIds(w, Key(op.who));
    forall id | id in ids && w.heap[id].mappingPort == w.heap[w.names[k]].mappingPort
      ensures Key(w.heap[id].who) == k
    {
      assert NameBacked(w, Key(w.heap[id].who));
    }
  }

  // ---------- Runs the HTTP handlers can cause: no bulk free ----------

  /** The DELETE handler refuses an empty user or application, so a bulk free never reaches the allocator. */
  predicate FromHandlers(op: Op) {
    op.FreeOp? ==> !IsBulk(op.who)
  }

  ghost predicate AllFromHandlers(ops: seq<Op>) {
    forall i | 0 <= i < |ops| :: FromHandlers(ops[i])
  }

  ghost predicate Healthy(w: World) {
    OneToOne(w) && NoneFreed(w)
  }

  ghost predicate NoneFreed(w: World)
    requires Inv(w)
  {
    forall k | k in w.names :: w.heap[w.names[k]].status != Freed
  }

  lemma HealthyNeverRecycles(w: World, op: Op)
    requires Healthy(w)
    ensures !Recycles(w, op)
  {
    forall p | p in w.ports ensures !HoldsFreed(w, p) {
      assert PortBacked(w, p);
    }
  }

  lemma HealthyStep(w: World, op: Op)
    requires Healthy(w) && FromHandlers(op)
    ensures Healthy(Next(w, op))
  {
    HealthyNeverRecycles(w, op);
    OneToOneStep(w, op);
    match op {
      case FreeOp(who) => RemoveLeavesNoFreed(w, ExactIds(w, Key(who)));
      case SweepOp(now) => RemoveLeavesNoFreed(w, ExpiredIds(w, now));
      case AllocateOp(who, clientPort, now) => AllocateLeavesNoFreed(w, who, clientPort, now);
      case ConnectOp(who, clientPort, mappingPort, now) => ConnectLeavesNoFreed(w, who, clientPort, mappingPort, now);
      case _ =>
    }
    hide AllocatePort, OnConnected, Inv, OneToOne, Remove;
  }

  lemma AllocateLeavesNoFreed(w: World, who: Ident, clientPort: int, now: int)
    requires Inv(w) && NoneFreed(w)
    ensures NoneFreed(AllocatePort(w, who, clientPort, now).0)
  {
  }

  lemma ConnectLeavesNoFreed(w: World, who: Ident, clientPort: int, mappingPort: int, now: int)
    requires Inv(w) && NoneFreed(w)
    ensures NoneFreed(OnConnected(w, who, clientPort, mappingPort, now).0)
  {
  }

  /** A removed record is Freed, but it leaves the index with its key. */
  lemma RemoveLeavesNoFreed(w: World, ids: set<nat>)
    requires Inv(w) && NoneFreed(w) && ids <= w.names.Values
    ensures RemoveIsSafe(w, ids) && NoneFreed(Remove(w, ids))
  {
    RemoveKeepsInv(w, ids);
    var w' := Remove(w, ids);
    forall k | k in w'.names ensures w'.names[k] !in ids {
      StickyRemove(w, ids, k);
    }
  }

  ghost predicate RemoveIsSafe(w: World, ids: set<nat>) {
    (forall id | id in ids :: id < |w.heap|) && Inv(Remove(w, ids))
  }

  lemma {:induction false} HealthyRun(w: World, ops: seq<Op>)
    requires Healthy(w) && AllFromHandlers(ops)
    ensures Healthy(Run(w, ops))
    decreases |ops|
  {
    if ops != [] {
      HealthyStep(w, ops[0]);
      HealthyRun(Next(w, ops[0]), ops[1..]);
    }
  }

  /** From an empty allocator, no two keys ever hold one port, and each index finds the other's record. */
  lemma HandlerRunsAreOneToOne(minPort: int, maxPort: int, ops: seq<Op>)
    requires AllFromHandlers(ops)
    ensures var w := Run(Init(minPort, maxPort), ops);
            && Healthy(w)
            && (forall k, l | k in w.names && l in w.names
                && w.heap[w.names[k]].mappingPort == w.heap[w.names[l]].mappingPort :: k == l)
            && w.names.Values == w.ports.Values
  {
    var w := Run(Init(minPort, maxPort), ops);
    HealthyRun(Init(minPort, maxPort), ops);
    forall k, l | k in w.names && l in w.names
      && w.heap[w.names[k]].mappingPort == w.heap[w.names[l]].mappingPort
      ensures k == l
    {
      assert NameBacked(w, k) && NameBacked(w, l);
    }
    forall k | k in w.names ensures w.names[k] in w.ports.Values {
      assert NameBacked(w, k);
    }
    forall p | p in w.ports ensures w.ports[p] in w.names.Values {
      assert PortBacked(w, p);
    }
  }

  lemma RunCons(w: World, x: Op, rest: seq<Op>)
    requires Inv(w)
    ensures Run(w, [x] + rest) == Run(Next(w, x), rest)
  {
    assert ([x] + rest)[1..] == rest;
  }

  lemma RunOne(w: World, x: Op)
    requires Inv(w)
    ensures Run(w, [x]) == Next(w, x)
  {
    hide Next;
    assert [x][1..] == [];
  }

  lemma RunTwo(w: World, x: Op, y: Op)
    requires Inv(w)
    ensures Run(w, [x, y]) == Next(Next(w, x), y)
  {
    var w1 := Next(w, x);
    assert [x, y] == [x] + [y] && [y] == [y] + [];
    RunCons(w, x, [y]);
    RunCons(w1, y, []);
    assert Run(Next(w1, y), []) == Next(w1, y);
  }

  /**
   `a` takes the only port and is bulk-freed; `b` recycles the port; `a`'s stale key is
   freed; `c` gets the port too.
   */
  function SharingTrace(a: Ident, b: Ident, c: Ident): seq<Op> {
    [AllocateOp(a, 80, 0), FreeOp(Ident(a.clientId, "", ""))] + [AllocateOp(b, 80, 0), FreeOp(a)]
      + [AllocateOp(c, 80, 0)]
  }

  /** With a bulk free it does fail: on a pool of one port, two keys end up on that port. */
  lemma BulkFreeBreaksOneToOne(a: Ident, b: Ident, c: Ident)
    requires !IsBulk(a) && Key(a) != Key(b) && Key(b) != Key(c) && Key(a) != Key(c)
    ensures var w := Run(Init(1, 1), SharingTrace(a, b, c));
            && !OneToOne(w)
            && Key(b) in w.names && Key(c) in w.names
            && w.heap[w.names[Key(b)]].mappingPort == 1 && w.heap[w.names[Key(c)]].mappingPort == 1
  {
    var w0 := Init(1, 1);
    var w2 := TakenAndFreed(a);
    var w4 := RecycledAndFreed(w2, a, b);
    var first, second := [AllocateOp(a, 80, 0), FreeOp(Ident(a.clientId, "", ""))], [AllocateOp(b, 80, 0), FreeOp(a)];
    RunConcat(w0, first + second, [AllocateOp(c, 80, 0)]);
    RunConcat(w0, first, second);
    AllocateIntoEmptyPool(w4, c);
    var w5 := Insert(w4, NewRecord(c, 80, 1, 0));
    RunOne(w4, AllocateOp(c, 80, 0));
    hide Run, Next, Init;
    assert !NameBacked(w5, Key(b));
  }

  lemma TakenAndFreed(a: Ident) returns (w: World)
    ensures w == Run(Init(1, 1), [AllocateOp(a, 80, 0), FreeOp(Ident(a.clientId, "", ""))])
    ensures Inv(w) && w.minPort == w.maxPort == 1 && |w.heap| == 1 && w.names == map[Key(a) := 0]
      && w.ports == map[1 := 0]
    ensures w.heap[0].status == Freed && w.heap[0].mappingPort == 1
  {
    var w0 := Init(1, 1);
    RunTwo(w0, AllocateOp(a, 80, 0), FreeOp(Ident(a.clientId, "", "")));
    AllocateIntoEmptyPool(w0, a);
    var w1 := Next(w0, AllocateOp(a, 80, 0));
    FreedByBulk(w1, a);
    w := Next(w1, FreeOp(Ident(a.clientId, "", "")));
  }

  lemma RecycledAndFreed(w: World, a: Ident, b: Ident) returns (w': World)
    requires Inv(w) && w.minPort == w.maxPort == 1 && |w.heap| == 1 && w.names == map[Key(a) := 0]
      && w.ports == map[1 := 0]
    requires w.heap[0].status == Freed && w.heap[0].mappingPort == 1 && !IsBulk(a) && Key(a) != Key(b)
    ensures w' == Run(w, [AllocateOp(b, 80, 0), FreeOp(a)])
    ensures Inv(w') && w'.minPort == w'.maxPort == 1 && |w'.heap| == 2 && w'.names == map[Key(b) := 1]
      && w'.ports == map[]
    ensures w'.heap[1].mappingPort == 1
  {
    RunTwo(w, AllocateOp(b, 80, 0), FreeOp(a));
    RecycleOnlyPort(w, a, b);
    var w1 := Next(w, AllocateOp(b, 80, 0));
    StaleExactFree(w1, a, b);
    w' := Next(w1, FreeOp(a));
  }

  lemma AllocateIntoEmptyPool(w: World, a: Ident)
    requires Inv(w) && w.minPort == w.maxPort == 1 && w.ports == map[] && Key(a) !in w.names
    ensures Next(w, AllocateOp(a, 80, 0)) == Insert(w, NewRecord(a, 80, 1, 0))
  {
  }

  lemma FreedByBulk(w: World, a: Ident)
    requires Inv(w) && Key(a) in w.names && w.heap[w.names[Key(a)]].who.clientId == a.clientId
    ensures var w' := Next(w, FreeOp(Ident(a.clientId, "", "")));
            && w'.names == w.names && w'.ports == w.ports && |w'.heap| == |w.heap|
            && w'.minPort == w.minPort && w'.maxPort == w.maxPort
            && w'.heap[w.names[Key(a)]].status == Freed
            && forall i | 0 <= i < |w.heap| ::
                 w'.heap[i].who == w.heap[i].who && w'.heap[i].mappingPort == w.heap[i].mappingPort
  {
    var id := w.names[Key(a)];
    if w.heap[id].status != Freed {
      assert id in BulkIds(w, a.clientId);
    }
  }

  lemma RecycleOnlyPort(w: World, a: Ident, b: Ident)
    requires Inv(w) && w.minPort == w.maxPort == 1 && |w.heap| == 1 && w.names == map[Key(a) := 0]
      && w.ports == map[1 := 0]
    requires w.heap[0].status == Freed && Key(a) != Key(b)
    ensures Next(w, AllocateOp(b, 80, 0)) == Insert(w, NewRecord(b, 80, 1, 0))
  {
    assert HoldsFreed(w, 1);
    assert FirstFreed(w, 1, 1) == Some(1);
  }

  lemma StaleExactFree(w: World, a: Ident, b: Ident)
    requires Inv(w) && w.names == map[Key(a) := 0, Key(b) := 1] && w.ports == map[1 := 1] && |w.heap| == 2
    requires !IsBulk(a) && Key(a) != Key(b) && w.heap[0].mappingPort == 1
    ensures var w' := Next(w, FreeOp(a));
            && w'.names == map[Key(b) := 1] && w'.ports == map[] && |w'.heap| == 2
            && w'.minPort == w.minPort && w'.maxPort == w.maxPort && w'.heap[1] == w.heap[1]
  {
    assert Key(w.heap[0].who) == Key(a) by { assert w.names[Key(a)] == 0; }
    assert FreePort(w, a) == Remove(w, {0}) by { assert ExactIds(w, Key(a)) == {0}; }
    hide FreePort, Remove, Inv;
    RemoveFirst(w, Key(a), Key(b));
  }

  lemma RemoveFirst(w: World, k: string, l: string)
    requires |w.heap| == 2 && w.names == map[k := 0, l := 1] && w.ports == map[1 := 1] && k != l
    requires Key(w.heap[0].who) == k && w.heap[0].mappingPort == 1
    ensures var w' := Remove(w, {0});
            && w'.names == map[l := 1] && w'.ports == map[] && |w'.heap| == 2
            && w'.minPort == w.minPort && w'.maxPort == w.maxPort && w'.heap[1] == w.heap[1]
  {
    var ids: set<nat> := {0};
    assert (set id | id in ids :: Key(w.heap[id].who)) == {k};
    assert (set id | id in ids :: w.heap[id].mappingPort) == {1};
  }

  // ---------- First fit and capacity ----------

  function PoolSize(w: World): nat {
    if w.minPort <= w.maxPort then w.maxPort - w.minPort + 1 else 0
  }

  function InRangeKeys(w: World): set<string>
    requires Inv(w)
  {
    set k | k in w.names && w.minPort <= w.heap[w.names[k]].mappingPort <= w.maxPort
  }

  function Range(lo: int, hi: int): (s: set<int>)
    ensures |s| == if lo <= hi then hi - lo + 1 else 0
    ensures forall p :: p in s <==> lo <= p <= hi
    decreases hi - lo
  {
    if lo > hi then {} else {lo} + Range(lo + 1, hi)
  }

  /** A map that is one-to-one on its keys has as many values as keys. */
  lemma {:induction false} OneToOneCount<A, B>(m: map<A, B>)
    requires forall a, b | a in m && b in m && m[a] == m[b] :: a == b
    ensures |m.Values| == |m.Keys|
    decreases |m.Keys|
  {
    if m.Keys != {} {
      var a :| a in m;
      var rest := m - {a};
      OneToOneCount(rest);
      assert rest.Keys == m.Keys - {a};
      forall b ensures b in m.Values - {m[a]} <==> b in rest.Values {
        if b in m.Values && b != m[a] {
          var x :| x in m && m[x] == b;
          assert x in rest;
        }
      }
      assert rest.Values == m.Values - {m[a]};
    } else {
      assert m.Values == {};
    }
  }

  /** The number of keys on in-range ports never exceeds the pool, and reaches it exactly when no port is free. */
  lemma Capacity(w: World)
    requires OneToOne(w)
    ensures |InRangeKeys(w)| <= PoolSize(w)
    ensures |InRangeKeys(w)| == PoolSize(w) <==> forall p | w.minPort <= p <= w.maxPort :: p in w.ports
  {
    var m, all := KeyPorts(w), Range(w.minPort, w.maxPort);
    KeyPortsAreTaken(w);
    hide OneToOne, Inv, KeyPorts;
    OneToOneCount(m);
    SubsetCount(m.Values, all);
    assert m.Values == all <==> forall p | w.minPort <= p <= w.maxPort :: p in w.ports;
  }

  /** The in-range keys with their ports. */
  function KeyPorts(w: World): (m: map<string, int>)
    requires Inv(w)
    ensures m.Keys == InRangeKeys(w)
  {
    map k | k in InRangeKeys(w) :: w.heap[w.names[k]].mappingPort
  }

  lemma KeyPortsAreTaken(w: World)
    requires OneToOne(w)
    ensures var m := KeyPorts(w);
            && (forall a, b | a in m && b in m && m[a] == m[b] :: a == b)
            && (forall p :: p in m.Values <==> w.minPort <= p <= w.maxPort && p in w.ports)
  {
    var m := KeyPorts(w);
    forall a, b | a in m && b in m && m[a] == m[b] ensures a == b {
      assert NameBacked(w, a) && NameBacked(w, b);
    }
    forall k | k in m ensures m[k] in w.ports {
      assert NameBacked(w, k);
    }
    forall p | w.minPort <= p <= w.maxPort && p in w.ports ensures p in m.Values {
      assert PortBacked(w, p);
      assert m[Key(w.heap[w.ports[p]].who)] == p;
    }
  }

  /**
   On handler runs a new key gets the least port of the pool nobody holds; the
   request fails exactly when every port of the pool carries a key.
   */
  lemma AllocateIsFirstFit(w: World, who: Ident, clientPort: int, now: int)
    requires Healthy(w) && Key(who) !in w.names
    ensures var (w', r) := AllocatePort(w, who, clientPort, now);
            && (r.None? <==> |InRangeKeys(w)| == PoolSize(w))
            && (r.None? ==> w' == w)
            && (r.Some? ==>
                  var p := r.value.mappingPort;
                  && w.minPort <= p <= w.maxPort && p !in w.ports
                  && (forall q | w.minPort <= q < p :: q in w.ports)
                  && w'.names.Keys == w.names.Keys + {Key(who)} && w'.names[Key(who)] == w'.ports[p] == |w.heap|)
  {
    Capacity(w);
    HealthyNeverRecycles(w, AllocateOp(who, clientPort, now));
  }

  // ---------- Keys ----------

  predicate DashFree(s: string) {
    forall i | 0 <= i < |s| :: s[i] != '-'
  }

  lemma DashPosition(x: string, a: string, y: string, b: string)
    requires x + "-" + a == y + "-" + b && DashFree(a)
    ensures |y| <= |x|
  {
    var s := x + "-" + a;
    assert forall i | |x| < i < |s| :: s[i] != '-';
    assert s[|y|] == '-';
  }

  lemma LastDash(x: string, a: string, y: string, b: string)
    requires x + "-" + a == y + "-" + b && DashFree(a) && DashFree(b)
    ensures x == y && a == b
  {
    var s := x + "-" + a;
    DashPosition(x, a, y, b);
    DashPosition(y, b, x, a);
    assert s[..|x|] == x && s[..|y|] == y && s[|x| + 1..] == a && s[|y| + 1..] == b;
  }

  /** Two identities whose users and applications have no dash in them have different keys; client ids may have any. */
  lemma KeysIdentify(a: Ident, b: Ident)
    requires Key(a) == Key(b)
    requires DashFree(a.userId) && DashFree(a.appName) && DashFree(b.userId) && DashFree(b.appName)
    ensures a == b
  {
    LastDash(a.clientId + "-" + a.userId, a.appName, b.clientId + "-" + b.userId, b.appName);
    LastDash(a.clientId, a.userId, b.clientId, b.userId);
  }

  lemma {:induction false} SplitAtLastDash(s: string) returns (x: string, y: string)
    requires !DashFree(s)
    ensures s == x + "-" + y && DashFree(y)
    decreases |s|
  {
    var n := |s| - 1;
    if s[n] == '-' {
      x, y := s[..n], "";
    } else {
      x, y := SplitAtLastDash(s[..n]);
      y := y + [s[n]];
    }
  }

  /** Every key, whoever it comes from, is the key of exactly one identity whose user and application have no dash. */
  lemma OneDashFreeIdentity(b: Ident) returns (a: Ident)
    ensures Key(a) == Key(b) && DashFree(a.userId) && DashFree(a.appName)
    ensures forall c: Ident | Key(c) == Key(b) && DashFree(c.userId) && DashFree(c.appName) :: c == a
  {
    var front, s := b.clientId + "-" + b.userId, Key(b);
    assert s == front + "-" + b.appName && s[|front|] == '-';
    var x, app := SplitAtLastDash(s);
    DashPosition(x, app, front, b.appName);
    assert x[|b.clientId|] == '-' by {
      assert front[|b.clientId|] == '-' && s[..|x|] == x && s[..|front|] == front;
    }
    var client, user := SplitAtLastDash(x);
    a := Ident(client, user, app);
    forall c: Ident | Key(c) == Key(b) && DashFree(c.userId) && DashFree(c.appName) ensures c == a {
      KeysIdentify(c, a);
    }
  }

  predicate AllDashFree(a: Ident) {
    DashFree(a.clientId) && DashFree(a.userId) && DashFree(a.appName)
  }

  /** The only dashes of such a key are the two that join it. */
  lemma TwoDashes(a: Ident, i: nat)
    requires AllDashFree(a) && i < |Key(a)|
    ensures Key(a)[i] == '-' <==> i == |a.clientId| || i == |a.clientId| + 1 + |a.userId|
  {
    var c, u := |a.clientId|, |a.userId|;
    if i < c {
      assert Key(a)[i] == a.clientId[i];
    } else if c < i < c + 1 + u {
      assert Key(a)[i] == a.userId[i - c - 1];
    } else if i > c + 1 + u {
      assert Key(a)[i] == a.appName[i - c - u - 2];
    }
  }

  lemma JoiningDashes(b: Ident)
    ensures var i, j := |b.clientId|, |b.clientId| + 1 + |b.userId|;
            && i < j < |Key(b)| && Key(b)[i] == Key(b)[j] == '-'
            && b == Ident(Key(b)[..i], Key(b)[i + 1..j], Key(b)[j + 1..])
  {
    var i, j := |b.clientId|, |b.clientId| + 1 + |b.userId|;
    assert Key(b)[..i] == b.clientId;
    assert Key(b)[i + 1..j] == b.userId;
    assert Key(b)[j + 1..] == b.appName;
  }

  /** Another identity with the same key: one dash-separated piece moves into a neighbouring field. */
  lemma Collider(a: Ident) returns (b: Ident)
    requires !AllDashFree(a)
    ensures b != a && Key(b) == Key(a)
  {
    if !DashFree(a.clientId) {
      var x, y := SplitAtLastDash(a.clientId);
      b := Ident(x, y, a.userId + "-" + a.appName);
      assert |b.clientId| < |a.clientId|;
    } else if !DashFree(a.userId) {
      var x, y := SplitAtLastDash(a.userId);
      b := Ident(a.clientId + "-" + x, y, a.appName);
      assert |b.clientId| > |a.clientId|;
    } else {
      var x, y := SplitAtLastDash(a.appName);
      b := Ident(a.clientId + "-" + a.userId, x, y);
      assert |b.clientId| > |a.clientId|;
    }
  }

  /** A key belongs to one identity alone exactly when no field of it has a dash. */
  lemma KeyIsUnique(a: Ident)
    ensures (forall b: Ident | Key(b) == Key(a) :: b == a) <==>
      DashFree(a.clientId) && DashFree(a.userId) && DashFree(a.appName)
  {
    if AllDashFree(a) {
      JoiningDashes(a);
      forall b: Ident | Key(b) == Key(a) ensures b == a {
        JoiningDashes(b);
        TwoDashes(a, |b.clientId|);
        TwoDashes(a, |b.clientId| + 1 + |b.userId|);
      }
    } else {
      var b := Collider(a);
    }
  }

  /** Whoever has a dash in a field shares the record with somebody else, who is answered with the same port. */
  lemma SharedKey(w: World, a: Ident, clientPort: int, now: int) returns (b: Ident)
    requires Inv(w) && Key(a) in w.names
    requires !DashFree(a.clientId) || !DashFree(a.userId) || !DashFree(a.appName)
    ensures b != a && Key(b) == Key(a)
    ensures var (w', r) := AllocatePort(w, b, clientPort, now);
            && r.Some? && r.value.mappingPort == w.heap[w.names[Key(a)]].mappingPort
            && w'.names == w.names
  {
    b := Collider(a);
  }

  /** For instance client "a-b" of user "c" and client "a" of user "b-c". */
  lemma CollidingPair()
    ensures Key(Ident("a-b", "c", "d")) == Key(Ident("a", "b-c", "d"))
  {
    assert Key(Ident("a-b", "c", "d")) == "a-b-c-d";
    assert Key(Ident("a", "b-c", "d")) == "a-b-c-d";
  }

  // ---------- Stickiness ----------

  /** The steps that take a key out of the index: freeing exactly that key, or a sweep that finds it expired. */
  predicate Deletes(w: World, op: Op, k: string)
    requires Inv(w) && k in w.names
  {
    match op
    case FreeOp(who) => !IsBulk(who) && Key(who) == k
    case SweepOp(now) => Expired(w.heap[w.names[k]], now)
    case _ => false
  }

  lemma StickyStep(w: World, op: Op, k: string)
    requires Inv(w) && k in w.names
    ensures k in Next(w, op).names <==> !Deletes(w, op, k)
    ensures k in Next(w, op).names ==> SamePlace(w, Next(w, op), k)
  {
    hide AllocatePort, OnConnected;
    match op {
      case AllocateOp(who, clientPort, now) => StickyAllocate(w, who, clientPort, now, k);
      case ConnectOp(who, clientPort, mappingPort, now) => StickyConnect(w, who, clientPort, mappingPort, now, k);
      case FreeOp(who) => if !IsBulk(who) { StickyRemove(w, ExactIds(w, Key(who)), k); }
      case SweepOp(now) => StickyRemove(w, ExpiredIds(w, now), k);
      case _ =>
    }
  }

  /** The key still names the same record, on the same port. */
  ghost predicate SamePlace(w: World, w': World, k: string)
    requires Inv(w) && Inv(w') && k in w.names && k in w'.names
  {
    w'.names[k] == w.names[k] && w'.heap[w'.names[k]].mappingPort == w.heap[w.names[k]].mappingPort
  }

  lemma StickyAllocate(w: World, who: Ident, clientPort: int, now: int, k: string)
    requires Inv(w) && k in w.names
    ensures k in AllocatePort(w, who, clientPort, now).0.names
    ensures SamePlace(w, AllocatePort(w, who, clientPort, now).0, k)
  {
  }

  lemma StickyConnect(w: World, who: Ident, clientPort: int, mappingPort: int, now: int, k: string)
    requires Inv(w) && k in w.names
    ensures k in OnConnected(w, who, clientPort, mappingPort, now).0.names
    ensures SamePlace(w, OnConnected(w, who, clientPort, mappingPort, now).0, k)
  {
  }

  lemma StickyRemove(w: World, ids: set<nat>, k: string)
    requires Inv(w) && k in w.names && ids <= w.names.Values
    ensures forall id | id in ids :: id < |w.heap|
    ensures k in Remove(w, ids).names <==> w.names[k] !in ids
    ensures Remove(w, ids).heap[w.names[k]].mappingPort == w.heap[w.names[k]].mappingPort
  {
  }

  /** No step of the run deletes the key. */
  ghost predicate NeverDeleted(w: World, ops: seq<Op>, k: string)
    requires Inv(w) && k in w.names
    decreases |ops|
  {
    ops != [] ==>
      && !Deletes(w, ops[0], k)
      && (StickyStep(w, ops[0], k); NeverDeleted(Next(w, ops[0]), ops[1..], k))
  }

  /** Until the key itself is deleted, its record and port stay, and asking again returns the same port. */
  lemma {:induction false} PortIsSticky(w: World, ops: seq<Op>, who: Ident, clientPort: int, now: int)
    requires Inv(w) && Key(who) in w.names && NeverDeleted(w, ops, Key(who))
    ensures var w' := Run(w, ops);
            && Key(who) in w'.names && w'.names[Key(who)] == w.names[Key(who)]
            && var r := AllocatePort(w', who, clientPort, now).1;
            r.Some? && r.value.mappingPort == w.heap[w.names[Key(who)]].mappingPort
    decreases |ops|
  {
    if ops != [] {
      StickyStep(w, ops[0], Key(who));
      PortIsSticky(Next(w, ops[0]), ops[1..], who, clientPort, now);
    }
  }
}
