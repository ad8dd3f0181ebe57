/** The other goroutines, at work on the real allocator: whatever they do is one of the value runs. */
module Interleaving {
  import opened Wrappers
  import opened PortModel
  import opened PortRuns
  import opened PortAllocators

  class Others {
    /** Pointers to the records, as sessions hold them: to every one that was created, oldest first. */
    var held: seq<PortAllocation>

    ghost predicate Know(pa: PortAllocator)
      reads this, pa
    {
      held == pa.created
    }

    constructor (pa: PortAllocator)
      requires pa.created == []
      ensures Know(pa)
    {
      held := [];
    }

    /** One request, sweep or session write. */
    method Perform(pa: PortAllocator, op: Op)
      requires pa.Valid() && Know(pa)
      modifies this, pa, pa.created
      ensures pa.Valid() && pa.OnlyGrows() && Know(pa)
      ensures pa.world == Next(old(pa.world), op)
    {
      hide Inv;
      match op
      case AllocateOp(who, clientPort, now) =>
        var _ := pa.AllocatePort(who, clientPort, now);
        if Key(who) in pa.names {
          Meet(pa, pa.names[Key(who)]);
        }
      case ConnectOp(who, clientPort, mappingPort, now) =>
        var r := pa.OnConnected(who, clientPort, mappingPort, now);
        if r.Ok? {
          Meet(pa, r.value);
        }
      case DisconnectOp(id, now) =>
        if id < |held| {
          pa.OnDisconnected(held[id], id, now);
        }
      case FreeOp(who) =>
        var _ := pa.FreePort(who);
      case SweepOp(now) =>
        var _ := pa.FreeHangingPorts(now);
      case EndSessionOp(id) =>
        if id < |held| {
          ghost var w := EndSession(pa.world, id);
          pa.SetStatus(held[id], Allocated, id);
          assert pa.world == w;
        }
    }

    /** A record that was just created, or one known before. */
    method Meet(pa: PortAllocator, alloc: PortAllocation)
      requires pa.Valid() && alloc in pa.created && (Know(pa) || pa.created == held + [alloc])
      modifies this
      ensures Know(pa)
    {
      KnownOnce(pa, alloc);
      if alloc !in held {
        held := held + [alloc];
      }
    }

    lemma KnownOnce(pa: PortAllocator, alloc: PortAllocation)
      requires pa.Valid() && alloc in pa.created && (Know(pa) || pa.created == held + [alloc])
      ensures alloc in held <==> Know(pa)
    {
      if pa.created == held + [alloc] {
        assert pa.created[|held|] == alloc;
        assert forall i | 0 <= i < |held| :: held[i] == pa.created[i];
      }
    }

    method PerformAll(pa: PortAllocator, ops: seq<Op>)
      requires pa.Valid() && Know(pa)
      modifies this, pa, pa.created
      ensures pa.Valid() && pa.OnlyGrows() && Know(pa)
      ensures pa.world == Run(old(pa.world), ops)
    {
      hide Next, Inv;
      for i := 0 to |ops|
        invariant pa.Valid() && pa.OnlyGrows() && Know(pa)
        invariant Run(old(pa.world), ops) == Run(pa.world, ops[i..])
      {
        assert ops[i..][0] == ops[i] && ops[i..][1..] == ops[i + 1..];
        Perform(pa, ops[i]);
      }
    }
  }
}
