/** The two loops that run on time: the server's sweep ticker and the client's reconnect loop. */
module Timers {
  import opened Wrappers
  import opened PortModel
  import opened PortRuns
  import opened PortLifetime
  import opened PortAllocators
  import opened Interleaving

  /** One tick: what other goroutines do before it, and its time. */
  datatype Tick = Tick(before: seq<Op>, now: int)

  /** The run the ticks stand for. */
  function Sweeps(ticks: seq<Tick>): seq<Op> {
    if ticks == [] then [] else ticks[0].before + ([SweepOp(ticks[0].now)] + Sweeps(ticks[1..]))
  }

  /** Sweeps at every tick until the context ends, while the other goroutines go on in between. */
  method RunFreeHangingTimer(pa: PortAllocator, others: Others, ticks: seq<Tick>)
    requires pa.Valid() && others.Know(pa)
    modifies pa, pa.created, others
    ensures pa.Valid() && pa.OnlyGrows() && others.Know(pa)
    ensures pa.world == Run(old(pa.world), Sweeps(ticks))
  {
    hide FreeHangingPorts, Run, Inv;
    for i := 0 to |ticks|
      invariant pa.Valid() && pa.OnlyGrows() && others.Know(pa)
      invariant Run(old(pa.world), Sweeps(ticks)) == Run(pa.world, Sweeps(ticks[i..]))
    {
      SweepsStep(pa.world, ticks[i..]);
      assert ticks[i..][1..] == ticks[i + 1..];
      hide Sweeps;
      OneTick(pa, others, ticks[i]);
    }
    assert ticks[|ticks|..] == [];
    NoTicksLeft(pa.world);
  }

  method OneTick(pa: PortAllocator, others: Others, t: Tick)
    requires pa.Valid() && others.Know(pa)
    modifies pa, pa.created, others
    ensures pa.Valid() && pa.OnlyGrows() && others.Know(pa)
    ensures pa.world == FreeHangingPorts(Run(old(pa.world), t.before), t.now)
  {
    hide FreeHangingPorts, Run, Inv;
    others.PerformAll(pa, t.before);
    var _ := pa.FreeHangingPorts(t.now);
  }

  lemma NoTicksLeft(w: World)
    requires Inv(w)
    ensures Run(w, Sweeps([])) == w
  {
  }

  lemma SweepsStep(w: World, ticks: seq<Tick>)
    requires Inv(w) && ticks != []
    ensures Run(w, Sweeps(ticks)) == Run(FreeHangingPorts(Run(w, ticks[0].before), ticks[0].now), Sweeps(ticks[1..]))
  {
    hide Run, Inv, FreeHangingPorts;
    RunConcat(w, ticks[0].before, [SweepOp(ticks[0].now)] + Sweeps(ticks[1..]));
    RunCons(Run(w, ticks[0].before), SweepOp(ticks[0].now), Sweeps(ticks[1..]));
  }

  /** The ticks come every five minutes from `start`. */
  predicate OnTime(ticks: seq<Tick>, start: int) {
    forall i | 0 <= i < |ticks| :: ticks[i].now == start + (i + 1) * (5 * MINUTE)
  }

  lemma {:induction false} EveryTickSweeps(ticks: seq<Tick>, i: nat)
    requires i < |ticks|
    ensures SweepOp(ticks[i].now) in Sweeps(ticks)
  {
    if i > 0 {
      EveryTickSweeps(ticks[1..], i - 1);
    }
  }

  /** A ticker that is on time makes the run the fifteen-minute bound asks for, whatever happens between the ticks. */
  lemma {:induction false} TimerIsIdealTicker(ticks: seq<Tick>, start: int, until: int)
    requires OnTime(ticks, start) && start + (|ticks| + 1) * (5 * MINUTE) > until
    ensures IdealTicker(Sweeps(ticks), start, until)
  {
    forall n: nat | n >= 1
      && start + n * (5 * MINUTE) <= until ensures SweepOp(start + n * (5 * MINUTE)) in Sweeps(ticks) {
      assert n <= |ticks|;
      EveryTickSweeps(ticks, n - 1);
      assert ticks[n - 1].now == start + n * (5 * MINUTE);
    }
  }

  /** So on the timer's own run an entry nobody aims at is gone within fifteen minutes. */
  lemma TimerFreesHangingPort(w: World, ticks: seq<Tick>, id: nat, rec: Record, t: int, start: int)
    requires Inv(w) && Waiting(w, id, rec, t) && start <= t
    requires OnTime(ticks, start) && start + (|ticks| + 1) * (5 * MINUTE) > t + 15 * MINUTE
    requires Untouched(Sweeps(ticks), id, rec)
    ensures Gone(Run(w, Sweeps(ticks)), id, rec)
  {
    TimerIsIdealTicker(ticks, start, t + 15 * MINUTE);
    GoneWithinFifteenMinutes(w, Sweeps(ticks), id, rec, t, start);
  }

  // ---------- Reconnecting ----------

  /** Number of turns since the last connection that lasted, or since the start: the backoff's attempt counter. */
  function Streak(lasted: seq<bool>, i: nat): nat
    requires i < |lasted|
  {
    if lasted[i] || i == 0 then 0 else Streak(lasted, i - 1) + 1
  }

  /** The last turn up to `i` that started the count: one whose connection lasted, or the first. */
  lemma {:induction false} StreakCounts(lasted: seq<bool>, i: nat)
    requires i < |lasted|
    ensures Streak(lasted, i) <= i
    ensures var start := i - Streak(lasted, i);
            (start == 0 || lasted[start]) && forall j | start < j <= i :: !lasted[j]
  {
    if !lasted[i] && i > 0 {
      StreakCounts(lasted, i - 1);
    }
  }

  /** When nothing lasts, the counter is the number of the turn. */
  lemma NothingLasts(lasted: seq<bool>, i: nat)
    requires i < |lasted| && forall j | 0 <= j < |lasted| :: !lasted[j]
    ensures Streak(lasted, i) == i
  {
    StreakCounts(lasted, i);
  }

  /**
   The client's connection loop over as many turns as are given: `lasted[i]` tells
   whether turn i held a connection for more than five seconds. It gives up at the
   first turn that comes `maxRetry` turns after the count started, and never if
   `maxRetry` is negative. When nothing lasts it makes maxRetry + 1 attempts.
   */
  method ConnectionLoop(lasted: seq<bool>, maxRetry: int) returns (gaveUp: Option<nat>)
    ensures gaveUp.Some? ==> maxRetry >= 0 && gaveUp.value < |lasted| && Streak(lasted, gaveUp.value) >= maxRetry
    ensures maxRetry >= 0 ==>
      forall j | 0 <= j < (if gaveUp.Some? then gaveUp.value else |lasted|) :: Streak(lasted, j) < maxRetry
    ensures (forall j | 0 <= j < |lasted| :: !lasted[j]) && 0 <= maxRetry ==>
              gaveUp == if maxRetry < |lasted| then Some(maxRetry) else None
  {
    var attempt := 0;
    for i := 0 to |lasted|
      invariant i > 0 ==> attempt == Streak(lasted, i - 1) + 1
      invariant i == 0 ==> attempt == 0
      invariant maxRetry >= 0 ==> forall j | 0 <= j < i :: Streak(lasted, j) < maxRetry
    {
      if lasted[i] {
        attempt := 0;
      }
      if maxRetry >= 0 && attempt >= maxRetry {
        OnlyLast(lasted, maxRetry, Some(i));
        return Some(i);
      }
      attempt := attempt + 1;
    }
    OnlyLast(lasted, maxRetry, None);
    return None;
  }

  lemma OnlyLast(lasted: seq<bool>, maxRetry: int, gaveUp: Option<nat>)
    requires gaveUp.Some? ==> gaveUp.value < |lasted| && Streak(lasted, gaveUp.value) >= maxRetry
    requires maxRetry >= 0 ==>
      forall j | 0 <= j < (if gaveUp.Some? then gaveUp.value else |lasted|) :: Streak(lasted, j) < maxRetry
    ensures (forall j | 0 <= j < |lasted| :: !lasted[j]) && 0 <= maxRetry ==>
              gaveUp == if maxRetry < |lasted| then Some(maxRetry) else None
  {
    if (forall j | 0 <= j < |lasted| :: !lasted[j]) && 0 <= maxRetry {
      forall i: nat | i < |lasted| ensures Streak(lasted, i) == i {
        NothingLasts(lasted, i);
      }
      if maxRetry < |lasted| {
        assert Streak(lasted, maxRetry) == maxRetry;
      }
    }
  }
}
