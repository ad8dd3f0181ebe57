/**
 The tunnel's wait group, whose Done may be called too often: an atomic counter `n`
 in front of a sync.WaitGroup. Any number of goroutines run Add, Done and DoneAll,
 one atomic instruction at a time, in any order.
 */
module WaitGroups {
  const MAX_INT32 := 0x7fff_ffff

  /** Conversion to int32. */
  function Wrap32(x: int): (r: int)
    ensures -MAX_INT32 - 1 <= r <= MAX_INT32
    ensures -MAX_INT32 - 1 <= x <= MAX_INT32 ==> r == x
  {
    (x + MAX_INT32 + 1) % 0x1_0000_0000 - MAX_INT32 - 1
  }

  lemma WrapAdd(a: int, b: int)
    ensures Wrap32(Wrap32(a) + Wrap32(b)) == Wrap32(a + b)
  {
  }

  /** Where a goroutine stands; `all` tells a Done called by DoneAll's loop from one called by itself. */
  datatype Pc =
    | Idle
    | Bumped(k: int)                // Add: n is raised, the inner counter is not
    | AtLoad(all: bool)             // Done: about to load n
    | Loaded(v: int, all: bool)     // Done: loaded v > 0, about to compare and swap
    | Won(all: bool)                // Done: swapped, about to call inner.Done
    | AtCheck                       // DoneAll: about to test n > 0

  /** `live` is not in the program: it counts what was added less what was taken, without wrapping. */
  datatype State = State(n: int, inner: int, pcs: seq<Pc>, live: int)

  /** What an idle goroutine starts; `Go` is the next instruction of a busy one. */
  datatype Move = Add(k: int) | Done | DoneAll | Go

  function After(all: bool): Pc {
    if all then AtCheck else Idle
  }

  function Step(s: State, t: nat, m: Move): State {
    if t >= |s.pcs| then s
    else
      match (s.pcs[t], m)
      case (Idle, Add(k)) => State(Wrap32(s.n + Wrap32(k)), s.inner, s.pcs[t := Bumped(k)], s.live + k)
      case (Idle, Done) => s.(pcs := s.pcs[t := AtLoad(false)])
      case (Idle, DoneAll) => s.(pcs := s.pcs[t := AtCheck])
      case (Bumped(k), Go) => s.(inner := s.inner + k, pcs := s.pcs[t := Idle])
      case (AtLoad(all), Go) => s.(pcs := s.pcs[t := if s.n > 0 then Loaded(s.n, all) else After(all)])
      case (Loaded(v, all), Go) =>
        if s.n == v then State(v - 1, s.inner, s.pcs[t := Won(all)], s.live - 1)
        else s.(pcs := s.pcs[t := After(all)])
      case (Won(all), Go) => s.(inner := s.inner - 1, pcs := s.pcs[t := After(all)])
      case (AtCheck, Go) => s.(pcs := s.pcs[t := if s.n > 0 then AtLoad(true) else Idle])
      case _ => s
  }

  function Run(s: State, steps: seq<(nat, Move)>): State
    decreases |steps|
  {
    if steps == [] then s else Run(Step(s, steps[0].0, steps[0].1), steps[1..])
  }

  function Init(goroutines: nat): State {
    State(0, 0, seq(goroutines, _ => Idle), 0)
  }

  /** What the Adds under way have put into n but not yet into the inner counter. */
  function InFlight(pcs: seq<Pc>): int {
    if pcs == [] then 0 else (if pcs[0].Bumped? then pcs[0].k else 0) + InFlight(pcs[1..])
  }

  /** How many Dones have lowered n but not yet the inner counter. */
  function Wins(pcs: seq<Pc>): nat {
    if pcs == [] then 0 else (if pcs[0].Won? then 1 else 0) + Wins(pcs[1..])
  }

  lemma {:induction false} CountsAfter(pcs: seq<Pc>, t: nat, pc: Pc)
    requires t < |pcs|
    ensures InFlight(pcs[t := pc])
      == InFlight(pcs) - (if pcs[t].Bumped? then pcs[t].k else 0) + (if pc.Bumped? then pc.k else 0)
    ensures Wins(pcs[t := pc]) == Wins(pcs) - (if pcs[t].Won? then 1 else 0) + (if pc.Won? then 1 else 0)
  {
    if t == 0 {
      assert pcs[0 := pc][1..] == pcs[1..];
    } else {
      assert pcs[t := pc][1..] == pcs[1..][t - 1 := pc];
      CountsAfter(pcs[1..], t - 1, pc);
    }
  }

  lemma {:induction false} AllIdle(pcs: seq<Pc>)
    requires forall i | 0 <= i < |pcs| :: pcs[i] == Idle
    ensures InFlight(pcs) == 0 && Wins(pcs) == 0
  {
    if pcs != [] { AllIdle(pcs[1..]); }
  }

  /**
   The books balance: n is the live count, the inner counter lags by the Adds under way and
   leads by the won Dones.
   */
  ghost predicate Balanced(s: State) {
    && s.n == Wrap32(s.live)
    && s.inner == s.live - InFlight(s.pcs) + Wins(s.pcs)
    && forall i | 0 <= i < |s.pcs| && s.pcs[i].Loaded? :: 0 < s.pcs[i].v <= MAX_INT32
  }

  lemma BalancedStep(s: State, t: nat, m: Move)
    requires Balanced(s)
    ensures Balanced(Step(s, t, m))
  {
    var s' := Step(s, t, m);
    if t < |s.pcs| {
      CountsAfter(s.pcs, t, s'.pcs[t]);
      assert s'.pcs == s.pcs[t := s'.pcs[t]];
      if m.Add? { WrapAdd(s.live, m.k); }
      WrapAdd(s.live, -1);
    }
  }

  /** In every interleaving of any number of goroutines. */
  lemma {:induction false} BalancedRun(s: State, steps: seq<(nat, Move)>)
    requires Balanced(s)
    ensures Balanced(Run(s, steps))
    decreases |steps|
  {
    if steps != [] {
      BalancedStep(s, steps[0].0, steps[0].1);
      BalancedRun(Step(s, steps[0].0, steps[0].1), steps[1..]);
    }
  }

  /** The counter has not left the range of int32, in either direction. */
  predicate Exact(s: State) {
    s.n == s.live && 0 <= s.n <= MAX_INT32
  }

  /** The first instruction of an Add keeps the counter in range. */
  predicate Fits(s: State, t: nat, m: Move) {
    t < |s.pcs| && s.pcs[t].Idle? && m.Add? ==> 0 <= s.n + m.k <= MAX_INT32
  }

  /** Dones never take too much, however often they are called: only an Add can spoil the counter, by its size. */
  lemma ExactStep(s: State, t: nat, m: Move)
    requires Balanced(s) && Exact(s)
    ensures Exact(Step(s, t, m)) <==> Fits(s, t, m)
  {
    if m.Add? { WrapAdd(s.live, m.k); }
  }

  ghost predicate AllFit(s: State, steps: seq<(nat, Move)>)
    decreases |steps|
  {
    steps != [] ==> Fits(s, steps[0].0, steps[0].1) && AllFit(Step(s, steps[0].0, steps[0].1), steps[1..])
  }

  lemma {:induction false} ExactRun(s: State, steps: seq<(nat, Move)>)
    requires Balanced(s) && Exact(s) && AllFit(s, steps)
    ensures Exact(Run(s, steps))
    decreases |steps|
  {
    if steps != [] {
      var (t, m) := steps[0];
      BalancedStep(s, t, m);
      ExactStep(s, t, m);
      ExactRun(Step(s, t, m), steps[1..]);
    }
  }

  ghost predicate NoAddInFlight(s: State) {
    forall i | 0 <= i < |s.pcs| :: !s.pcs[i].Bumped?
  }

  lemma {:induction false} NothingInFlight(pcs: seq<Pc>)
    requires forall i | 0 <= i < |pcs| :: !pcs[i].Bumped?
    ensures InFlight(pcs) == 0
  {
    if pcs != [] { NothingInFlight(pcs[1..]); }
  }

  /**
   From any start of idle goroutines: n is never negative, and neither is the inner counter
   while no Add is half done.
   */
  lemma CountersNeverNegative(goroutines: nat, steps: seq<(nat, Move)>)
    requires AllFit(Init(goroutines), steps)
    ensures var s := Run(Init(goroutines), steps);
            && s.n >= 0
            && s.inner == s.n - InFlight(s.pcs) + Wins(s.pcs)
            && (NoAddInFlight(s) ==> s.inner >= s.n)
  {
    var s0 := Init(goroutines);
    AllIdle(s0.pcs);
    BalancedRun(s0, steps);
    ExactRun(s0, steps);
    if NoAddInFlight(Run(s0, steps)) {
      NothingInFlight(Run(s0, steps).pcs);
    }
  }

  /**
   While an Add is half done it can be: a Done that lands between its two instructions
   drives the inner counter to -1.
   */
  lemma DoneInsideAdd()
    ensures var s := Run(Init(2), [(0, Add(1)), (1, Done), (1, Go), (1, Go), (1, Go)]);
            s.inner == -1 && s.n == 0 && s.pcs == [Bumped(1), Idle]
  {
    var s0 := Init(2);
    assert s0.pcs == [Idle, Idle];
    var s1 := Step(s0, 0, Add(1));
    var s2 := Step(s1, 1, Done);
    var s3 := Step(s2, 1, Go);
    var s4 := Step(s3, 1, Go);
    var s5 := Step(s4, 1, Go);
    assert s1.n == 1 && s3.pcs[1] == Loaded(1, false) && s5.inner == -1;
    var steps := [(0, Add(1)), (1, Done), (1, Go), (1, Go), (1, Go)];
    assert steps[1..] == [(1, Done), (1, Go), (1, Go), (1, Go)] && steps[1..][1..] == [(1, Go), (1, Go), (1, Go)];
    assert Run(s0, steps) == Run(s1, steps[1..]) == Run(s2, steps[1..][1..]);
    assert steps[1..][1..][1..] == [(1, Go), (1, Go)];
    assert Run(s2, [(1, Go), (1, Go), (1, Go)]) == Run(s3, [(1, Go), (1, Go)]);
    assert [(1, Go), (1, Go)][1..] == [(1, Go)];
    assert Run(s3, [(1, Go), (1, Go)]) == Run(s4, [(1, Go)]) == Run(s5, []);
  }

  /** The real counter goes below zero, which is a panic, only in that window. */
  lemma PanicOnlyInsideAdd(s: State, t: nat, m: Move)
    requires Balanced(s) && Exact(s) && s.inner >= 0
    requires Step(s, t, m).inner < 0 && Fits(s, t, m)
    ensures t < |s.pcs| && !NoAddInFlight(s)
    ensures s.pcs[t].Won? ==> s.inner == 0
  {
    BalancedStep(s, t, m);
    ExactStep(s, t, m);
    if NoAddInFlight(s) {
      NothingInFlight(Step(s, t, m).pcs);
    }
  }

  // ---------- How long a call takes ----------

  /** Instructions a Done of its own still has to run, at most. */
  function StepsLeft(pc: Pc): nat {
    match pc
    case AtLoad(all) => if all then 0 else 3
    case Loaded(_, all) => if all then 0 else 2
    case Won(all) => if all then 0 else 1
    case _ => 0
  }

  /**
   Whatever others do, a Done is over after at most three instructions: if it loses the
   race it does not try again.
   */
  lemma DoneIsWaitFree(s: State, t: nat)
    requires t < |s.pcs| && StepsLeft(s.pcs[t]) > 0
    ensures var s' := Step(s, t, Go);
            && StepsLeft(s'.pcs[t]) < StepsLeft(s.pcs[t])
            && (StepsLeft(s'.pcs[t]) == 0 ==> s'.pcs[t] == Idle)
  {
  }

  /**
   A goroutine lowers n only by winning it, by one and from the value it loaded, and then
   lowers the inner counter by one.
   */
  lemma WinsLowerByOne(s: State, t: nat)
    requires Balanced(s) && t < |s.pcs|
    ensures var s' := Step(s, t, Go);
            && (s'.n != s.n <==> s.pcs[t].Loaded? && s.pcs[t].v == s.n)
            && (s'.n != s.n ==> s'.n == s.n - 1 && s'.pcs[t].Won? && s'.inner == s.inner)
            && (s.pcs[t].Won? ==> s'.n == s.n && s'.inner == s.inner - 1 && !s'.pcs[t].Won?)
  {
  }

  /** A DoneAll ends only at a moment when nothing is left in n, and it does end there. */
  lemma DoneAllLeavesNothing(s: State, t: nat)
    requires t < |s.pcs| && s.pcs[t] == AtCheck
    ensures Step(s, t, Go).pcs[t] == Idle <==> s.n <= 0
    ensures Step(s, t, Go).pcs[t] != Idle ==> Step(s, t, Go).pcs[t] == AtLoad(true)
  {
  }

  /** The instructions inside it lead back to that test. */
  lemma DoneAllLoops(s: State, t: nat)
    requires t < |s.pcs|
    requires s.pcs[t] == AtLoad(true) || (s.pcs[t].Loaded? && s.pcs[t].all) || s.pcs[t] == Won(true)
    ensures var pc := Step(s, t, Go).pcs[t];
            pc == AtCheck || (pc.Loaded? && pc.all && pc.v == s.n) || pc == Won(true)
  {
  }

  // ---------- Without interference ----------

  /** The wait group as one goroutine sees it when no other runs. */
  class WaitGroup {
    var n: int
    var inner: int

    constructor ()
      ensures n == 0 && inner == 0
    {
      n, inner := 0, 0;
    }

    method Add(k: int)
      modifies this
      ensures n == Wrap32(old(n) + Wrap32(k)) && inner == old(inner) + k
    {
      n := Wrap32(n + Wrap32(k));
      inner := inner + k;
    }

    /** A Done too many changes nothing. */
    method Done()
      modifies this
      ensures n == (if old(n) > 0 then old(n) - 1 else old(n)) && inner - n == old(inner) - old(n)
    {
      var v := n;
      if v > 0 && n == v {
        n := v - 1;
        inner := inner - 1;
      }
    }

    /** Takes whatever is left: an open count goes to zero in both counters alike. */
    method DoneAll()
      modifies this
      ensures n == (if old(n) > 0 then 0 else old(n)) && inner - n == old(inner) - old(n)
    {
      while n > 0
        invariant n == old(n) || 0 <= n < old(n)
        invariant inner - n == old(inner) - old(n)
      {
        Done();
      }
    }
  }

  /** The instructions of a DoneAll that meets n == count, when it runs alone. */
  function SoloDoneAll(t: nat, count: nat): seq<(nat, Move)> {
    if count == 0 then [(t, Go)] else [(t, Go), (t, Go), (t, Go), (t, Go)] + SoloDoneAll(t, count - 1)
  }

  /** Run alone, the instructions of the machine do what the class's DoneAll promises. */
  lemma {:induction false} SoloDoneAllDrains(s: State, t: nat)
    requires t < |s.pcs| && s.pcs[t] == AtCheck && s.n >= 0
    ensures Run(s, SoloDoneAll(t, s.n)) == State(0, s.inner - s.n, s.pcs[t := Idle], s.live - s.n)
    decreases s.n
  {
    if s.n == 0 {
      assert SoloDoneAll(t, 0)[1..] == [];
    } else {
      var four, rest := [(t, Go), (t, Go), (t, Go), (t, Go)], SoloDoneAll(t, s.n - 1);
      var s4 := State(s.n - 1, s.inner - 1, s.pcs[t := AtCheck], s.live - 1);
      SoloDone(s, t, rest);
      SoloDoneAllDrains(s4, t);
      assert s4.pcs[t := Idle] == s.pcs[t := Idle];
    }
  }

  /** The four instructions of one turn of the loop, uncontended. */
  lemma SoloTurn(s: State, t: nat)
    requires t < |s.pcs| && s.pcs[t] == AtCheck && s.n > 0
    ensures Step(Step(Step(Step(s, t, Go), t, Go), t, Go), t, Go) ==
            State(s.n - 1, s.inner - 1, s.pcs[t := AtCheck], s.live - 1)
  {
    var s1 := s.(pcs := s.pcs[t := AtLoad(true)]);
    var s2 := s.(pcs := s.pcs[t := Loaded(s.n, true)]);
    var s3 := State(s.n - 1, s.inner, s.pcs[t := Won(true)], s.live - 1);
    assert s1.pcs[t := Loaded(s.n, true)] == s2.pcs;
    assert s2.pcs[t := Won(true)] == s3.pcs;
    assert s3.pcs[t := AtCheck] == s.pcs[t := AtCheck];
    assert Step(s, t, Go) == s1;
    assert Step(s1, t, Go) == s2;
    assert Step(s2, t, Go) == s3;
  }

  lemma SoloDone(s: State, t: nat, rest: seq<(nat, Move)>)
    requires t < |s.pcs| && s.pcs[t] == AtCheck && s.n > 0
    ensures Run(s, [(t, Go), (t, Go), (t, Go), (t, Go)] + rest) ==
            Run(State(s.n - 1, s.inner - 1, s.pcs[t := AtCheck], s.live - 1), rest)
  {
    SoloTurn(s, t);
    hide Step, Run;
    var s1 := Step(s, t, Go);
    var s2 := Step(s1, t, Go);
    var s3 := Step(s2, t, Go);
    var g := (t, Go);
    RunCons(s, g, [g, g, g] + rest);
    RunCons(s1, g, [g, g] + rest);
    RunCons(s2, g, [g] + rest);
    RunCons(s3, g, rest);
    assert [g, g, g, g] + rest == [g] + ([g, g, g] + rest);
    assert [g, g, g] + rest == [g] + ([g, g] + rest) && [g, g] + rest == [g] + ([g] + rest);
  }

  lemma RunCons(s: State, step: (nat, Move), rest: seq<(nat, Move)>)
    ensures Run(s, [step] + rest) == Run(Step(s, step.0, step.1), rest)
  {
    assert ([step] + rest)[1..] == rest;
  }
}
