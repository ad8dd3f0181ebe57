/**
 The gate that holds callers back while a tunnel has no SSH connection: BindSSH runs
 once per connection, one after the other, on goroutine 0 of the wait group; every
 call also leaves behind a goroutine that, once its context is cancelled, empties the
 wait group, at any later moment. Goroutine i >= 1 belongs to the i-th connection.
 */
module ReconnectGate {
  import opened Wrappers
  import WG = WaitGroups

  datatype Binder =
    | Ready                     // no BindSSH under way
    | Setting(conn: nat)        // about to lock and set activeConn
    | Releasing(conn: nat)      // inside activatingConn.Done
    | Serving(conn: nat)        // blocked in c.Wait
    | Blocking(conn: nat)       // inside activatingConn.Add(1), n raised already
    | Clearing(conn: nat)       // about to lock and clear activeConn
    | DoubleBind                // the panic

  /** `taken` is not in the program: a canceller has taken the count since it was last raised. */
  datatype Gate = Gate(wg: WG.State, active: Option<nat>, binder: Binder, fired: set<nat>, taken: bool)

  datatype Event =
    | Bind                      // BindSSH is called with the next connection
    | Advance                   // the next atomic step of BindSSH
    | Cancel(i: nat)            // the context of connection i is done
    | Canceller(i: nat)         // the next instruction of connection i's DoneAll

  /** New adds one before anybody can see the tunnel. */
  function Init(): Gate {
    Gate(WG.State(1, 1, [WG.Idle], 1), None, Ready, {}, false)
  }

  function Next(g: Gate, e: Event): Gate {
    match e
    case Bind =>
      if g.binder == Ready then
        g.(binder := Setting(|g.wg.pcs|), wg := g.wg.(pcs := g.wg.pcs + [WG.Idle]))
      else g
    case Advance => Advanced(g)
    case Cancel(i) =>
      if 1 <= i < |g.wg.pcs| && i !in g.fired then
        g.(fired := g.fired + {i}, wg := WG.Step(g.wg, i, WG.DoneAll))
      else g
    case Canceller(i) =>
      if 1 <= i < |g.wg.pcs| then
        var wg' := WG.Step(g.wg, i, WG.Go);
        g.(wg := wg', taken := g.taken || wg'.n < g.wg.n)
      else g
  }

  function Advanced(g: Gate): Gate {
    match g.binder
    case Setting(c) =>
      if g.active.Some? then g.(binder := DoubleBind)
      else g.(active := Some(c), binder := Releasing(c), wg := WG.Step(g.wg, 0, WG.Done))
    case Releasing(c) =>
      var wg' := WG.Step(g.wg, 0, WG.Go);
      g.(wg := wg', binder := if wg'.pcs != [] && wg'.pcs[0] == WG.Idle then Serving(c) else g.binder)
    case Serving(c) => g.(binder := Blocking(c), wg := WG.Step(g.wg, 0, WG.Add(1)), taken := false)
    case Blocking(c) => g.(binder := Clearing(c), wg := WG.Step(g.wg, 0, WG.Go))
    case Clearing(c) => g.(binder := Ready, active := None)
    case _ => g
  }

  function Run(g: Gate, events: seq<Event>): Gate
    decreases |events|
  {
    if events == [] then g else Run(Next(g, events[0]), events[1..])
  }

  /** Nobody waits: sync.WaitGroup lets its waiters go when its counter is zero. */
  predicate Open(g: Gate) {
    g.wg.inner == 0
  }

  /** Canceller i has not started, or runs DoneAll; a loaded value can only be 1. */
  predicate CancellerPc(pc: WG.Pc, fired: bool) {
    match pc
    case Idle => true
    case AtCheck => fired
    case AtLoad(all) => all && fired
    case Loaded(v, all) => all && fired && v == 1
    case Won(all) => all && fired
    case Bumped(_) => false
  }

  predicate BinderPc(g: Gate)
    requires g.wg.pcs != []
  {
    var pc := g.wg.pcs[0];
    match g.binder
    case Releasing(_) => pc == WG.AtLoad(false) || pc == WG.Loaded(1, false) || (pc == WG.Won(false) && g.wg.n == 0)
    case Blocking(_) => pc == WG.Bumped(1)
    case DoubleBind => false
    case _ => pc == WG.Idle
  }

  /** What every reachable state keeps. */
  ghost predicate Inv(g: Gate) {
    && WG.Balanced(g.wg)
    && g.wg.n == g.wg.live && 0 <= g.wg.n <= 1
    && g.wg.pcs != [] && BinderPc(g)
    && (forall i | 1 <= i < |g.wg.pcs| :: CancellerPc(g.wg.pcs[i], i in g.fired))
    && (g.active == if g.binder.Ready? || g.binder.Setting? then None else Some(g.binder.conn))
    && (g.binder.Serving? ==> g.wg.n == 0)
    && (!g.binder.Releasing? && !g.binder.Serving? ==> (g.wg.n == 0 <==> g.taken))
    && (g.binder.Releasing? && g.wg.pcs[0] != WG.Won(false) ==> (g.wg.n == 0 <==> g.taken))
    && (g.taken ==> g.fired != {})
  }

  lemma {:induction false} AppendIdle(pcs: seq<WG.Pc>)
    ensures WG.InFlight(pcs + [WG.Idle]) == WG.InFlight(pcs) && WG.Wins(pcs + [WG.Idle]) == WG.Wins(pcs)
  {
    if pcs == [] {
      assert pcs + [WG.Idle] == [WG.Idle];
    } else {
      assert (pcs + [WG.Idle])[1..] == pcs[1..] + [WG.Idle];
      AppendIdle(pcs[1..]);
    }
  }

  lemma InvStep(g: Gate, e: Event)
    requires Inv(g)
    ensures Inv(Next(g, e))
  {
    hide Inv, Advanced, WG.Step;
    match e {
      case Bind => InvBind(g);
      case Advance => InvAdvance(g);
      case Cancel(i) => InvCancel(g, i);
      case Canceller(i) => InvCanceller(g, i);
    }
  }

  lemma InvBind(g: Gate)
    requires Inv(g)
    ensures Inv(Next(g, Bind))
  {
    AppendIdle(g.wg.pcs);
  }

  lemma InvCancel(g: Gate, i: nat)
    requires Inv(g)
    ensures Inv(Next(g, Cancel(i)))
  {
    WG.BalancedStep(g.wg, i, WG.DoneAll);
  }

  lemma InvCanceller(g: Gate, i: nat)
    requires Inv(g)
    ensures Inv(Next(g, Canceller(i)))
  {
    WG.BalancedStep(g.wg, i, WG.Go);
  }

  lemma InvAdvance(g: Gate)
    requires Inv(g)
    ensures Inv(Advanced(g))
  {
    match g.binder {
      case Setting(_) => InvSetting(g);
      case Releasing(_) => InvReleasing(g);
      case Serving(_) => InvServing(g);
      case Blocking(_) => InvBlocking(g);
      case _ =>
    }
  }

  lemma InvSetting(g: Gate)
    requires Inv(g) && g.binder.Setting?
    ensures Inv(Advanced(g))
  {
    WG.BalancedStep(g.wg, 0, WG.Done);
    hide WG.Balanced;
  }

  lemma InvReleasing(g: Gate)
    requires Inv(g) && g.binder.Releasing?
    ensures Inv(Advanced(g))
  {
    WG.BalancedStep(g.wg, 0, WG.Go);
    hide WG.Balanced;
  }

  lemma InvServing(g: Gate)
    requires Inv(g) && g.binder.Serving?
    ensures Inv(Advanced(g))
  {
    WG.BalancedStep(g.wg, 0, WG.Add(1));
    hide WG.Balanced;
  }

  lemma InvBlocking(g: Gate)
    requires Inv(g) && g.binder.Blocking?
    ensures Inv(Advanced(g))
  {
    WG.BalancedStep(g.wg, 0, WG.Go);
    hide WG.Balanced;
  }

  lemma {:induction false} InvRun(g: Gate, events: seq<Event>)
    requires Inv(g)
    ensures Inv(Run(g, events))
    decreases |events|
  {
    if events != [] {
      InvStep(g, events[0]);
      InvRun(Next(g, events[0]), events[1..]);
    }
  }

  lemma InitInv()
    ensures Inv(Init())
  {
    assert WG.InFlight([WG.Idle]) == 0 && WG.Wins([WG.Idle]) == 0;
  }

  lemma Reachable(events: seq<Event>)
    ensures Inv(Run(Init(), events))
  {
    hide Run, Init, Inv;
    InitInv();
    InvRun(Init(), events);
  }

  /** Over any number of reconnects and cancellations, n stays 0 or 1 and "double bind ssh" is unreachable. */
  lemma NeverDoubleBind(events: seq<Event>)
    ensures var g := Run(Init(), events);
            && !g.binder.DoubleBind? && 0 <= g.wg.n <= 1
            && (g.binder.Setting? ==> g.active.None?)
  {
    hide Run, Init;
    Reachable(events);
  }

  // ---------- When the gate is open ----------

  /** Only the binder is ever inside an Add, so the inner counter is off by at most that one. */
  lemma InnerCounter(g: Gate)
    requires Inv(g)
    ensures g.wg.inner == g.wg.n - (if g.binder.Blocking? then 1 else 0) + WG.Wins(g.wg.pcs)
  {
    assert g.wg.pcs == g.wg.pcs[0 := WG.Idle][0 := g.wg.pcs[0]];
    WG.CountsAfter(g.wg.pcs, 0, WG.Idle);
    WG.NothingInFlight(g.wg.pcs[0 := WG.Idle]);
  }

  lemma {:induction false} NoWins(pcs: seq<WG.Pc>)
    ensures WG.Wins(pcs) == 0 <==> forall i | 0 <= i < |pcs| :: !pcs[i].Won?
  {
    if pcs != [] {
      NoWins(pcs[1..]);
      assert forall i | 1 <= i < |pcs| :: pcs[i] == pcs[1..][i - 1];
    }
  }

  /** As long as no context has been cancelled, an open gate means there is a connection, and the counter is 0 or 1. */
  lemma OpenMeansConnected(events: seq<Event>)
    ensures var g := Run(Init(), events);
            g.fired == {} ==>
              && 0 <= g.wg.inner <= 1
              && (Open(g) ==> g.active.Some?)
  {
    hide Run, Init;
    Reachable(events);
    var g := Run(Init(), events);
    if g.fired == {} {
      InnerCounter(g);
      WG.CountsAfter(g.wg.pcs, 0, WG.Idle);
      NoWins(g.wg.pcs[0 := WG.Idle]);
    }
  }

  /**
   With cancellations, the gate stands open without a connection exactly when a
   canceller has taken the count since it was last raised and none is half done.
   */
  lemma OpenWithoutConnection(events: seq<Event>)
    ensures var g := Run(Init(), events);
            g.active.None? ==> (Open(g) <==> g.taken && forall i | 0 <= i < |g.wg.pcs| :: !g.wg.pcs[i].Won?)
  {
    hide Run, Init;
    Reachable(events);
    var g := Run(Init(), events);
    InnerCounter(g);
    NoWins(g.wg.pcs);
  }

  /** The wait group's counter is negative, a panic, exactly when a canceller took the count inside BindSSH's Add. */
  lemma NegativeCounter(events: seq<Event>)
    ensures var g := Run(Init(), events);
            g.wg.inner < 0 <==> g.binder.Blocking? && g.taken && forall i | 0 <= i < |g.wg.pcs| :: !g.wg.pcs[i].Won?
  {
    hide Run, Init;
    Reachable(events);
    var g := Run(Init(), events);
    InnerCounter(g);
    NoWins(g.wg.pcs);
  }

  // ---------- An ordinary reconnect opens the gate ----------

  lemma RunCons(g: Gate, e: Event, rest: seq<Event>)
    ensures Run(g, [e] + rest) == Run(Next(g, e), rest)
  {
    assert ([e] + rest)[1..] == rest;
  }

  lemma {:induction false} RunConcat(g: Gate, a: seq<Event>, b: seq<Event>)
    ensures Run(g, a + b) == Run(Run(g, a), b)
    decreases |a|
  {
    if a == [] {
      assert a + b == b;
    } else {
      assert (a + b)[1..] == a[1..] + b;
      RunConcat(Next(g, a[0]), a[1..], b);
    }
  }

  lemma RunFour(g: Gate, a: Event, b: Event, c: Event, d: Event)
    ensures Run(g, [a, b, c, d]) == Next(Next(Next(Next(g, a), b), c), d)
  {
    hide Next;
    RunCons(g, a, [b, c, d]);
    RunCons(Next(g, a), b, [c, d]);
    RunCons(Next(Next(g, a), b), c, [d]);
    RunCons(Next(Next(Next(g, a), b), c), d, []);
    assert [a, b, c, d] == [a] + [b, c, d] && [b, c, d] == [b] + [c, d] && [c, d] == [c] + [d] && [d] == [d] + [];
  }

  /** One BindSSH from its call to its return. */
  function Connection(): seq<Event> {
    [Bind, Advance, Advance, Advance] + [Advance, Advance, Advance, Advance]
  }

  /** The tunnel with `k` more connections behind it, none of them cancelled. */
  function Richer(g: Gate, k: nat): Gate {
    g.(wg := g.wg.(pcs := g.wg.pcs + seq(k, _ => WG.Idle)))
  }

  /** Half of a connection: the gate is open, as soon as inner.Done has run. */
  lemma ConnectionBound(g: Gate) returns (bound: Gate)
    requires Inv(g) && g.binder == Ready && g.wg.n == 1
    ensures bound == Run(g, [Bind, Advance, Advance, Advance])
    ensures bound == Gate(WG.State(0, g.wg.inner, Richer(g, 1).wg.pcs[0 := WG.Won(false)], g.wg.live - 1),
                          Some(|g.wg.pcs|), Releasing(|g.wg.pcs|), g.fired, g.taken)
  {
    var c, pcs := |g.wg.pcs|, g.wg.pcs + [WG.Idle];
    assert Richer(g, 1).wg.pcs == pcs;
    RunFour(g, Bind, Advance, Advance, Advance);
    var g1 := g.(binder := Setting(c), wg := g.wg.(pcs := pcs));
    var g2 := g1.(active := Some(c), binder := Releasing(c), wg := g1.wg.(pcs := pcs[0 := WG.AtLoad(false)]));
    var g3 := g2.(wg := g1.wg.(pcs := pcs[0 := WG.Loaded(1, false)]));
    assert pcs[0 := WG.AtLoad(false)][0 := WG.Loaded(1, false)] == pcs[0 := WG.Loaded(1, false)];
    assert pcs[0 := WG.Loaded(1, false)][0 := WG.Won(false)] == pcs[0 := WG.Won(false)];
    assert Next(g, Bind) == g1;
    assert Next(g1, Advance) == g2;
    assert Next(g2, Advance) == g3;
    bound := Next(g3, Advance);
  }

  lemma ConnectionCleared(g: Gate, bound: Gate)
    requires Inv(g) && g.binder == Ready && g.wg.n == 1
    requires bound == Gate(WG.State(0, g.wg.inner, Richer(g, 1).wg.pcs[0 := WG.Won(false)], g.wg.live - 1),
                           Some(|g.wg.pcs|), Releasing(|g.wg.pcs|), g.fired, g.taken)
    ensures Run(bound, [Advance, Advance, Advance, Advance]) == Richer(g, 1)
  {
    var c, pcs := |g.wg.pcs|, Richer(g, 1).wg.pcs;
    RunFour(bound, Advance, Advance, Advance, Advance);
    var g5 := bound.(binder := Serving(c), wg := WG.State(0, g.wg.inner - 1, pcs, g.wg.live - 1));
    var g6 := g5.(binder := Blocking(c), wg := WG.State(1, g.wg.inner - 1, pcs[0 := WG.Bumped(1)], g.wg.live),
      taken := false);
    var g7 := g6.(binder := Clearing(c), wg := WG.State(1, g.wg.inner, pcs, g.wg.live));
    assert pcs[0] == WG.Idle;
    assert pcs[0 := WG.Won(false)][0 := WG.Idle] == pcs && pcs[0 := WG.Bumped(1)][0 := WG.Idle] == pcs;
    assert Next(bound, Advance) == g5;
    assert Next(g5, Advance) == g6;
    assert Next(g6, Advance) == g7;
    assert Next(g7, Advance) == Richer(g, 1);
  }

  /** A connection that comes and goes uncancelled leaves a shut gate as it found it, one canceller richer. */
  lemma OneConnection(g: Gate)
    requires Inv(g) && g.binder == Ready && g.wg.n == 1
    ensures Run(g, Connection()) == Richer(g, 1)
  {
    var bound := ConnectionBound(g);
    ConnectionCleared(g, bound);
    RunConcat(g, [Bind, Advance, Advance, Advance], [Advance, Advance, Advance, Advance]);
  }

  function Connections(k: nat): seq<Event> {
    if k == 0 then [] else Connection() + Connections(k - 1)
  }

  /** And so does any number of them, one after the other. */
  lemma {:induction false} ManyConnections(g: Gate, k: nat)
    requires Inv(g) && g.binder == Ready && g.wg.n == 1
    ensures Run(g, Connections(k)) == Richer(g, k)
    decreases k
  {
    if k == 0 {
      assert Richer(g, 0).wg.pcs == g.wg.pcs;
    } else {
      OneConnection(g);
      InvRun(g, Connection());
      RunConcat(g, Connection(), Connections(k - 1));
      ManyConnections(Richer(g, 1), k - 1);
      assert Richer(Richer(g, 1), k - 1).wg.pcs == Richer(g, k).wg.pcs;
    }
  }

  /** Halfway into the Add of the first connection, its context cancelled. */
  lemma UpToAdd()
    ensures Run(Init(), [Bind, Advance, Advance, Advance] + [Advance, Advance, Cancel(1), Canceller(1)])
            == Gate(WG.State(1, 0, [WG.Bumped(1), WG.AtLoad(true)], 1), Some(1), Blocking(1), {1}, false)
  {
    InitInv();
    hide Inv, Run;
    var bound := ConnectionBound(Init());
    assert Richer(Init(), 1).wg.pcs == [WG.Idle, WG.Idle];
    assert bound == Gate(WG.State(0, 1, [WG.Won(false), WG.Idle], 0), Some(1), Releasing(1), {}, false);
    var g2 := Next(Next(bound, Advance), Advance);
    assert g2 == Gate(WG.State(1, 0, [WG.Bumped(1), WG.Idle], 1), Some(1), Blocking(1), {}, false);
    var g3 := Next(g2, Cancel(1));
    assert g3 == g2.(fired := {1}, wg := WG.State(1, 0, [WG.Bumped(1), WG.AtCheck], 1));
    assert Next(g3, Canceller(1)) == g3.(wg := WG.State(1, 0, [WG.Bumped(1), WG.AtLoad(true)], 1));
    hide Next, Init, Richer;
    RunConcat(Init(), [Bind, Advance, Advance, Advance], [Advance, Advance, Cancel(1), Canceller(1)]);
    RunFour(bound, Advance, Advance, Cancel(1), Canceller(1));
  }

  lemma RunThree(g: Gate, a: Event, b: Event, c: Event)
    ensures Run(g, [a, b, c]) == Next(Next(Next(g, a), b), c)
  {
    hide Next;
    RunCons(g, a, [b, c]);
    RunCons(Next(g, a), b, [c]);
    RunCons(Next(Next(g, a), b), c, []);
    assert [a, b, c] == [a] + [b, c] && [b, c] == [b] + [c] && [c] == [c] + [];
  }

  /**
   From New: the context is cancelled while BindSSH is between the two instructions of its
   Add, and the counter is at -1.
   */
  lemma CancelInsideAdd()
    ensures Run(Init(), ([Bind, Advance, Advance, Advance] + [Advance, Advance, Cancel(1), Canceller(1)])
                        + [Canceller(1), Canceller(1), Canceller(1)]).wg.inner == -1
  {
    UpToAdd();
    hide Run, Init;
    var g := Gate(WG.State(1, 0, [WG.Bumped(1), WG.AtLoad(true)], 1), Some(1), Blocking(1), {1}, false);
    var g1 := g.(wg := WG.State(1, 0, [WG.Bumped(1), WG.Loaded(1, true)], 1));
    var g2 := g.(wg := WG.State(0, 0, [WG.Bumped(1), WG.Won(true)], 0), taken := true);
    assert Next(g, Canceller(1)) == g1 && Next(g1, Canceller(1)) == g2;
    assert Next(g2, Canceller(1)).wg.inner == -1;
    hide Next;
    RunConcat(Init(), [Bind, Advance, Advance, Advance] + [Advance, Advance, Cancel(1), Canceller(1)],
      [Canceller(1), Canceller(1), Canceller(1)]);
    RunThree(g, Canceller(1), Canceller(1), Canceller(1));
  }

  /** Its context is cancelled after BindSSH returns, as connectionOnce's deferred cancel does. */
  lemma LateCancelOpensGate(g: Gate, i: nat)
    requires Inv(g) && g.binder == Ready && g.wg.n == 1 && 1 <= i < |g.wg.pcs| && i !in g.fired
      && g.wg.pcs[i] == WG.Idle
    requires forall j | 0 <= j < |g.wg.pcs| :: !g.wg.pcs[j].Won?
    ensures var g' := Run(Next(g, Cancel(i)), [Canceller(i), Canceller(i), Canceller(i), Canceller(i)]);
            Open(g') && g'.active.None?
  {
    InnerCounter(g);
    NoWins(g.wg.pcs);
    var g1 := Next(g, Cancel(i));
    WG.SoloTurn(g1.wg, i);
    hide WG.Step;
    RunFour(g1, Canceller(i), Canceller(i), Canceller(i), Canceller(i));
  }

  // ---------- Those who wait at the gate ----------

  /** A call of getSSH. What `Woken` holds is not in the program. */
  datatype Waiter =
    | Entering                  // about to read activeConn
    | Waiting                   // found none, waits for the group
    | Woken(at: Option<nat>, calm: bool, cleared: bool)
                                // released, about to read again: the connection at that moment,
                                // whether no context had been cancelled by then, and whether a
                                // connection has been cleared since
    | Given(conn: Option<nat>)
    | GaveUp                    // its own context ended, or the time was up

  /**
   The next step of a call, where `active` is read, `open` tells whether the wait is over,
   `calm` whether nothing was cancelled.
   */
  function Looked(w: Waiter, active: Option<nat>, open: bool, calm: bool): Waiter {
    match w
    case Entering => if active.Some? then Given(active) else Waiting
    case Waiting => if open then Woken(active, calm, false) else Waiting
    case Woken(_, _, _) => Given(active)
    case _ => w
  }

  datatype Hall = Hall(gate: Gate, waiters: seq<Waiter>)

  datatype HallEvent = GateEvent(e: Event) | Arrive | Look(i: nat) | GiveUp(i: nat)

  function HallInit(): Hall {
    Hall(Init(), [])
  }

  /** The step in which BindSSH sets activeConn to nil. */
  predicate Clears(g: Gate, e: Event) {
    e == Advance && g.binder.Clearing?
  }

  function SeeClearing(w: Waiter): Waiter {
    if w.Woken? then w.(cleared := true) else w
  }

  function HallNext(h: Hall, e: HallEvent): Hall {
    match e
    case GateEvent(e) =>
      Hall(Next(h.gate, e),
           if Clears(h.gate, e)
             then seq(|h.waiters|, i requires 0 <= i < |h.waiters| => SeeClearing(h.waiters[i])) else h.waiters)
    case Arrive => h.(waiters := h.waiters + [Entering])
    case Look(i) =>
      if i < |h.waiters| then
        h.(waiters := h.waiters[i := Looked(h.waiters[i], h.gate.active, Open(h.gate), h.gate.fired == {})])
      else h
    case GiveUp(i) =>
      if i < |h.waiters| && !h.waiters[i].Given? then h.(waiters := h.waiters[i := GaveUp]) else h
  }

  function HallRun(h: Hall, events: seq<HallEvent>): Hall
    decreases |events|
  {
    if events == [] then h else HallRun(HallNext(h, events[0]), events[1..])
  }

  /** Connection `c` is over: it is not the active one, and will not be, since the next has a higher number. */
  predicate Past(g: Gate, c: nat) {
    && c < |g.wg.pcs|
    && (g.active.Some? ==> g.active.value > c)
    && (g.binder.Setting? ==> g.binder.conn > c)
  }

  ghost predicate WaiterInv(g: Gate, w: Waiter) {
    w.Woken? ==>
      && (w.calm ==> w.at.Some?)
      && (g.fired == {} ==> w.calm)
      && (w.at.Some? ==> if w.cleared then Past(g, w.at.value) else g.active == w.at)
  }

  ghost predicate HallInv(h: Hall) {
    && Inv(h.gate)
    && (!h.gate.binder.Ready? ==> !h.gate.binder.DoubleBind? && h.gate.binder.conn < |h.gate.wg.pcs|)
    && forall i | 0 <= i < |h.waiters| :: WaiterInv(h.gate, h.waiters[i])
  }

  lemma NumbersStay(g: Gate, e: Event)
    requires Inv(g) && (!g.binder.Ready? ==> !g.binder.DoubleBind? && g.binder.conn < |g.wg.pcs|)
    ensures var g' := Next(g, e);
            && |g'.wg.pcs| >= |g.wg.pcs|
            && (!g'.binder.Ready? ==> !g'.binder.DoubleBind? && g'.binder.conn < |g'.wg.pcs|)
  {
  }

  lemma PastStays(g: Gate, e: Event, c: nat)
    requires Inv(g) && Past(g, c)
    ensures Past(Next(g, e), c)
  {
  }

  /** Only the clearing step takes a connection away. */
  lemma ActiveStays(g: Gate, e: Event)
    requires Inv(g) && g.active.Some?
    ensures Next(g, e).active == if Clears(g, e) then None else g.active
  {
  }

  lemma FiredGrows(g: Gate, e: Event)
    ensures g.fired <= Next(g, e).fired
  {
  }

  lemma WaiterStep(g: Gate, e: Event, w: Waiter)
    requires Inv(g) && (!g.binder.Ready? ==> !g.binder.DoubleBind? && g.binder.conn < |g.wg.pcs|) && WaiterInv(g, w)
    ensures WaiterInv(Next(g, e), if Clears(g, e) then SeeClearing(w) else w)
  {
    FiredGrows(g, e);
    if w.Woken? && w.at.Some? {
      if w.cleared {
        PastStays(g, e, w.at.value);
      } else {
        ActiveStays(g, e);
        NumbersStay(g, e);
      }
    }
    hide Next;
  }

  /** With no context cancelled, only a bound gate is open. */
  lemma CalmWake(g: Gate)
    requires Inv(g) && g.fired == {} && Open(g)
    ensures g.active.Some?
  {
    InnerCounter(g);
    WG.CountsAfter(g.wg.pcs, 0, WG.Idle);
    NoWins(g.wg.pcs[0 := WG.Idle]);
  }

  lemma HallInvStep(h: Hall, e: HallEvent)
    requires HallInv(h)
    ensures HallInv(HallNext(h, e))
  {
    hide Inv, Next, Open;
    match e {
      case GateEvent(e) =>
        InvStep(h.gate, e);
        NumbersStay(h.gate, e);
        var h' := HallNext(h, GateEvent(e));
        forall i | 0 <= i < |h'.waiters| ensures WaiterInv(h'.gate, h'.waiters[i]) {
          WaiterStep(h.gate, e, h.waiters[i]);
        }
      case Look(i) => if Open(h.gate) && h.gate.fired == {} { CalmWake(h.gate); }
      case _ =>
    }
  }

  lemma {:induction false} HallInvRun(h: Hall, events: seq<HallEvent>)
    requires HallInv(h)
    ensures HallInv(HallRun(h, events))
    decreases |events|
  {
    if events != [] {
      HallInvStep(h, events[0]);
      hide HallInv, HallNext;
      HallInvRun(HallNext(h, events[0]), events[1..]);
    }
  }

  lemma HallInitInv()
    ensures HallInv(HallInit())
  {
    InitInv();
    hide Inv;
  }

  lemma HallReachable(events: seq<HallEvent>)
    ensures HallInv(HallRun(HallInit(), events))
  {
    HallInitInv();
    hide *;
    HallInvRun(HallInit(), events);
  }

  /**
   What a released waiter is given, on every run with any number of waiters: if no
   context had been cancelled when the gate let it through, there was a connection, and
   it is given exactly that one unless BindSSH cleared it before the waiter read it.
   */
  lemma ReleasedWaiter(events: seq<HallEvent>, i: nat)
    requires var h := HallRun(HallInit(), events); i < |h.waiters| && h.waiters[i].Woken?
    ensures var h := HallRun(HallInit(), events);
            var w, given := h.waiters[i], HallNext(h, Look(i)).waiters[i];
            && given.Given?
            && (w.calm ==> w.at.Some?)
            && (w.at.Some? ==> (given.conn == w.at <==> !w.cleared))
  {
    hide HallRun, HallInit, Inv;
    HallReachable(events);
  }

  /**
   With cancellations, it is let through to nothing exactly when a canceller holds the
   count and none is half done.
   */
  lemma ReleasedToNothing(events: seq<HallEvent>, i: nat)
    requires var h := HallRun(HallInit(), events); i < |h.waiters| && h.waiters[i] == Waiting
    ensures var h := HallRun(HallInit(), events);
            var w := HallNext(h, Look(i)).waiters[i];
            w.Woken? && w.at.None? <==>
              h.gate.active.None? && h.gate.taken && forall j | 0 <= j < |h.gate.wg.pcs| :: !h.gate.wg.pcs[j].Won?
  {
    hide HallRun, HallInit;
    HallReachable(events);
    var h := HallRun(HallInit(), events);
    if h.gate.active.None? {
      InnerCounter(h.gate);
      NoWins(h.gate.wg.pcs);
    }
  }

  /** Whatever stage a caller was in: when it is given something, that is the active connection of that moment. */
  lemma GivenIsActive(h: Hall, e: HallEvent, i: nat)
    requires i < |h.waiters| && !h.waiters[i].Given?
    requires i < |HallNext(h, e).waiters| && HallNext(h, e).waiters[i].Given?
    ensures e == Look(i) && HallNext(h, e).waiters[i].conn == h.gate.active
  {
  }

  /** A caller that arrives while a connection is bound is given that connection at its first look. */
  lemma ConnectedIsGiven(h: Hall)
    requires h.gate.active.Some?
    ensures var i := |h.waiters|; HallRun(h, [Arrive, Look(i)]) == h.(waiters := h.waiters + [Given(h.gate.active)])
  {
    var i := |h.waiters|;
    var h1 := HallNext(h, Arrive);
    assert [Arrive, Look(i)][1..] == [Look(i)] && [Look(i)][1..] == [];
    assert h1.waiters[i := Given(h.gate.active)] == h.waiters + [Given(h.gate.active)];
    assert HallRun(h, [Arrive, Look(i)]) == HallRun(h1, [Look(i)]) == HallRun(HallNext(h1, Look(i)), []);
  }

  /**
   On every run on which nothing has been cancelled, a caller is given nothing only if
   BindSSH cleared the connection between its release and its second look.
   */
  lemma NothingOnlyIfCleared(events: seq<HallEvent>, e: HallEvent, i: nat)
    requires var h := HallRun(HallInit(), events);
             && h.gate.fired == {} && i < |h.waiters| && !h.waiters[i].Given?
             && i < |HallNext(h, e).waiters| && HallNext(h, e).waiters[i] == Given(None)
    ensures var h := HallRun(HallInit(), events); h.waiters[i].Woken? && h.waiters[i].cleared
  {
    HallReachable(events);
    var h := HallRun(HallInit(), events);
    hide HallRun, HallInit, Inv;
    GivenIsActive(h, e, i);
  }

  /**
   What a caller was given, and that it gave up, is final; before that its own end or the
   timeout makes it give up.
   */
  lemma {:induction false} AnswerIsFinal(h: Hall, events: seq<HallEvent>, i: nat)
    requires i < |h.waiters| && (h.waiters[i].Given? || h.waiters[i].GaveUp?)
    ensures i < |HallRun(h, events).waiters| && HallRun(h, events).waiters[i] == h.waiters[i]
    decreases |events|
  {
    if events != [] {
      AnswerStays(h, events[0], i);
      hide HallNext;
      AnswerIsFinal(HallNext(h, events[0]), events[1..], i);
    }
  }

  lemma AnswerStays(h: Hall, e: HallEvent, i: nat)
    requires i < |h.waiters| && (h.waiters[i].Given? || h.waiters[i].GaveUp?)
    ensures i < |HallNext(h, e).waiters| && HallNext(h, e).waiters[i] == h.waiters[i]
  {
    hide Next, Open;
  }

  lemma GivingUp(h: Hall, i: nat)
    requires i < |h.waiters|
    ensures HallNext(h, GiveUp(i)).waiters[i] == if h.waiters[i].Given? then h.waiters[i] else GaveUp
    ensures HallNext(h, GiveUp(i)).gate == h.gate
  {
  }

  function Lift(events: seq<Event>): seq<HallEvent> {
    seq(|events|, i requires 0 <= i < |events| => GateEvent(events[i]))
  }

  lemma {:induction false} LiftRun(g: Gate, events: seq<Event>, more: seq<HallEvent>)
    ensures HallRun(Hall(g, []), Lift(events) + more) == HallRun(Hall(Run(g, events), []), more)
    decreases |events|
  {
    if events == [] {
      assert Lift(events) + more == more;
    } else {
      assert (Lift(events) + more)[0] == GateEvent(events[0]);
      assert (Lift(events) + more)[1..] == Lift(events[1..]) + more;
      assert HallNext(Hall(g, []), GateEvent(events[0])) == Hall(Next(g, events[0]), []);
      LiftRun(Next(g, events[0]), events[1..], more);
    }
  }

  /** It happens: after one connection and its late cancel, a caller waits, is let through at once, and reads nil. */
  lemma LetThroughToNothing()
    ensures var events := Lift(Connection() + [Cancel(1)] + [Canceller(1), Canceller(1), Canceller(1), Canceller(1)]);
            HallRun(HallInit(), events + [Arrive, Look(0), Look(0), Look(0)]).waiters == [Given(None)]
  {
    var late, four := [Cancel(1)], [Canceller(1), Canceller(1), Canceller(1), Canceller(1)];
    var g := AfterOneConnection();
    var g' := Run(Next(g, Cancel(1)), four);
    LateCancelOpensGate(g, 1);
    assert HallInit() == Hall(Init(), []);
    hide Run, Next, Connection, Init, Lift, Inv, HallRun, HallInit;
    assert late == [Cancel(1)] + [];
    RunCons(g, Cancel(1), []);
    RunNone(Next(g, Cancel(1)));
    RunConcat(Init(), Connection() + late, four);
    RunConcat(Init(), Connection(), late);
    LiftRun(Init(), Connection() + late + four, [Arrive, Look(0), Look(0), Look(0)]);
    ArriveAndLook(g');
  }

  lemma RunNone(g: Gate)
    ensures Run(g, []) == g
  {
  }

  lemma AfterOneConnection() returns (g: Gate)
    ensures g == Run(Init(), Connection()) && Inv(g)
    ensures g.binder == Ready && g.wg.n == 1 && g.wg.pcs == [WG.Idle, WG.Idle] && g.fired == {}
  {
    InitInv();
    hide Run, Connection, Inv, Next;
    OneConnection(Init());
    InvRun(Init(), Connection());
    g := Richer(Init(), 1);
    assert g.wg.pcs == [WG.Idle, WG.Idle];
  }

  lemma ArriveAndLook(g: Gate)
    requires Open(g) && g.active.None?
    ensures HallRun(Hall(g, []), [Arrive, Look(0), Look(0), Look(0)]).waiters == [Given(None)]
  {
    var events := [Arrive, Look(0), Look(0), Look(0)];
    assert events[1..] == [Look(0), Look(0), Look(0)] && events[1..][1..] == [Look(0), Look(0)];
    assert events[1..][1..][1..] == [Look(0)] && events[1..][1..][1..][1..] == [];
    var h0 := Hall(g, []);
    var h1 := Hall(g, [Entering]);
    var h2 := Hall(g, [Waiting]);
    var h3 := Hall(g, [Woken(None, g.fired == {}, false)]);
    assert HallNext(h0, Arrive) == h1 && HallNext(h1, Look(0)) == h2 && HallNext(h2, Look(0)) == h3;
    hide Open;
    assert HallRun(h0, events) == HallRun(h1, events[1..]) == HallRun(h2, events[1..][1..]);
    assert HallRun(h2, events[1..][1..]) == HallRun(h3, [Look(0)]) == HallRun(HallNext(h3, Look(0)), []);
  }

  // ---------- Without interference ----------

  /** The tunnel as one goroutine sees it when no other runs. */
  class Tunnel {
    const activatingConn: WG.WaitGroup
    var activeConn: Option<nat>

    constructor ()
      ensures activeConn == None && fresh(activatingConn) && activatingConn.n == activatingConn.inner == 1
    {
      activatingConn := new WG.WaitGroup();
      activeConn := None;
      new;
      activatingConn.Add(1);
    }

    /** From the lock to the wait for the connection's end; false is the "double bind ssh" panic. */
    method Bind(c: nat) returns (bound: bool)
      modifies this, activatingConn
      ensures bound == old(activeConn).None?
      ensures activeConn == if bound then Some(c) else old(activeConn)
      ensures activatingConn.n == old(activatingConn.n) - if bound && old(activatingConn.n) > 0 then 1 else 0
      ensures activatingConn.inner - activatingConn.n == old(activatingConn.inner) - old(activatingConn.n)
    {
      if activeConn.Some? {
        return false;
      }
      activeConn := Some(c);
      activatingConn.Done();
      return true;
    }

    /** From the connection's end to the return of BindSSH. */
    method Unbind()
      requires 0 <= activatingConn.n < WG.MAX_INT32
      modifies this, activatingConn
      ensures activeConn == None && activatingConn.n == old(activatingConn.n) + 1
      ensures activatingConn.inner - activatingConn.n == old(activatingConn.inner) - old(activatingConn.n)
    {
      activatingConn.Add(1);
      activeConn := None;
    }

    /**
     One whole BindSSH leaves the tunnel without a connection and the gate shut, even
     when an earlier connection's canceller had taken the count; an exact pair of
     counters stays exact.
     */
    method BindSSH(c: nat) returns (bound: bool)
      requires 0 <= activatingConn.n <= WG.MAX_INT32
      modifies this, activatingConn
      ensures bound == old(activeConn).None?
      ensures bound ==>
                && activeConn == None
                && activatingConn.n == (if old(activatingConn.n) > 0 then old(activatingConn.n) else 1)
      ensures !bound ==> activeConn == old(activeConn) && activatingConn.n == old(activatingConn.n)
      ensures activatingConn.inner - activatingConn.n == old(activatingConn.inner) - old(activatingConn.n)
    {
      bound := Bind(c);
      if bound {
        Unbind();
      }
    }
  }
}
