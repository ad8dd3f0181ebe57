/** A client session on the server: how its remotes are admitted, and what becomes of the port record it takes. */
module Sessions {
  import opened Wrappers
  import opened PortModel
  import opened PortRuns
  import opened PortAllocators
  import opened Interleaving
  import opened PortLifetime
  import opened RemoteGrammar

  /** The record the session holds: the one made from the request headers, or one of the allocator's. */
  datatype Holder = Header(who: Ident) | Handed(id: nat)

  function HeaderRecord(who: Ident): Record {
    Record(who, 0, 0, Freed, None, None)
  }

  function Held(w: World, cur: Holder): Record {
    match cur
    case Header(who) => HeaderRecord(who)
    case Handed(id) => if id < |w.heap| then w.heap[id] else HeaderRecord(Ident("", "", ""))
  }

  /** The session leaves its record as it is: it has one in use, or the remote is not a fitting reverse one. */
  predicate Skips(rec: Record, r: Remote) {
    || rec.status != Freed
    || !r.reverse
    || (rec.clientPort != 0 && rec.clientPort != Atoi(r.remotePort).0)
    || (rec.mappingPort != 0 && rec.mappingPort != Atoi(r.localPort).0)
  }

  /** server/server_handler.go: handleRemote. No holder means the session is refused. */
  function HandleRemote(w: World, cur: Holder, r: Remote, now: int): (res: (World, Option<Holder>))
    requires Inv(w)
    ensures Inv(res.0)
  {
    var rec := Held(w, cur);
    if Skips(rec, r) then (w, Some(cur))
    else
      match OnConnected(w, rec.who, Atoi(r.remotePort).0, Atoi(r.localPort).0, now)
      case (w', Ok(id)) => (w', Some(Handed(id)))
      case (w', Err(_)) => (w', None)
  }

  /** `access` is the user's test on an address, if users are configured; `reverse` the server's option. */
  datatype Policy = Policy(access: Option<string -> bool>, reverse: bool)

  /**
   One remote of the config: what other goroutines do before it is handled, the time, and
   whether its port can be listened on.
   */
  datatype Turn = Turn(remote: Remote, before: seq<Op>, now: int, canListen: bool)

  datatype Verdict = Accepted | NoPort | AccessDenied | ReverseDisabled | CannotListen

  /** The tests a remote has to pass once its port is settled. */
  function Check(p: Policy, t: Turn): Verdict {
    if p.access.Some? && !p.access.value(UserAddr(t.remote)) then AccessDenied
    else if t.remote.reverse && !p.reverse then ReverseDisabled
    else if t.remote.reverse && !t.canListen then CannotListen
    else Accepted
  }

  /** How validation ends; `connected` counts the calls of OnConnected that succeeded. */
  datatype Outcome = Outcome(w: World, holder: Holder, verdict: Verdict, connected: nat)

  function Admit(p: Policy, w: World, cur: Holder, turns: seq<Turn>): (o: Outcome)
    requires Inv(w)
    ensures Inv(o.w)
    decreases |turns|
  {
    if turns == [] then Outcome(w, cur, Accepted, 0)
    else
      var t := turns[0];
      var w1 := Run(w, t.before);
      var (w2, next) := HandleRemote(w1, cur, t.remote, t.now);
      var calls := if Skips(Held(w1, cur), t.remote) || next.None? then 0 else 1;
      if next.None? then Outcome(w2, cur, NoPort, 0)
      else if Check(p, t) != Accepted then Outcome(w2, next.value, Check(p, t), calls)
      else
        var o := Admit(p, w2, next.value, turns[1..]);
        o.(connected := o.connected + calls)
  }

  /** The user may use the remote's address, and a reverse remote is enabled and can be listened on. */
  predicate Passes(p: Policy, t: Turn) {
    && (p.access.Some? ==> p.access.value(UserAddr(t.remote)))
    && (t.remote.reverse ==> p.reverse && t.canListen)
  }

  lemma CheckReasons(p: Policy, t: Turn)
    ensures Check(p, t) == Accepted <==> Passes(p, t)
    ensures Check(p, t) != NoPort && TrueOf(Check(p, t), p, t)
  {
  }

  /** The reason given holds of the remote; the access test comes first. */
  predicate TrueOf(v: Verdict, p: Policy, t: Turn) {
    && (v == AccessDenied <==> p.access.Some? && !p.access.value(UserAddr(t.remote)))
    && (v == ReverseDisabled ==> t.remote.reverse && !p.reverse)
    && (v == CannotListen ==> t.remote.reverse && p.reverse && !t.canListen)
  }

  lemma VerdictStep(p: Policy, w: World, cur: Holder, turns: seq<Turn>)
    requires Inv(w) && turns != []
    ensures var (w2, next) := HandleRemote(Run(w, turns[0].before), cur, turns[0].remote, turns[0].now);
            Admit(p, w, cur, turns).verdict ==
              if next.None? then NoPort
              else if Check(p, turns[0]) != Accepted then Check(p, turns[0])
              else Admit(p, w2, next.value, turns[1..]).verdict
  {
  }

  /** Unless a port is refused, a config is accepted exactly when every remote in it passes all tests. */
  lemma {:induction false} AcceptedPassedAll(p: Policy, w: World, cur: Holder, turns: seq<Turn>)
    requires Inv(w) && Admit(p, w, cur, turns).verdict != NoPort
    ensures Admit(p, w, cur, turns).verdict == Accepted <==> forall i | 0 <= i < |turns| :: Passes(p, turns[i])
    decreases |turns|
  {
    if turns != [] {
      VerdictStep(p, w, cur, turns);
      CheckReasons(p, turns[0]);
      hide Admit, HandleRemote, Run, Inv, Check, Passes;
      var (w2, next) := HandleRemote(Run(w, turns[0].before), cur, turns[0].remote, turns[0].now);
      if Check(p, turns[0]) == Accepted {
        AcceptedPassedAll(p, w2, next.value, turns[1..]);
      }
      assert forall i | 1 <= i < |turns| :: turns[i] == turns[1..][i - 1];
    }
  }

  /** Remote number `i` is the first that fails a test, and the reason `v` is true of it. */
  ghost predicate FailsFirst(p: Policy, v: Verdict, turns: seq<Turn>, i: nat) {
    && i < |turns| && !Passes(p, turns[i]) && TrueOf(v, p, turns[i])
    && forall j | 0 <= j < i :: Passes(p, turns[j])
  }

  lemma FailsShift(p: Policy, v: Verdict, turns: seq<Turn>, i: nat)
    requires turns != [] && Passes(p, turns[0]) && FailsFirst(p, v, turns[1..], i)
    ensures FailsFirst(p, v, turns, i + 1)
  {
    hide Passes, TrueOf;
    assert forall j | 0 < j < i + 1 :: turns[j] == turns[1..][j - 1];
  }

  /**
   A refusal for another reason than a port is for the first remote that fails a test, and
   the reason is true of it.
   */
  lemma {:induction false} FirstFailureDecides(p: Policy, w: World, cur: Holder, turns: seq<Turn>)
    requires Inv(w) && Admit(p, w, cur, turns).verdict != NoPort && Admit(p, w, cur, turns).verdict != Accepted
    ensures exists i: nat :: FailsFirst(p, Admit(p, w, cur, turns).verdict, turns, i)
    decreases |turns|
  {
    VerdictStep(p, w, cur, turns);
    CheckReasons(p, turns[0]);
    hide Admit, HandleRemote, Run, Inv, Check, Passes, TrueOf;
    var v := Admit(p, w, cur, turns).verdict;
    var (w2, next) := HandleRemote(Run(w, turns[0].before), cur, turns[0].remote, turns[0].now);
    if Check(p, turns[0]) == Accepted {
      FirstFailureDecides(p, w2, next.value, turns[1..]);
      hide FailsFirst;
      var k: nat :| FailsFirst(p, v, turns[1..], k);
      FailsShift(p, v, turns, k);
    } else {
      assert FailsFirst(p, v, turns, 0);
    }
  }

  /** Whenever the session looks, the allocator's record it holds has not been freed by somebody else. */
  ghost predicate NotFreedMeanwhile(w: World, id: nat, turns: seq<Turn>)
    requires Inv(w)
    decreases |turns|
  {
    turns != [] ==>
      var w1 := Run(w, turns[0].before);
      && id < |w1.heap| && w1.heap[id].status != Freed
      && NotFreedMeanwhile(w1, id, turns[1..])
  }

  lemma {:induction false} KeepsItsRecord(p: Policy, w: World, id: nat, turns: seq<Turn>)
    requires Inv(w) && NotFreedMeanwhile(w, id, turns)
    ensures Admit(p, w, Handed(id), turns).holder == Handed(id)
    ensures Admit(p, w, Handed(id), turns).connected == 0
    decreases |turns|
  {
    if turns != [] {
      var w1 := Run(w, turns[0].before);
      if Check(p, turns[0]) == Accepted {
        KeepsItsRecord(p, w1, id, turns[1..]);
      }
    }
  }

  /** The world in which a leading run of forward remotes leaves the session, which still holds its headers. */
  function AfterForward(w: World, turns: seq<Turn>): (w': World)
    requires Inv(w)
    ensures Inv(w')
    decreases |turns|
  {
    if turns == [] then w else AfterForward(Run(w, turns[0].before), turns[1..])
  }

  /** Remotes that are not reversed never touch the allocator. */
  lemma {:induction false} ForwardOnly(p: Policy, w: World, who: Ident, forward: seq<Turn>, rest: seq<Turn>)
    requires Inv(w) && forall i | 0 <= i < |forward| :: !forward[i].remote.reverse && Check(p, forward[i]) == Accepted
    ensures Admit(p, w, Header(who), forward + rest) == Admit(p, AfterForward(w, forward), Header(who), rest)
    decreases |forward|
  {
    if forward == [] {
      assert forward + rest == rest;
    } else {
      assert (forward + rest)[0] == forward[0] && (forward + rest)[1..] == forward[1..] + rest;
      ForwardOnly(p, Run(w, forward[0].before), who, forward[1..], rest);
    }
  }

  /**
   OnConnected runs once in a session, for the first reverse remote, unless the record
   is freed meanwhile; the record it hands out is Connected then, under its own key
   and, where the indexes are one-to-one, under its own port.
   */
  lemma ConnectsOnFirstReverse(p: Policy, w: World, who: Ident, forward: seq<Turn>, first: Turn, rest: seq<Turn>)
    requires Inv(w) && forall i | 0 <= i < |forward| :: !forward[i].remote.reverse && Check(p, forward[i]) == Accepted
    requires first.remote.reverse
    ensures var w1 := Run(AfterForward(w, forward), first.before);
            var (w2, r) := OnConnected(w1, who, Atoi(first.remote.remotePort).0, Atoi(first.remote.localPort).0,
              first.now);
            var o := Admit(p, w, Header(who), forward + [first] + rest);
            && (r.Err? ==> o.verdict == NoPort && o.connected == 0)
            && (r.Ok? ==>
                  && Serves(w2, r.value, Atoi(first.remote.localPort).0)
                  && (OneToOne(w1) ==> var port := Atoi(first.remote.localPort).0;
                    port in w2.ports && w2.ports[port] == r.value)
                  && (NotFreedMeanwhile(w2, r.value, rest) ==> o.holder == Handed(r.value) && o.connected == 1))
  {
    var w0 := AfterForward(w, forward);
    var w1 := Run(w0, first.before);
    assert forward + [first] + rest == forward + ([first] + rest);
    ForwardOnly(p, w, who, forward, [first] + rest);
    assert ([first] + rest)[0] == first && ([first] + rest)[1..] == rest;
    var (w2, r) := OnConnected(w1, who, Atoi(first.remote.remotePort).0, Atoi(first.remote.localPort).0, first.now);
    if r.Ok? {
      ConnectServes(w1, who, Atoi(first.remote.remotePort).0, Atoi(first.remote.localPort).0, first.now);
      hide OnConnected, Run, Atoi;
      if NotFreedMeanwhile(w2, r.value, rest) {
        KeepsItsRecord(p, w2, r.value, rest);
      }
    }
  }

  /** The record is Connected, on this port, and filed under its key. */
  ghost predicate Serves(w: World, id: nat, port: int)
    requires Inv(w)
  {
    && id < |w.heap| && w.heap[id].status == Connected && w.heap[id].mappingPort == port
    && Key(w.heap[id].who) in w.names && w.names[Key(w.heap[id].who)] == id
  }

  lemma ConnectServes(w: World, who: Ident, clientPort: int, mappingPort: int, now: int)
    requires Inv(w) && OnConnected(w, who, clientPort, mappingPort, now).1.Ok?
    ensures var (w', r) := OnConnected(w, who, clientPort, mappingPort, now);
            && Serves(w', r.value, mappingPort)
            && (OneToOne(w) ==> mappingPort in w'.ports && w'.ports[mappingPort] == r.value)
  {
    if Identified(who) && Key(who) in w.names && OneToOne(w) {
      assert NameBacked(w, Key(who));
    }
    if !Identified(who) {
      assert PortBacked(w, mappingPort);
    }
  }

  /** No request aims at the record and no session on it ends. */
  ghost predicate LeftAlone(ops: seq<Op>, id: nat, rec: Record) {
    forall i | 0 <= i < |ops| :: !Touches(ops[i], id, rec) && ops[i] != EndSessionOp(id)
  }

  lemma {:induction false} ConnectedSurvives(w: World, ops: seq<Op>, id: nat)
    requires Inv(w) && id < |w.heap| && Serves(w, id, w.heap[id].mappingPort) && LeftAlone(ops, id, w.heap[id])
    ensures id < |Run(w, ops).heap| && Run(w, ops).heap[id] == w.heap[id]
    ensures Serves(Run(w, ops), id, w.heap[id].mappingPort)
    decreases |ops|
  {
    if ops != [] {
      ConnectedStep(w, ops[0], id);
      ConnectedSurvives(Next(w, ops[0]), ops[1..], id);
    }
  }

  lemma ConnectedStep(w: World, op: Op, id: nat)
    requires Inv(w) && id < |w.heap| && Serves(w, id, w.heap[id].mappingPort)
    requires !Touches(op, id, w.heap[id]) && op != EndSessionOp(id)
    ensures id < |Next(w, op).heap| && Next(w, op).heap[id] == w.heap[id]
    ensures Serves(Next(w, op), id, w.heap[id].mappingPort)
  {
    StickyStep(w, op, Key(w.heap[id].who));
  }

  /**
   When the record a session holds has been freed meanwhile, by its key or by a sweep, its
   next reverse remote decides: on the same two ports (a port of 0 is any) the session
   claims them again, and one that names itself has them back, in a new record, if
   nobody took its key or the port; on
   other ports, or for a forward remote, it goes on with the freed record and the
   allocator is untouched.
   */
  lemma FreedMeanwhile(w: World, id: nat, r: Remote, now: int)
    requires Inv(w) && id < |w.heap| && w.heap[id].status == Freed
    ensures var rec := w.heap[id];
            var clientPort, port := Atoi(r.remotePort).0, Atoi(r.localPort).0;
            var (w', next) := HandleRemote(w, Handed(id), r, now);
            if r.reverse && rec.clientPort in {0, clientPort} && rec.mappingPort in {0, port} then
              && next.Some? == OnConnected(w, rec.who, clientPort, port, now).1.Ok?
              && (Identified(rec.who) && Key(rec.who) !in w.names && port !in w.ports ==>
                    next == Some(Handed(|w.heap|)) && Serves(w', |w.heap|, port))
            else w' == w && next == Some(Handed(id))
  {
    hide Atoi;
  }

  // ---------- What a live session can lose ----------

  /**
   The steps that take a session's record out of its hands: its key allocated again, freed,
   or a session on it ended.
   */
  predicate Loosens(op: Op, id: nat, who: Ident) {
    match op
    case AllocateOp(other, _, _) => Key(other) == Key(who)
    case DisconnectOp(i, _) => i == id
    case FreeOp(other) => if IsBulk(other) then other.clientId == who.clientId else Key(other) == Key(who)
    case EndSessionOp(i) => i == id
    case _ => false
  }

  /**
   A Connected record stays in service over a step exactly when the step is none of these;
   sweeps and connects never do it.
   */
  lemma ServesStep(w: World, op: Op, id: nat)
    requires Inv(w) && id < |w.heap| && Serves(w, id, w.heap[id].mappingPort)
    ensures id < |Next(w, op).heap| && Next(w, op).heap[id].who == w.heap[id].who
    ensures Serves(Next(w, op), id, w.heap[id].mappingPort) <==> !Loosens(op, id, w.heap[id].who)
  {
    var who, port := w.heap[id].who, w.heap[id].mappingPort;
    StickyStep(w, op, Key(who));
    match op {
      case AllocateOp(other, clientPort, now) => ServesAllocate(w, other, clientPort, now, id);
      case ConnectOp(other, clientPort, mappingPort, now) => ServesConnect(w, other, clientPort, mappingPort, now, id);
      case FreeOp(other) => ServesFree(w, other, id);
      case SweepOp(now) => assert id !in ExpiredIds(w, now);
      case _ =>
    }
    hide AllocatePort, OnConnected, FreePort, Inv;
  }

  lemma ServesAllocate(w: World, other: Ident, clientPort: int, now: int, id: nat)
    requires Inv(w) && id < |w.heap| && Serves(w, id, w.heap[id].mappingPort)
    ensures var w' := AllocatePort(w, other, clientPort, now).0;
            && id < |w'.heap| && w'.heap[id].who == w.heap[id].who
            && (Serves(w', id, w.heap[id].mappingPort) <==> Key(other) != Key(w.heap[id].who))
  {
  }

  lemma ServesConnect(w: World, other: Ident, clientPort: int, mappingPort: int, now: int, id: nat)
    requires Inv(w) && id < |w.heap| && Serves(w, id, w.heap[id].mappingPort)
    ensures var w' := OnConnected(w, other, clientPort, mappingPort, now).0;
            && id < |w'.heap| && w'.heap[id].who == w.heap[id].who
            && Serves(w', id, w.heap[id].mappingPort)
  {
  }

  lemma ServesFree(w: World, other: Ident, id: nat)
    requires Inv(w) && id < |w.heap| && Serves(w, id, w.heap[id].mappingPort)
    ensures var w' := FreePort(w, other);
            && id < |w'.heap| && w'.heap[id].who == w.heap[id].who
            && (Serves(w', id, w.heap[id].mappingPort) <==> !Loosens(FreeOp(other), id, w.heap[id].who))
  {
    var key := Key(w.heap[id].who);
    if IsBulk(other) {
      assert w.names[key] == id;
    } else {
      StickyRemove(w, ExactIds(w, Key(other)), key);
    }
  }

  ghost predicate NeverLoosened(ops: seq<Op>, id: nat, who: Ident) {
    forall i | 0 <= i < |ops| :: !Loosens(ops[i], id, who)
  }

  /**
   So a live session's record stays in service over every run without such a step, however
   long, with all its sweeps.
   */
  lemma {:induction false} ServesRun(w: World, ops: seq<Op>, id: nat)
    requires Inv(w) && id < |w.heap| && Serves(w, id, w.heap[id].mappingPort)
    requires NeverLoosened(ops, id, w.heap[id].who)
    ensures Serves(Run(w, ops), id, w.heap[id].mappingPort)
    decreases |ops|
  {
    if ops != [] {
      ServesStep(w, ops[0], id);
      hide Next, Inv;
      assert Next(w, ops[0]).heap[id].mappingPort == w.heap[id].mappingPort;
      ServesRun(Next(w, ops[0]), ops[1..], id);
    }
  }

  /** The sweep of every time, `s`, leaves the key indexed. */
  ghost predicate OutlastsSweeps(w: World, key: string)
    requires Inv(w)
  {
    forall s :: key in FreeHangingPorts(w, s).names
  }

  /** Whatever session is up, a record outlasts every sweep exactly when it is not marked Allocated. */
  lemma OutlastsWhen(w: World, key: string)
    requires Inv(w) && key in w.names
    ensures OutlastsSweeps(w, key) <==> w.heap[w.names[key]].status != Allocated
  {
    var rec := w.heap[w.names[key]];
    forall s ensures key in FreeHangingPorts(w, s).names <==> !Expired(rec, s) {
      StickyStep(w, SweepOp(s), key);
    }
    if rec.status == Allocated {
      assert key !in FreeHangingPorts(w, rec.allocTime.value + HOLD + 1).names;
    }
  }

  /** Of the requests the handlers let through, exactly those steps cost a live session its hold against the sweeps. */
  lemma LiveSessionOutlasts(w: World, op: Op, id: nat)
    requires Inv(w) && id < |w.heap| && Serves(w, id, w.heap[id].mappingPort) && FromHandlers(op)
    ensures var key, w' := Key(w.heap[id].who), Next(w, op);
            (key in w'.names && OutlastsSweeps(w', key)) <==> !Loosens(op, id, w.heap[id].who)
  {
    var key, w' := Key(w.heap[id].who), Next(w, op);
    ServesStep(w, op, id);
    StickyStep(w, op, key);
    if key in w'.names {
      OutlastsWhen(w', key);
      LoosenedIsAllocated(w, op, id);
    }
    hide Next, OutlastsSweeps, Inv;
  }

  lemma LoosenedIsAllocated(w: World, op: Op, id: nat)
    requires Inv(w) && id < |w.heap| && Serves(w, id, w.heap[id].mappingPort) && FromHandlers(op)
    requires Key(w.heap[id].who) in Next(w, op).names
    ensures var w' := Next(w, op);
            && w'.names[Key(w.heap[id].who)] == id && id < |w'.heap|
            && (Loosens(op, id, w.heap[id].who) ==> w'.heap[id].status == Allocated)
  {
    StickyStep(w, op, Key(w.heap[id].who));
  }

  /** The client asks for its port again while it is connected, and ten minutes later a sweep gives the port away. */
  function LosingTwice(a: Ident): seq<Op> {
    [AllocateOp(a, 80, 0), ConnectOp(a, 80, 1, 0)] + [AllocateOp(a, 80, 0), SweepOp(HOLD + 1)]
  }

  lemma LiveSessionLosesPort(a: Ident)
    requires Identified(a)
    ensures AllFromHandlers(LosingTwice(a))
    ensures Serving(Run(Init(1, 1), [AllocateOp(a, 80, 0), ConnectOp(a, 80, 1, 0)]), a)
    ensures var w := Run(Init(1, 1), LosingTwice(a)); Key(a) !in w.names && 1 !in w.ports
  {
    var w0, first, second := Init(1, 1), [AllocateOp(a, 80, 0), ConnectOp(a, 80, 1, 0)],
      [AllocateOp(a, 80, 0), SweepOp(HOLD + 1)];
    var w2 := ConnectedOnce(a);
    HealthyStep(w2, AllocateOp(a, 80, 0));
    AskedAgain(w2, a);
    hide Run, Next, Healthy;
    RunConcat(w0, first, second);
    RunTwo(w2, AllocateOp(a, 80, 0), SweepOp(HOLD + 1));
    SweptAway(Next(w2, AllocateOp(a, 80, 0)), a);
  }

  lemma ConnectedOnce(a: Ident) returns (w: World)
    requires Identified(a)
    ensures w == Run(Init(1, 1), [AllocateOp(a, 80, 0), ConnectOp(a, 80, 1, 0)])
    ensures Healthy(w) && Serving(w, a) && 1 in w.ports && w.ports[1] == w.names[Key(a)]
  {
    var w0 := Init(1, 1);
    RunTwo(w0, AllocateOp(a, 80, 0), ConnectOp(a, 80, 1, 0));
    AllocateIntoEmptyPool(w0, a);
    w := Next(Next(w0, AllocateOp(a, 80, 0)), ConnectOp(a, 80, 1, 0));
    HealthyRun(w0, [AllocateOp(a, 80, 0), ConnectOp(a, 80, 1, 0)]);
    hide Run, Healthy;
  }

  /** The record is back to Allocated, with its session up. */
  lemma AskedAgain(w: World, a: Ident)
    requires Inv(w) && Key(a) in w.names && 1 in w.ports && w.ports[1] == w.names[Key(a)]
    ensures var w' := Next(w, AllocateOp(a, 80, 0));
            && Key(a) in w'.names && 1 in w'.ports && w'.ports[1] == w'.names[Key(a)]
            && Expired(w'.heap[w'.names[Key(a)]], HOLD + 1)
  {
  }

  lemma SweptAway(w: World, a: Ident)
    requires OneToOne(w) && Key(a) in w.names && 1 in w.ports && w.ports[1] == w.names[Key(a)]
    requires Expired(w.heap[w.names[Key(a)]], HOLD + 1)
    ensures var w' := Next(w, SweepOp(HOLD + 1)); Key(a) !in w'.names && 1 !in w'.ports
  {
    StickyStep(w, SweepOp(HOLD + 1), Key(a));
    SweptPort(w, 1, HOLD + 1);
  }

  // ---------- What a refused session leaves behind ----------

  predicate ConnectsOn(w: World, who: Ident, t: Turn)
    requires Inv(w)
  {
    OnConnected(w, who, Atoi(t.remote.remotePort).0, Atoi(t.remote.localPort).0, t.now).1.Ok?
  }

  /** The session gets as far as remote number `i`, its first reverse one, and OnConnected succeeds for it. */
  ghost predicate TakesPort(p: Policy, w: World, who: Ident, turns: seq<Turn>, i: nat)
    requires Inv(w)
  {
    && i < |turns| && turns[i].remote.reverse
    && (forall j | 0 <= j < i :: !turns[j].remote.reverse && Passes(p, turns[j]))
    && ConnectsOn(Run(AfterForward(w, turns[..i]), turns[i].before), who, turns[i])
  }

  lemma TakesShift(p: Policy, w: World, who: Ident, turns: seq<Turn>, i: nat)
    requires Inv(w) && turns != [] && !turns[0].remote.reverse && Passes(p, turns[0])
    ensures TakesPort(p, w, who, turns, i + 1) <==> TakesPort(p, Run(w, turns[0].before), who, turns[1..], i)
  {
    hide Run, ConnectsOn, Passes, Inv;
    var rest := turns[1..];
    if i < |rest| {
      assert turns[..i + 1][1..] == rest[..i] && turns[..i + 1][0] == turns[0];
      assert AfterForward(w, turns[..i + 1]) == AfterForward(Run(w, turns[0].before), rest[..i]);
      hide AfterForward;
      assert forall j | 0 < j < i + 1 :: turns[j] == rest[j - 1];
      assert forall j | 0 <= j < i :: rest[j] == turns[j + 1];
    }
  }

  lemma TakesFirst(p: Policy, w: World, who: Ident, turns: seq<Turn>)
    requires Inv(w) && turns != [] && turns[0].remote.reverse
    ensures (exists i: nat :: TakesPort(p, w, who, turns, i)) <==> ConnectsOn(Run(w, turns[0].before), who, turns[0])
    ensures forall i: nat | TakesPort(p, w, who, turns, i) :: i == 0
  {
    hide Run, ConnectsOn, Passes, Inv;
    assert turns[..0] == [];
    assert TakesPort(p, w, who, turns, 0) <==> ConnectsOn(Run(w, turns[0].before), who, turns[0]);
  }

  /** One turn of a session that holds only its headers. */
  lemma AdmitFromHeader(p: Policy, w: World, who: Ident, turns: seq<Turn>)
    requires Inv(w) && turns != []
    ensures var t, w1, rest := turns[0], Run(w, turns[0].before), turns[1..];
            var (w2, r) := OnConnected(w1, who, Atoi(t.remote.remotePort).0, Atoi(t.remote.localPort).0, t.now);
            Admit(p, w, Header(who), turns) ==
              if !t.remote.reverse then
                if Passes(p, t) then Admit(p, w1, Header(who), rest) else Outcome(w1, Header(who), Check(p, t), 0)
              else if r.Err? then Outcome(w2, Header(who), NoPort, 0)
              else if !Passes(p, t) then Outcome(w2, Handed(r.value), Check(p, t), 1)
              else var o := Admit(p, w2, Handed(r.value), rest); o.(connected := o.connected + 1)
  {
    CheckReasons(p, turns[0]);
    hide Inv, OnConnected, Run, Atoi, Passes, Check;
  }

  lemma {:induction false} HandedStays(p: Policy, w: World, id: nat, turns: seq<Turn>)
    requires Inv(w)
    ensures Admit(p, w, Handed(id), turns).holder.Handed?
    decreases |turns|
  {
    if turns != [] {
      var (w2, next) := HandleRemote(Run(w, turns[0].before), Handed(id), turns[0].remote, turns[0].now);
      if next.Some? && Check(p, turns[0]) == Accepted {
        HandedStays(p, w2, next.value.id, turns[1..]);
      }
    }
  }

  /** The session holds a record of the allocator in the end exactly when its first reverse remote took a port. */
  lemma {:induction false} HoldsIffTaken(p: Policy, w: World, who: Ident, turns: seq<Turn>)
    requires Inv(w)
    ensures var o := Admit(p, w, Header(who), turns);
            && (o.holder.Handed? <==> exists i: nat :: TakesPort(p, w, who, turns, i))
            && (o.holder.Handed? <==> o.connected > 0)
    decreases |turns|
  {
    if turns != [] {
      var t := turns[0];
      AdmitFromHeader(p, w, who, turns);
      hide Inv, OnConnected, Run, Atoi, Passes, Check, Admit;
      if t.remote.reverse {
        TakesFirst(p, w, who, turns);
        var (w2, r) := OnConnected(Run(w, t.before), who, Atoi(t.remote.remotePort).0, Atoi(t.remote.localPort).0,
          t.now);
        if r.Ok? {
          HandedStays(p, w2, r.value, turns[1..]);
        }
      } else if Passes(p, t) {
        hide TakesPort;
        HoldsIffTaken(p, Run(w, t.before), who, turns[1..]);
        TakenLater(p, w, who, turns);
      }
    } else {
      AdmitNone(p, w, Header(who));
    }
  }

  /** Behind a forward remote that passes, the session takes a port exactly when its other remotes do. */
  lemma TakenLater(p: Policy, w: World, who: Ident, turns: seq<Turn>)
    requires Inv(w) && turns != [] && !turns[0].remote.reverse && Passes(p, turns[0])
    ensures (exists i: nat :: TakesPort(p, w, who, turns, i)) <==>
      exists i: nat :: TakesPort(p, Run(w, turns[0].before), who, turns[1..], i)
  {
    if exists i: nat :: TakesPort(p, w, who, turns, i) {
      var i: nat :| TakesPort(p, w, who, turns, i);
      TakesShift(p, w, who, turns, i - 1);
    }
    if exists i: nat :: TakesPort(p, Run(w, turns[0].before), who, turns[1..], i) {
      var i: nat :| TakesPort(p, Run(w, turns[0].before), who, turns[1..], i);
      TakesShift(p, w, who, turns, i);
    }
  }

  lemma {:induction false} AfterForwardNext(w: World, turns: seq<Turn>, k: nat)
    requires Inv(w) && turns != [] && k < |turns|
    ensures AfterForward(w, turns[..k + 1]) == AfterForward(Run(w, turns[0].before), turns[1..][..k])
  {
    hide Run, Inv;
    assert turns[..k + 1][0] == turns[0] && turns[..k + 1][1..] == turns[1..][..k];
  }

  /** An OnConnected that fails changes nothing. */
  lemma FailureChangesNothing(w: World, who: Ident, clientPort: int, mappingPort: int, now: int)
    requires Inv(w) && OnConnected(w, who, clientPort, mappingPort, now).1.Err?
    ensures OnConnected(w, who, clientPort, mappingPort, now).0 == w
  {
  }

  /** A session that holds no record of the allocator has not changed it: only the other goroutines have. */
  lemma {:induction false} LeavesNothing(p: Policy, w: World, who: Ident, turns: seq<Turn>)
    requires Inv(w) && Admit(p, w, Header(who), turns).holder.Header?
    ensures exists k: nat :: k <= |turns| && Admit(p, w, Header(who), turns).w == AfterForward(w, turns[..k])
    decreases |turns|
  {
    var o := Admit(p, w, Header(who), turns);
    if turns == [] {
      AdmitNone(p, w, Header(who));
      assert o.w == AfterForward(w, turns[..0]);
    } else {
      var t := turns[0];
      var w1 := Run(w, t.before);
      AdmitFromHeader(p, w, who, turns);
      hide Inv, OnConnected, Run, Atoi, Passes, Check, Admit;
      if !t.remote.reverse && Passes(p, t) {
        LeavesNothing(p, w1, who, turns[1..]);
        var k: nat :| k <= |turns[1..]| && o.w == AfterForward(w1, turns[1..][..k]);
        AfterForwardNext(w, turns, k);
        assert o.w == AfterForward(w, turns[..k + 1]);
      } else {
        if t.remote.reverse {
          HandedUnlessFailed(p, w, who, turns);
          FailureChangesNothing(w1, who, Atoi(t.remote.remotePort).0, Atoi(t.remote.localPort).0, t.now);
        }
        AfterForwardNext(w, turns, 0);
        assert turns[1..][..0] == [];
        assert o.w == AfterForward(w, turns[..0 + 1]);
      }
    }
  }

  lemma HandedUnlessFailed(p: Policy, w: World, who: Ident, turns: seq<Turn>)
    requires Inv(w) && turns != [] && turns[0].remote.reverse && Admit(p, w, Header(who), turns).holder.Header?
    ensures !ConnectsOn(Run(w, turns[0].before), who, turns[0])
  {
    HoldsIffTaken(p, w, who, turns);
    TakesFirst(p, w, who, turns);
    hide *;
  }

  /** When OnConnected succeeds, by what a caller can look up beforehand. */
  lemma ConnectsWhen(w: World, who: Ident, t: Turn)
    requires Inv(w)
    ensures var clientPort, port := Atoi(t.remote.remotePort).0, Atoi(t.remote.localPort).0;
            ConnectsOn(w, who, t) <==>
              if Identified(who) then
                if Key(who) in w.names then
                  w.heap[w.names[Key(who)]].clientPort == clientPort && w.heap[w.names[Key(who)]].mappingPort == port
                else port !in w.ports
              else
                && port in w.ports && PortBacked(w, port)
                && w.heap[w.ports[port]].clientPort == clientPort && w.heap[w.ports[port]].status == Allocated
  {
    hide Atoi;
    var port := Atoi(t.remote.localPort).0;
    if port in w.ports {
      assert PortBacked(w, port);
    }
  }

  /** While the session validates, nothing takes the record it was handed out of its hands. */
  ghost predicate Quiet(w: World, cur: Holder, turns: seq<Turn>)
    requires Inv(w)
    decreases |turns|
  {
    turns != [] ==>
      var t := turns[0];
      && (cur.Handed? && cur.id < |w.heap| ==> NeverLoosened(t.before, cur.id, w.heap[cur.id].who))
      && var (w2, next) := HandleRemote(Run(w, t.before), cur, t.remote, t.now);
      next.Some? ==> Quiet(w2, next.value, turns[1..])
  }

  lemma {:induction false} ServedThroughout(p: Policy, w: World, id: nat, turns: seq<Turn>)
    requires Inv(w) && id < |w.heap| && Serves(w, id, w.heap[id].mappingPort) && Quiet(w, Handed(id), turns)
    ensures var o := Admit(p, w, Handed(id), turns);
            && o.holder == Handed(id) && o.connected == 0 && o.verdict != NoPort
            && id < |o.w.heap| && Serves(o.w, id, w.heap[id].mappingPort)
    decreases |turns|
  {
    if turns != [] {
      var t := turns[0];
      ServesRun(w, t.before, id);
      CheckReasons(p, t);
      hide OnConnected, Inv, Check;
      if Check(p, t) == Accepted {
        ServedThroughout(p, Run(w, t.before), id, turns[1..]);
      }
    }
  }

  /** After the first turn, whether the session has met a reverse remote yet or not. */
  lemma QuietStep(w: World, who: Ident, turns: seq<Turn>)
    requires Inv(w) && turns != [] && Quiet(w, Header(who), turns)
    ensures var t, w1 := turns[0], Run(w, turns[0].before);
            var (w2, r) := OnConnected(w1, who, Atoi(t.remote.remotePort).0, Atoi(t.remote.localPort).0, t.now);
            if !t.remote.reverse then Quiet(w1, Header(who), turns[1..])
            else r.Ok? ==> Quiet(w2, Handed(r.value), turns[1..])
  {
    hide Inv, OnConnected, Run, Atoi;
  }

  lemma {:induction false} TakenIsServed(p: Policy, w: World, who: Ident, turns: seq<Turn>, i: nat)
    requires Inv(w) && Quiet(w, Header(who), turns) && TakesPort(p, w, who, turns, i)
    ensures var o := Admit(p, w, Header(who), turns);
            && o.holder.Handed? && o.connected == 1 && o.verdict != NoPort
            && Serves(o.w, o.holder.id, Atoi(turns[i].remote.localPort).0)
    decreases |turns|
  {
    var t := turns[0];
    var w1 := Run(w, t.before);
    AdmitFromHeader(p, w, who, turns);
    QuietStep(w, who, turns);
    CheckReasons(p, t);
    if t.remote.reverse {
      assert i == 0 && turns[..0] == [];
      var (w2, r) := OnConnected(w1, who, Atoi(t.remote.remotePort).0, Atoi(t.remote.localPort).0, t.now);
      assert r.Ok?;
      hide Inv, OnConnected, Run, Atoi, Passes, Check, Admit, Quiet, TakesPort;
      ConnectServes(w1, who, Atoi(t.remote.remotePort).0, Atoi(t.remote.localPort).0, t.now);
      if Passes(p, t) {
        ServedThroughout(p, w2, r.value, turns[1..]);
      }
    } else {
      assert i > 0 && Passes(p, t);
      hide Inv, OnConnected, Run, Atoi, Passes, Check, Admit, Quiet, TakesPort;
      TakesShift(p, w, who, turns, i - 1);
      TakenIsServed(p, w1, who, turns[1..], i - 1);
      assert turns[1..][i - 1] == turns[i];
    }
  }

  /**
   A session marks its record Connected as soon as it meets its first reverse remote,
   and a refusal by a later test does not take that back. So whatever the verdict, the
   session leaves a record Connected exactly when OnConnected succeeded on its first
   reverse remote; that record then keeps its port through every run that does not
   allocate its key again, free it, or end a session on it, sweeps included.
   */
  lemma RefusedSessionKeepsPort(p: Policy, w: World, who: Ident, turns: seq<Turn>, ops: seq<Op>)
    requires Inv(w) && Quiet(w, Header(who), turns)
    ensures var o := Admit(p, w, Header(who), turns);
            && (o.holder.Handed? <==> exists i: nat :: TakesPort(p, w, who, turns, i))
            && o.connected == (if o.holder.Handed? then 1 else 0)
            && (o.verdict == NoPort ==> !o.holder.Handed?)
            && (o.holder.Handed? ==>
                  && o.holder.id < |o.w.heap|
                  && forall i: nat | TakesPort(p, w, who, turns, i)
                    && NeverLoosened(ops, o.holder.id, o.w.heap[o.holder.id].who) ::
                    Serves(Run(o.w, ops), o.holder.id, Atoi(turns[i].remote.localPort).0))
  {
    HoldsIffTaken(p, w, who, turns);
    var o := Admit(p, w, Header(who), turns);
    hide Inv, Run, OnConnected, TakesPort, Admit, Quiet, Atoi;
    forall i: nat | TakesPort(p, w, who, turns, i)
      ensures o.holder.Handed? && o.connected == 1 && o.verdict != NoPort
      ensures Serves(o.w, o.holder.id, Atoi(turns[i].remote.localPort).0)
      ensures NeverLoosened(ops, o.holder.id, o.w.heap[o.holder.id].who) ==>
                Serves(Run(o.w, ops), o.holder.id, Atoi(turns[i].remote.localPort).0)
    {
      TakenIsServed(p, w, who, turns, i);
      if NeverLoosened(ops, o.holder.id, o.w.heap[o.holder.id].who) {
        ServesRun(o.w, ops, o.holder.id);
      }
    }
  }

  /**
   For instance a reverse remote that passes everything and then one the user may not use:
   the refused session's port stays taken.
   */
  lemma RefusedBySecondRemote(p: Policy, minPort: int, maxPort: int, who: Ident, first: Turn, second: Turn)
    requires Identified(who) && first.before == second.before == []
    requires first.remote.reverse && Passes(p, first) && p.access.Some? && !p.access.value(UserAddr(second.remote))
    ensures var o := Admit(p, Init(minPort, maxPort), Header(who), [first, second]);
            && o.verdict == AccessDenied && o.holder == Handed(0)
            && Serves(o.w, 0, Atoi(first.remote.localPort).0)
  {
    var w, turns := Init(minPort, maxPort), [first, second];
    AdmitFromHeader(p, w, who, turns);
    var (w2, r) := OnConnected(w, who, Atoi(first.remote.remotePort).0, Atoi(first.remote.localPort).0, first.now);
    ConnectServes(w, who, Atoi(first.remote.remotePort).0, Atoi(first.remote.localPort).0, first.now);
    assert r == Ok(0);
    assert turns[1..] == [second];
    hide Atoi, OnConnected;
    AdmitOne(p, w2, Handed(0), [second]);
  }

  // ---------- The handler on the real objects ----------

  /** The object stands for the holder: a header record unknown to the allocator, or the record handed out. */
  ghost predicate Stands(pa: PortAllocator, alloc: PortAllocation, cur: Holder)
    reads pa, alloc
  {
    match cur
    case Header(who) => alloc.Value() == HeaderRecord(who) && alloc !in pa.created
    case Handed(id) => id < |pa.created| && pa.created[id] == alloc
  }

  method HandleRequestHeader(who: Ident) returns (alloc: PortAllocation)
    ensures fresh(alloc) && alloc.Value() == HeaderRecord(who)
  {
    alloc := new PortAllocation(HeaderRecord(who));
  }

  method HandleRemoteOn(pa: PortAllocator, alloc: PortAllocation, r: Remote, now: int, ghost cur: Holder)
    returns (res: Option<PortAllocation>, ghost next: Option<Holder>)
    requires pa.Valid() && Stands(pa, alloc, cur)
    modifies pa, pa.created
    ensures pa.Valid() && pa.OnlyGrows() && (pa.world, next) == HandleRemote(old(pa.world), cur, r, now)
    ensures res.Some? == next.Some?
    ensures res.Some? ==> Stands(pa, res.value, next.value) && (res.value == alloc || res.value in pa.created)
    ensures pa.created == old(pa.created)
      || (res.Some? && res.value != alloc && pa.created == old(pa.created) + [res.value])
  {
    assert alloc.Value() == Held(pa.world, cur);
    next := HandleRemote(pa.world, cur, r, now).1;
    if alloc.status != Freed || !r.reverse {
      return Some(alloc), next;
    }
    var clientPort, mappingPort := Atoi(r.remotePort).0, Atoi(r.localPort).0;
    if (alloc.clientPort != 0 && alloc.clientPort != clientPort)
      || (alloc.mappingPort != 0 && alloc.mappingPort != mappingPort) {
      return Some(alloc), next;
    }
    hide PortModel.OnConnected, Inv;
    var connected := pa.OnConnected(alloc.who, clientPort, mappingPort, now);
    match connected
    case Ok(handed) =>
      res := Some(handed);
      if pa.created != old(pa.created) {
        assert pa.created[|old(pa.created)|] == handed && fresh(handed);
      }
    case Err(_) => res := None;
  }

  /** The tests in the order in which they are made. */
  method ApplyTests(p: Policy, t: Turn) returns (verdict: Verdict)
    ensures verdict == Check(p, t)
  {
    if p.access.Some? {
      var addr := UserAddr(t.remote);
      if !p.access.value(addr) {
        return AccessDenied;
      }
    }
    if t.remote.reverse && !p.reverse {
      return ReverseDisabled;
    }
    if t.remote.reverse && !t.canListen {
      return CannotListen;
    }
    return Accepted;
  }

  /** One remote, after whatever the other goroutines do before it is handled. */
  method HandleTurn(pa: PortAllocator, others: Others, alloc: PortAllocation, t: Turn, ghost cur: Holder)
    returns (res: Option<PortAllocation>, ghost next: Option<Holder>)
    requires pa.Valid() && others.Know(pa) && Stands(pa, alloc, cur)
    modifies pa, pa.created, others
    ensures pa.Valid() && pa.OnlyGrows()
      && (pa.world, next) == HandleRemote(Run(old(pa.world), t.before), cur, t.remote, t.now)
    ensures res.Some? == next.Some?
    ensures res.Some? ==>
      others.Know(pa) && Stands(pa, res.value, next.value) && (res.value == alloc || res.value in pa.created)
  {
    hide Inv, HandleRemote, Run;
    others.PerformAll(pa, t.before);
    res, next := HandleRemoteOn(pa, alloc, t.remote, t.now, cur);
    if res.Some? && res.value != alloc {
      others.Meet(pa, res.value);
    }
  }

  /** The validation loop, with the other goroutines at work between any two remotes. */
  method ValidateRemotes(pa: PortAllocator, others: Others, who: Ident, p: Policy, turns: seq<Turn>)
    returns (verdict: Verdict, alloc: PortAllocation)
    requires pa.Valid() && others.Know(pa)
    modifies pa, pa.created, others
    ensures pa.Valid() && pa.OnlyGrows()
    ensures var o := Admit(p, old(pa.world), Header(who), turns);
            pa.world == o.w && verdict == o.verdict && (verdict != NoPort ==> Stands(pa, alloc, o.holder))
  {
    hide Inv, HandleRemote, Admit, Check, Skips, Run;
    alloc := HandleRequestHeader(who);
    ghost var cur, calls := Header(who), 0;
    for i := 0 to |turns|
      invariant pa.Valid() && pa.OnlyGrows() && others.Know(pa) && Stands(pa, alloc, cur)
      invariant var o := Admit(p, pa.world, cur, turns[i..]);
                Admit(p, old(pa.world), Header(who), turns) == o.(connected := o.connected + calls)
    {
      var t := turns[i];
      AdmitOne(p, pa.world, cur, turns[i..]);
      ghost var w := Run(pa.world, t.before);
      var handled, next := HandleTurn(pa, others, alloc, t, cur);
      if handled.None? {
        return NoPort, alloc;
      }
      calls := calls + if Skips(Held(w, cur), t.remote) then 0 else 1;
      alloc := handled.value;
      cur := next.value;
      verdict := ApplyTests(p, t);
      if verdict != Accepted {
        return;
      }
      assert turns[i..][1..] == turns[i + 1..];
    }
    AdmitNone(p, pa.world, cur);
    return Accepted, alloc;
  }

  lemma AdmitNone(p: Policy, w: World, cur: Holder)
    requires Inv(w)
    ensures Admit(p, w, cur, []) == Outcome(w, cur, Accepted, 0)
  {
  }

  /** One turn of Admit. */
  lemma AdmitOne(p: Policy, w: World, cur: Holder, turns: seq<Turn>)
    requires Inv(w) && turns != []
    ensures var t, w1 := turns[0], Run(w, turns[0].before);
            var (w2, next) := HandleRemote(w1, cur, t.remote, t.now);
            var calls := if Skips(Held(w1, cur), t.remote) || next.None? then 0 else 1;
            Admit(p, w, cur, turns) ==
              if next.None? then Outcome(w2, cur, NoPort, 0)
              else if Check(p, t) != Accepted then Outcome(w2, next.value, Check(p, t), calls)
              else var o := Admit(p, w2, next.value, turns[1..]); o.(connected := o.connected + calls)
  {
  }

  /** The last statement of a session. */
  method EndOf(pa: PortAllocator, alloc: PortAllocation, ghost id: nat)
    requires pa.Valid() && id < |pa.created| && pa.created[id] == alloc
    modifies pa, alloc
    ensures pa.Valid() && pa.created == old(pa.created) && pa.world == EndSession(old(pa.world), id)
  {
    ghost var w := EndSession(pa.world, id);
    pa.SetStatus(alloc, Allocated, id);
    hide Inv;
    assert pa.world == w;
  }
}
