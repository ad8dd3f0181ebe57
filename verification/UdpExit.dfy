/**
 The exit side of a UDP remote: one loop takes packets off the SSH channel and keeps
 one UDP connection per source; readers, one goroutine each, carry the replies back
 and remove their connection when they end. Every section under the map's lock is one
 step, and steps of the loop and of the readers interleave freely.
 */
module UdpExit {
  import opened Wrappers

  const MAX_CONNS := 100

  /** The connection map and, by connection number, the source each connection was dialled for. */
  datatype Conns = Conns(m: map<string, nat>, dialled: seq<string>)

  datatype DialResult = Dialled(conn: nat, exists_: bool) | DialFailed

  /** `reachable` is what the network answers if a new connection has to be dialled. */
  function DialFor(c: Conns, id: string, reachable: bool): (Conns, DialResult) {
    if id in c.m then (c, Dialled(c.m[id], true))
    else if !reachable then (c, DialFailed)
    else (Conns(c.m[id := |c.dialled|], c.dialled + [id]), Dialled(|c.dialled|, false))
  }

  class UdpConns {
    var m: map<string, nat>
    var dialled: seq<string>

    function Value(): Conns
      reads this
    {
      Conns(m, dialled)
    }

    constructor ()
      ensures Value() == Conns(map[], [])
    {
      m, dialled := map[], [];
    }

    method Dial(id: string, reachable: bool) returns (r: DialResult)
      modifies this
      ensures (Value(), r) == DialFor(old(Value()), id, reachable)
    {
      if id in m {
        return Dialled(m[id], true);
      }
      if !reachable {
        return DialFailed;
      }
      var conn := |dialled|;
      dialled := dialled + [id];
      m := m[id := conn];
      return Dialled(conn, false);
    }

    method Len() returns (l: nat)
      ensures l == |m|
    {
      l := |m|;
    }

    method Remove(id: string)
      modifies `m
      ensures m == old(m) - {id}
    {
      m := m - {id};
    }

    /** Closes every connection of the map and leaves it empty. */
    method CloseAll() returns (closed: seq<nat>)
      modifies `m
      ensures m == map[]
      ensures |closed| == |old(m)| && forall id | id in old(m) :: old(m)[id] in closed
    {
      closed := [];
      while m.Keys != {}
        invariant forall id | id in m :: id in old(m) && m[id] == old(m)[id]
        invariant forall id | id in old(m) && id !in m :: old(m)[id] in closed
        invariant |closed| + |m| == |old(m)|
        decreases m.Keys
      {
        var id :| id in m;
        closed := closed + [m[id]];
        ghost var before := m;
        m := m - {id};
        assert m.Keys == before.Keys - {id};
      }
    }
  }

  // ---------- The loop and its readers ----------

  datatype Reader = Reader(src: string, conn: nat)

  datatype Loop =
    | Receiving
    | HasConn(src: string, conn: nat, exists_: bool)   // after dial, before len
    | MaySpawn(src: string, conn: nat)                 // the count allowed a reader
    | Writing(src: string, conn: nat)
    | Returning                                        // an error; the deferred closeAll is due
    | Returned

  /** `written` and `replied` log each datagram with its source and the connection it went or came through. */
  datatype State = State(
    conns: Conns, readers: seq<Reader>, loop: Loop,
    written: seq<Reader>, replied: seq<Reader>)

  datatype Event =
    | Packet(src: string, reachable: bool)   // decode and dial
    | Lost                                   // decode fails: the channel is closed
    | Advance                                // the loop's next step
    | Wrote(ok: bool)
    | Reply(i: nat)                          // reader i reads a datagram and encodes it back
    | Finish(i: nat)                         // reader i times out or fails, and removes its connection

  function Init(): State {
    State(Conns(map[], []), [], Receiving, [], [])
  }

  function Next(s: State, e: Event): State {
    match e
    case Packet(src, reachable) =>
      if s.loop == Receiving then
        var (c, r) := DialFor(s.conns, src, reachable);
        s.(conns := c, loop := if r.Dialled? then HasConn(src, r.conn, r.exists_) else Returning)
      else s
    case Lost => if s.loop == Receiving then s.(loop := Returning) else s
    case Advance => Advanced(s)
    case Wrote(ok) =>
      if s.loop.Writing? then
        s.(loop := if ok then Receiving else Returning, written := s.written + [Reader(s.loop.src, s.loop.conn)])
      else s
    case Reply(i) => if i < |s.readers| then s.(replied := s.replied + [s.readers[i]]) else s
    case Finish(i) =>
      if i < |s.readers| then
        s.(conns := s.conns.(m := s.conns.m - {s.readers[i].src}), readers := s.readers[..i] + s.readers[i + 1..])
      else s
  }

  function Advanced(s: State): State {
    match s.loop
    case HasConn(src, conn, exists_) =>
      s.(loop := if !exists_ && |s.conns.m| <= MAX_CONNS then MaySpawn(src, conn) else Writing(src, conn))
    case MaySpawn(src, conn) => s.(readers := s.readers + [Reader(src, conn)], loop := Writing(src, conn))
    case Returning => s.(conns := s.conns.(m := map[]), loop := Returned)
    case _ => s
  }

  function Run(s: State, events: seq<Event>): State
    decreases |events|
  {
    if events == [] then s else Run(Next(s, events[0]), events[1..])
  }

  /** The connection was dialled for that source. */
  predicate Owned(c: Conns, r: Reader) {
    r.conn < |c.dialled| && c.dialled[r.conn] == r.src
  }

  ghost predicate NoReader(s: State, src: string) {
    forall i | 0 <= i < |s.readers| :: s.readers[i].src != src
  }

  /** Until closeAll: live readers have distinct sources, and each one's own connection is in the map. */
  ghost predicate ReadersInMap(s: State) {
    && (forall i, j | 0 <= i < j < |s.readers| :: s.readers[i].src != s.readers[j].src)
    && (forall i | 0 <= i < |s.readers| ::
          s.readers[i].src in s.conns.m && s.conns.m[s.readers[i].src] == s.readers[i].conn)
  }

  ghost predicate LoopInv(s: State) {
    match s.loop
    case HasConn(src, conn, exists_) =>
      && Owned(s.conns, Reader(src, conn))
      && (!exists_ ==> src in s.conns.m && s.conns.m[src] == conn && NoReader(s, src))
    case MaySpawn(src, conn) =>
      && Owned(s.conns, Reader(src, conn)) && src in s.conns.m && s.conns.m[src] == conn
      && NoReader(s, src) && |s.readers| < MAX_CONNS
    case Writing(src, conn) => Owned(s.conns, Reader(src, conn))
    case _ => true
  }

  ghost predicate Routed(s: State) {
    && (forall src | src in s.conns.m :: Owned(s.conns, Reader(src, s.conns.m[src])))
    && AllOwned(s.conns, s.readers) && AllOwned(s.conns, s.written) && AllOwned(s.conns, s.replied)
  }

  ghost predicate AllOwned(c: Conns, rs: seq<Reader>) {
    forall i | 0 <= i < |rs| :: Owned(c, rs[i])
  }

  ghost predicate Inv(s: State) {
    && |s.readers| <= MAX_CONNS
    && LoopInv(s) && Routed(s)
    && (s.loop != Returned ==> ReadersInMap(s))
  }

  function Sources(readers: seq<Reader>): set<string> {
    set i | 0 <= i < |readers| :: readers[i].src
  }

  lemma {:induction false} DistinctSources(readers: seq<Reader>)
    requires forall i, j | 0 <= i < j < |readers| :: readers[i].src != readers[j].src
    ensures |Sources(readers)| == |readers|
  {
    if readers != [] {
      var rest, last := readers[..|readers| - 1], readers[|readers| - 1];
      DistinctSources(rest);
      assert Sources(readers) == Sources(rest) + {last.src};
    }
  }

  /** With a fresh source counted in, a map of at most 100 entries leaves room for its reader. */
  lemma RoomForReader(s: State)
    requires Inv(s) && s.loop.HasConn? && !s.loop.exists_ && |s.conns.m| <= MAX_CONNS
    ensures |s.readers| < MAX_CONNS
  {
    DistinctSources(s.readers);
    SubsetCount(Sources(s.readers), s.conns.m.Keys - {s.loop.src});
    assert |s.conns.m.Keys - {s.loop.src}| == |s.conns.m| - 1;
  }

  lemma InvStep(s: State, e: Event)
    requires Inv(s)
    ensures Inv(Next(s, e))
  {
    match e {
      case Packet(src, reachable) => InvPacket(s, src, reachable);
      case Advance => InvAdvance(s);
      case Finish(i) => InvFinish(s, i);
      case _ =>
    }
  }

  lemma InvPacket(s: State, src: string, reachable: bool)
    requires Inv(s)
    ensures Inv(Next(s, Packet(src, reachable)))
  {
  }

  lemma InvAdvance(s: State)
    requires Inv(s)
    ensures Inv(Advanced(s))
  {
    if s.loop.HasConn? && !s.loop.exists_ && |s.conns.m| <= MAX_CONNS {
      RoomForReader(s);
    }
  }

  lemma InvFinish(s: State, i: nat)
    requires Inv(s)
    ensures Inv(Next(s, Finish(i)))
  {
    var s' := Next(s, Finish(i));
    assert s.loop != Returned ==> ReadersInMap(s');
    assert Routed(s');
    hide ReadersInMap, Routed;
  }

  lemma {:induction false} InvRun(s: State, events: seq<Event>)
    requires Inv(s)
    ensures Inv(Run(s, events))
    decreases |events|
  {
    if events != [] {
      InvStep(s, events[0]);
      InvRun(Next(s, events[0]), events[1..]);
    }
  }

  /** In every interleaving at most 100 readers live, and until closeAll they serve distinct sources of the map. */
  lemma AtMostHundredReaders(events: seq<Event>)
    ensures var s := Run(Init(), events);
            && |s.readers| <= 100
            && (s.loop != Returned ==> |Sources(s.readers)| == |s.readers| && Sources(s.readers) <= s.conns.m.Keys)
  {
    InvRun(Init(), events);
    var s := Run(Init(), events);
    hide Run, Init;
    if s.loop != Returned {
      DistinctSources(s.readers);
    }
  }

  /**
   A datagram goes out only on the connection dialled for its source, and a reply carries
   the source its connection was dialled for.
   */
  lemma RepliesGoHome(events: seq<Event>)
    ensures var s := Run(Init(), events);
            AllOwned(s.conns, s.written) && AllOwned(s.conns, s.replied)
  {
    InvRun(Init(), events);
  }

  // ---------- A source refused a reader ----------

  /** In the map without a reader, and the loop not about to give it one. */
  ghost predicate Mute(s: State, src: string) {
    && s.loop != Returned && src in s.conns.m && NoReader(s, src)
    && (s.loop.HasConn? && s.loop.src == src ==> s.loop.exists_)
    && (s.loop.MaySpawn? ==> s.loop.src != src)
  }

  lemma RefusalMutes(s: State)
    requires Inv(s) && s.loop.HasConn? && !s.loop.exists_
    ensures Mute(Next(s, Advance), s.loop.src) <==> |s.conns.m| > MAX_CONNS
  {
  }

  lemma MuteStep(s: State, e: Event, src: string)
    requires Inv(s) && Mute(s, src)
    ensures Next(s, e).loop == Returned || Mute(Next(s, e), src)
    ensures Next(s, e).replied == s.replied || exists r :: Next(s, e).replied == s.replied + [r] && r.src != src
  {
    if e.Reply? && e.i < |s.readers| {
      assert Next(s, e).replied == s.replied + [s.readers[e.i]];
    }
  }

  /** The number of replies sent to a source. */
  function RepliesTo(replied: seq<Reader>, src: string): nat {
    if replied == [] then 0
    else RepliesTo(replied[..|replied| - 1], src) + if replied[|replied| - 1].src == src then 1 else 0
  }

  /**
   A source that was refused a reader keeps its entry until closeAll, so it is never given
   one: no reply reaches it before then.
   */
  lemma {:induction false} MuteUntilClosed(s: State, events: seq<Event>, src: string)
    requires Inv(s) && Mute(s, src)
    ensures Run(s, events).loop == Returned
            || (Mute(Run(s, events), src) && RepliesTo(Run(s, events).replied, src) == RepliesTo(s.replied, src))
    decreases |events|
  {
    if events != [] {
      var s' := Next(s, events[0]);
      InvStep(s, events[0]);
      MuteStep(s, events[0], src);
      if s'.loop == Returned {
        ReturnedStays(s', events[1..]);
      } else {
        MuteUntilClosed(s', events[1..], src);
        if s'.replied != s.replied {
          var r :| s'.replied == s.replied + [r] && r.src != src;
          assert s'.replied[..|s'.replied| - 1] == s.replied;
        }
      }
    }
  }

  lemma {:induction false} ReturnedStays(s: State, events: seq<Event>)
    requires s.loop == Returned
    ensures Run(s, events).loop == Returned
    decreases |events|
  {
    if events != [] {
      ReturnedStays(Next(s, events[0]), events[1..]);
    }
  }

  // ---------- Such a source exists ----------

  lemma {:induction false} RunConcat(s: State, a: seq<Event>, b: seq<Event>)
    ensures Run(s, a + b) == Run(Run(s, a), b)
    decreases |a|
  {
    if a == [] {
      assert a + b == b;
    } else {
      assert (a + b)[1..] == a[1..] + b;
      RunConcat(Next(s, a[0]), a[1..], b);
    }
  }

  /**
   A packet that can be sent on, handled without interference; the last step closes
   everything if an error occurred.
   */
  function Turn(src: string, reachable: bool, ok: bool): seq<Event> {
    [Packet(src, reachable), Advance, Advance, Wrote(ok), Advance]
  }

  lemma RunTurn(s: State, src: string, reachable: bool, ok: bool)
    ensures Run(s, Turn(src, reachable, ok))
      == Advanced(Next(Advanced(Advanced(Next(s, Packet(src, reachable)))), Wrote(ok)))
  {
    hide Next, Advanced;
    var events := Turn(src, reachable, ok);
    var s1 := Next(s, events[0]);
    var s2 := Next(s1, Advance);
    var s3 := Next(s2, Advance);
    var s4 := Next(s3, Wrote(ok));
    assert events[1..] == [Advance, Advance, Wrote(ok), Advance];
    assert events[1..][1..] == [Advance, Wrote(ok), Advance];
    assert events[1..][1..][1..] == [Wrote(ok), Advance];
    assert events[1..][1..][1..][1..] == [Advance];
    assert events[1..][1..][1..][1..][1..] == [];
    assert Run(s, events) == Run(s1, events[1..]);
    assert Run(s1, events[1..]) == Run(s2, events[1..][1..]);
    assert Run(s2, events[1..][1..]) == Run(s3, events[1..][1..][1..]);
    assert Run(s3, events[1..][1..][1..]) == Run(s4, events[1..][1..][1..][1..]);
    assert Run(s4, [Advance]) == Run(Next(s4, Advance), []);
    AdvanceIs(s1);
    AdvanceIs(s2);
    AdvanceIs(s4);
  }

  lemma AdvanceIs(s: State)
    ensures Next(s, Advance) == Advanced(s)
  {
  }

  /** One packet from each source, none of them answered yet. */
  function Flood(srcs: seq<string>): seq<Event> {
    if srcs == [] then [] else Flood(srcs[..|srcs| - 1]) + Turn(srcs[|srcs| - 1], true, true)
  }

  ghost predicate Distinct(srcs: seq<string>) {
    forall i, j | 0 <= i < j < |srcs| :: srcs[i] != srcs[j]
  }

  /** After packets from at most 100 sources each of them has its connection and its reader. */
  lemma {:induction false} FloodRun(srcs: seq<string>)
    requires Distinct(srcs) && |srcs| <= MAX_CONNS
    ensures var s := Run(Init(), Flood(srcs));
            && s.loop == Receiving && |s.conns.m| == |s.readers| == |srcs| && s.replied == []
            && forall src :: src in s.conns.m <==> src in srcs
  {
    if srcs != [] {
      var rest, last := srcs[..|srcs| - 1], srcs[|srcs| - 1];
      assert srcs == rest + [last];
      FloodRun(rest);
      RunConcat(Init(), Flood(rest), Turn(last, true, true));
      var s := Run(Init(), Flood(rest));
      RunTurn(s, last, true, true);
      hide Run, Flood, Turn;
      assert last !in rest;
    }
  }

  /**
   So the source that comes after 100 others is refused a reader, and whatever happens next
   no reply reaches it before closeAll.
   */
  lemma HundredAndFirst(srcs: seq<string>, events: seq<Event>)
    requires Distinct(srcs) && |srcs| == 101
    ensures var s := Run(Init(), Flood(srcs[..100]) + [Packet(srcs[100], true), Advance]);
            && Mute(s, srcs[100]) && s.loop.Writing? && s.loop.src == srcs[100]
            && (Run(s, events).loop == Returned || RepliesTo(Run(s, events).replied, srcs[100]) == 0)
  {
    var first, last := srcs[..100], srcs[100];
    FloodRun(first);
    RunConcat(Init(), Flood(first), [Packet(last, true), Advance]);
    var s := Run(Init(), Flood(first));
    InvRun(Init(), Flood(first));
    var s1 := Next(s, Packet(last, true));
    InvStep(s, Packet(last, true));
    RunTwo(s, Packet(last, true), Advance);
    assert last !in first;
    assert |s1.conns.m| == 101 && s1.loop == HasConn(last, s1.loop.conn, false) && s1.replied == [];
    AdvanceIs(s1);
    RefusalMutes(s1);
    InvStep(s1, Advance);
    assert Next(s1, Advance).loop == Writing(last, s1.loop.conn) && Next(s1, Advance).replied == [];
    hide Run, Next, Init, Flood, Inv, Mute;
    MuteUntilClosed(Next(s1, Advance), events, last);
  }

  lemma RunTwo(s: State, d: Event, e: Event)
    ensures Run(s, [d, e]) == Next(Next(s, d), e)
  {
    hide Next;
    assert [d, e][1..] == [e] && [e][1..] == [];
    assert Run(s, [d, e]) == Run(Next(s, d), [e]) == Run(Next(Next(s, d), e), []);
  }

  // ---------- Who hears a reply ----------

  /** The step counts more than 100 connections and refuses the new source its reader. */
  predicate Refuses(s: State, e: Event) {
    e == Advance && s.loop.HasConn? && !s.loop.exists_ && |s.conns.m| > MAX_CONNS
  }

  /** The sources refused along a run. */
  function Refused(s: State, events: seq<Event>): set<string>
    decreases |events|
  {
    if events == [] then {}
    else (if Refuses(s, events[0]) then {s.loop.src} else {}) + Refused(Next(s, events[0]), events[1..])
  }

  /** The loop is about to decide on the source's reader, or to spawn it. */
  predicate Deciding(s: State, src: string) {
    || (s.loop.HasConn? && !s.loop.exists_ && s.loop.src == src)
    || (s.loop.MaySpawn? && s.loop.src == src)
  }

  ghost predicate HasReader(s: State, src: string) {
    exists i :: 0 <= i < |s.readers| && s.readers[i].src == src
  }

  /** Before closeAll, the sources in the map without a reader are the refused ones and the one being decided on. */
  ghost predicate Accounted(s: State, refused: set<string>) {
    s.loop != Returned ==>
      && (forall src | src in refused :: Mute(s, src))
      && (forall src | src in s.conns.m :: HasReader(s, src) || src in refused || Deciding(s, src))
  }

  /** The refused sources of a run after its first step. */
  function RefusedBy(s: State, e: Event): set<string> {
    if Refuses(s, e) then {s.loop.src} else {}
  }

  lemma RefusedStayMute(s: State, e: Event, refused: set<string>)
    requires Inv(s) && Accounted(s, refused) && Next(s, e).loop != Returned
    ensures forall src | src in refused + RefusedBy(s, e) :: Mute(Next(s, e), src)
  {
    forall src | src in refused ensures Mute(Next(s, e), src) {
      ReturnedStep(s, e);
      MuteStep(s, e, src);
    }
    if Refuses(s, e) {
      RefusalMutes(s);
    }
  }

  lemma ReturnedStep(s: State, e: Event)
    ensures s.loop == Returned ==> Next(s, e).loop == Returned
  {
  }

  lemma OthersHaveReaders(s: State, e: Event, refused: set<string>, src: string)
    requires Inv(s) && Accounted(s, refused) && Next(s, e).loop != Returned && src in Next(s, e).conns.m
    ensures HasReader(Next(s, e), src) || src in refused + RefusedBy(s, e) || Deciding(Next(s, e), src)
  {
    ReturnedStep(s, e);
    var s' := Next(s, e);
    if src in s.conns.m && HasReader(s, src) {
      var i :| 0 <= i < |s.readers| && s.readers[i].src == src;
      KeepsReader(s, e, i);
    } else if e == Advance && s.loop.MaySpawn? && s.loop.src == src {
      assert s'.readers[|s.readers|].src == src;
    }
    hide Inv, Mute;
  }

  /** A reader is gone only when it has finished, and then so is its source. */
  lemma KeepsReader(s: State, e: Event, i: nat)
    requires i < |s.readers| && s.readers[i].src in Next(s, e).conns.m
    ensures HasReader(Next(s, e), s.readers[i].src)
  {
    var s' := Next(s, e);
    if e.Finish? && e.i < |s.readers| {
      assert e.i != i;
      assert s'.readers[if i < e.i then i else i - 1] == s.readers[i];
    } else {
      assert s'.readers[i] == s.readers[i];
    }
  }

  lemma AccountedStep(s: State, e: Event, refused: set<string>)
    requires Inv(s) && Accounted(s, refused)
    ensures Accounted(Next(s, e), refused + RefusedBy(s, e))
  {
    if Next(s, e).loop != Returned {
      RefusedStayMute(s, e, refused);
      forall src | src in Next(s, e).conns.m
        ensures HasReader(Next(s, e), src) || src in refused + RefusedBy(s, e) || Deciding(Next(s, e), src)
      {
        OthersHaveReaders(s, e, refused, src);
      }
    }
    hide Next, Mute, HasReader, Deciding, RefusedBy;
  }

  lemma {:induction false} AccountedRun(s: State, events: seq<Event>, refused: set<string>)
    requires Inv(s) && Accounted(s, refused)
    ensures Accounted(Run(s, events), refused + Refused(s, events))
    decreases |events|
  {
    hide Inv, Next, Accounted;
    if events == [] {
      assert refused + {} == refused;
    } else {
      InvStep(s, events[0]);
      AccountedStep(s, events[0], refused);
      AccountedRun(Next(s, events[0]), events[1..], refused + RefusedBy(s, events[0]));
      assert refused + Refused(s, events)
          == (refused + RefusedBy(s, events[0])) + Refused(Next(s, events[0]), events[1..]);
    }
  }

  /**
   On every run, before closeAll: in the map without a reader are exactly the refused
   sources and the one being decided on.
   */
  lemma WithoutReader(events: seq<Event>, src: string)
    requires Run(Init(), events).loop != Returned
    ensures var s := Run(Init(), events);
            src in s.conns.m && !HasReader(s, src) <==>
              src in Refused(Init(), events) || (Deciding(s, src) && src in s.conns.m)
  {
    InvRun(Init(), events);
    AccountedRun(Init(), events, {});
    assert {} + Refused(Init(), events) == Refused(Init(), events);
    hide Run, Init, Refused;
  }

  /**
   On every run, when the loop is about to write a datagram: somebody reads the
   replies of the connection it goes out on exactly when that connection is still the
   source's in the map and the source was never refused.
   */
  lemma ReplyIsAwaited(events: seq<Event>)
    requires Run(Init(), events).loop.Writing?
    ensures var s := Run(Init(), events);
            Reader(s.loop.src, s.loop.conn) in s.readers <==>
              && s.loop.src in s.conns.m && s.conns.m[s.loop.src] == s.loop.conn
              && s.loop.src !in Refused(Init(), events)
  {
    InvRun(Init(), events);
    WithoutReader(events, Run(Init(), events).loop.src);
    var s := Run(Init(), events);
    hide Run, Init, Refused;
    if Reader(s.loop.src, s.loop.conn) in s.readers {
      var i :| 0 <= i < |s.readers| && s.readers[i] == Reader(s.loop.src, s.loop.conn);
    }
  }

  /**
   A datagram is written though the reader of its connection has finished since the dial:
   nobody reads its reply, and no one was refused.
   */
  function TooLate(a: string): seq<Event> {
    Turn(a, true, true) + [Packet(a, true), Finish(0), Advance]
  }

  lemma ReaderLeavesFirst(a: string)
    ensures var s := Run(Init(), TooLate(a));
            && s.loop == Writing(a, 0) && s.readers == [] && s.conns.m == map[] && s.replied == []
            && Next(s, Wrote(true)).written == [Reader(a, 0), Reader(a, 0)]
            && Refused(Init(), TooLate(a)) == {}
  {
    var s1 := Answerable(a);
    var s2 := s1.(loop := HasConn(a, 0, true));
    var s3 := State(Conns(map[], [a]), [], HasConn(a, 0, true), [Reader(a, 0)], []);
    assert Next(s1, Packet(a, true)) == s2;
    assert Next(s2, Finish(0)) == s3;
    assert Next(s3, Advance) == s3.(loop := Writing(a, 0));
    hide Run, Turn, Init;
    RunConcat(Init(), Turn(a, true, true), [Packet(a, true), Finish(0), Advance]);
    RunThree(s1, Packet(a, true), Finish(0), Advance);
    NobodyRefused(TooLate(a));
  }

  /** After one packet its source has its connection and its reader. */
  lemma Answerable(a: string) returns (s: State)
    ensures s == Run(Init(), Turn(a, true, true))
    ensures s == State(Conns(map[a := 0], [a]), [Reader(a, 0)], Receiving, [Reader(a, 0)], [])
  {
    RunTurn(Init(), a, true, true);
    hide Run, Turn;
    s := Run(Init(), Turn(a, true, true));
  }

  lemma RunThree(s: State, d: Event, e: Event, f: Event)
    ensures Run(s, [d, e, f]) == Next(Next(Next(s, d), e), f)
  {
    hide Next;
    assert [d, e, f][1..] == [e, f] && [e, f][1..] == [f] && [f][1..] == [];
    assert Run(s, [d, e, f]) == Run(Next(s, d), [e, f]) == Run(Next(Next(s, d), e), [f]);
    assert Run(Next(Next(s, d), e), [f]) == Run(Next(Next(Next(s, d), e), f), []);
  }

  /** A refused source stays in the map, so when that is empty there is none. */
  lemma NobodyRefused(events: seq<Event>)
    requires Run(Init(), events).loop != Returned && Run(Init(), events).conns.m == map[]
    ensures Refused(Init(), events) == {}
  {
    InvRun(Init(), []);
    AccountedRun(Init(), events, {});
    assert forall src | src in Refused(Init(), events) :: Mute(Run(Init(), events), src);
  }

  // ---------- Every datagram is accounted for ----------

  /** The readers that read a datagram along a run, in order: those live at a Reply event. */
  function Answers(s: State, events: seq<Event>): seq<Reader>
    decreases |events|
  {
    if events == [] then []
    else
      (match events[0]
       case Reply(i) => if i < |s.readers| then [s.readers[i]] else []
       case _ => [])
      + Answers(Next(s, events[0]), events[1..])
  }

  /** The datagrams that reached the write along a run, with the source and the connection they had there. */
  function Writes(s: State, events: seq<Event>): seq<Reader>
    decreases |events|
  {
    if events == [] then []
    else
      (if events[0].Wrote? && s.loop.Writing? then [Reader(s.loop.src, s.loop.conn)] else [])
      + Writes(Next(s, events[0]), events[1..])
  }

  /**
   Nothing that is read stays behind and nothing else is sent back; nothing that reaches
   the write is dropped or written twice.
   */
  lemma {:induction false} LogsAreExact(s: State, events: seq<Event>)
    ensures Run(s, events).replied == s.replied + Answers(s, events)
    ensures Run(s, events).written == s.written + Writes(s, events)
    decreases |events|
  {
    if events != [] {
      LogsAreExact(Next(s, events[0]), events[1..]);
    }
  }

  /** How many datagrams the live readers of a source read along a run. */
  function AnswersFrom(s: State, events: seq<Event>, src: string): nat
    decreases |events|
  {
    if events == [] then 0
    else
      (match events[0]
       case Reply(i) => if i < |s.readers| && s.readers[i].src == src then 1 else 0
       case _ => 0)
      + AnswersFrom(Next(s, events[0]), events[1..], src)
  }

  lemma RepliesToOneMore(replied: seq<Reader>, r: Reader, src: string)
    ensures RepliesTo(replied + [r], src) == RepliesTo(replied, src) + if r.src == src then 1 else 0
  {
    assert (replied + [r])[..|replied|] == replied;
  }

  /** On every run, a source is sent exactly as many replies as its readers read. */
  lemma {:induction false} RepliesCounted(s: State, events: seq<Event>, src: string)
    ensures RepliesTo(Run(s, events).replied, src) == RepliesTo(s.replied, src) + AnswersFrom(s, events, src)
    decreases |events|
  {
    if events != [] {
      var e := events[0];
      RepliesCounted(Next(s, e), events[1..], src);
      if e.Reply? && e.i < |s.readers| {
        RepliesToOneMore(s.replied, s.readers[e.i], src);
      }
    }
  }

  /**
   A decode, dial or write that fails ends the loop, and the next step closes every
   connection; a write that succeeds does not.
   */
  lemma ErrorsClose(s: State, src: string)
    ensures s.loop == Receiving ==> var s' := Next(Next(s, Lost), Advance); s'.loop == Returned && s'.conns.m == map[]
    ensures s.loop == Receiving && src !in s.conns.m ==>
              var s' := Next(Next(s, Packet(src, false)), Advance); s'.loop == Returned && s'.conns.m == map[]
    ensures s.loop.Writing? ==>
              && Next(s, Wrote(true)).loop == Receiving && Next(s, Wrote(true)).conns == s.conns
              && var s' := Next(Next(s, Wrote(false)), Advance); s'.loop == Returned && s'.conns.m == map[]
  {
  }

  // ---------- Without interference ----------

  /** What the network does with one packet: whether a new connection can be dialled, and whether the write succeeds. */
  datatype Input = Input(src: string, reachable: bool, ok: bool)

  /** The packets, and then the end of the channel. */
  function Script(inputs: seq<Input>): seq<Event> {
    if inputs == [] then [Lost, Advance]
    else Turn(inputs[0].src, inputs[0].reachable, inputs[0].ok) + Script(inputs[1..])
  }

  /** Once everything is closed, nothing that comes down the channel matters. */
  lemma {:induction false} ClosedScript(s: State, inputs: seq<Input>)
    requires s.loop == Returned
    ensures Run(s, Script(inputs)) == s
    decreases |inputs|
  {
    if inputs == [] {
      LostCloses(s);
    } else {
      var p := inputs[0];
      RunConcat(s, Turn(p.src, p.reachable, p.ok), Script(inputs[1..]));
      RunTurn(s, p.src, p.reachable, p.ok);
      ClosedScript(s, inputs[1..]);
    }
  }

  lemma LostCloses(s: State)
    ensures Run(s, [Lost, Advance]) == Advanced(if s.loop == Receiving then s.(loop := Returning) else s)
  {
    assert [Lost, Advance][1..] == [Advance] && [Advance][1..] == [];
    var s1 := Next(s, Lost);
    assert Run(s, [Lost, Advance]) == Run(s1, [Advance]) == Run(Next(s1, Advance), []);
  }

  function Copies(r: Reader, n: nat): seq<Reader> {
    seq(n, _ => r)
  }

  class UdpHandler {
    const conns: UdpConns
    var readers: seq<Reader>
    ghost var written: seq<Reader>
    ghost var replied: seq<Reader>

    constructor ()
      ensures fresh(conns) && At(Receiving) == Init()
    {
      conns := new UdpConns();
      readers, written, replied := [], [], [];
    }

    /** The state of the machine while the loop stands there. */
    ghost function At(loop: Loop): State
      reads this, conns
    {
      State(conns.Value(), readers, loop, written, replied)
    }

    /** One turn of the loop, from the packet to its datagram. */
    method HandleWrite(p: Input) returns (failed: bool)
      modifies this, conns
      ensures Run(old(At(Receiving)), Turn(p.src, p.reachable, p.ok)) ==
                if failed then Advanced(At(Returning)) else At(Receiving)
      ensures failed <==> !p.ok || !(p.reachable || p.src in old(conns.m))
      ensures p.reachable || p.src in old(conns.m) ==>
                p.src in conns.m && written == old(written) + [Reader(p.src, conns.m[p.src])]
    {
      RunTurn(At(Receiving), p.src, p.reachable, p.ok);
      hide Run, Turn;
      var r := conns.Dial(p.src, p.reachable);
      if r.DialFailed? {
        return true;
      }
      if !r.exists_ {
        var l := conns.Len();
        if l <= MAX_CONNS {
          readers := readers + [Reader(p.src, r.conn)];
        }
      }
      written := written + [Reader(p.src, r.conn)];
      return !p.ok;
    }

    /** The loop over the packets of a channel, and the deferred closeAll. */
    method HandleUDP(inputs: seq<Input>)
      requires At(Receiving) == Init()
      modifies this, conns
      ensures At(Returned) == Run(Init(), Script(inputs))
    {
      hide Next;
      var i := 0;
      var failed := false;
      while i < |inputs| && !failed
        invariant i <= |inputs|
        invariant Run(Init(), Script(inputs)) ==
                  Run(if failed then Advanced(At(Returning)) else At(Receiving), Script(inputs[i..]))
      {
        var p := inputs[i];
        assert inputs[i..][1..] == inputs[i + 1..];
        RunConcat(At(Receiving), Turn(p.src, p.reachable, p.ok), Script(inputs[i + 1..]));
        failed := HandleWrite(p);
        i := i + 1;
      }
      ghost var closed := Advanced(At(Returning));
      assert Run(Init(), Script(inputs)) == closed by {
        if failed {
          ClosedScript(closed, inputs[i..]);
        } else {
          assert inputs[i..] == [];
          LostCloses(At(Receiving));
        }
      }
      hide Run, Script, Init;
      var _ := conns.CloseAll();
    }

    /** A reader: `replies` datagrams come back and are encoded, then a timeout or an error ends it. */
    method HandleRead(i: nat, replies: nat, loop: Loop)
      requires i < |readers|
      modifies this, conns
      ensures At(loop) == Run(old(At(loop)), seq(replies, _ => Reply(i)) + [Finish(i)])
      ensures replied == old(replied) + Copies(old(readers[i]), replies)
      ensures readers == old(readers)[..i] + old(readers)[i + 1..] && conns.m == old(conns.m) - {old(readers)[i].src}
    {
      var src := readers[i].src;
      for k := 0 to replies
        invariant readers == old(readers) && conns.Value() == old(conns.Value())
        invariant replied == old(replied) + Copies(old(readers[i]), k)
        invariant Run(old(At(loop)), seq(replies, _ => Reply(i)) + [Finish(i)])
          == Run(At(loop), seq(replies - k, _ => Reply(i)) + [Finish(i)])
      {
        ghost var rest := seq(replies - k, _ => Reply(i)) + [Finish(i)];
        assert rest[1..] == seq(replies - k - 1, _ => Reply(i)) + [Finish(i)];
        replied := replied + [readers[i]];
      }
      assert seq(0, _ => Reply(i)) + [Finish(i)] == [Finish(i)];
      assert Run(At(loop), [Finish(i)]) == Run(Next(At(loop), Finish(i)), []);
      conns.Remove(src);
      readers := readers[..i] + readers[i + 1..];
    }
  }
}
