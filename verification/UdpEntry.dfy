/**
 The entry side of a UDP remote: a channel to the exit side, opened on demand over
 the current SSH connection and cached, and a task per channel that waits for that
 connection to end and then clears the cache. Opening and clearing hold the same
 mutex, so each is one step.
 */
module UdpEntry {
  import opened Wrappers

  /** A UDP channel, with the SSH connection it was opened over. */
  datatype Channel = Channel(id: nat, conn: nat)

  datatype GetError = NoSshConn | OpenFailed

  /**
   `entered` and `cleared` log the channels that entered and left the cache, with the
   connection whose task did it.
   */
  datatype Cache = Cache(
    outbound: Option<Channel>, pending: seq<nat>, ended: set<nat>,
    entered: seq<Channel>, cleared: seq<(nat, Channel)>)

  function Init(): Cache {
    Cache(None, [], {}, [], [])
  }

  /** `conn` is what getSSH answers, `opens` what opening a channel over it gives. */
  function Get(c: Cache, conn: Option<nat>, opens: Option<nat>): (Cache, Result<Channel, GetError>) {
    if c.outbound.Some? then (c, Ok(c.outbound.value))
    else if conn.None? then (c, Err(NoSshConn))
    else if opens.None? then (c, Err(OpenFailed))
    else
      var o := Channel(opens.value, conn.value);
      (c.(outbound := Some(o), pending := c.pending + [conn.value], entered := c.entered + [o]), Ok(o))
  }

  /** Task i wakes up, its connection having ended, and clears the cache, whatever is in it. */
  function Unset(c: Cache, i: nat): Cache
    requires i < |c.pending|
  {
    c.(outbound := None, pending := c.pending[..i] + c.pending[i + 1..],
       cleared := if c.outbound.Some? then c.cleared + [(c.pending[i], c.outbound.value)] else c.cleared)
  }

  /** Either nothing is cached and no task waits, or one task waits, for the cached channel's own connection. */
  ghost predicate Inv(c: Cache) {
    && c.pending == (if c.outbound.Some? then [c.outbound.value.conn] else [])
    && c.entered == Channels(c.cleared) + (if c.outbound.Some? then [c.outbound.value] else [])
    && forall i | 0 <= i < |c.cleared| :: c.cleared[i].0 == c.cleared[i].1.conn && c.cleared[i].0 in c.ended
  }

  function Channels(log: seq<(nat, Channel)>): seq<Channel> {
    seq(|log|, i requires 0 <= i < |log| => log[i].1)
  }

  datatype Event =
    | GetEvent(ssh: Option<nat>, opens: Option<nat>)
    | ConnEnds(ended: nat)
    | UnsetEvent(i: nat)      // may run once the task's connection has ended

  function Next(c: Cache, e: Event): Cache {
    match e
    case GetEvent(conn, opens) => Get(c, conn, opens).0
    case ConnEnds(conn) => c.(ended := c.ended + {conn})
    case UnsetEvent(i) => if i < |c.pending| && c.pending[i] in c.ended then Unset(c, i) else c
  }

  function Run(c: Cache, events: seq<Event>): Cache
    decreases |events|
  {
    if events == [] then c else Run(Next(c, events[0]), events[1..])
  }

  lemma InvStep(c: Cache, e: Event)
    requires Inv(c)
    ensures Inv(Next(c, e))
  {
    var c' := Next(c, e);
    if e.UnsetEvent? && c' != c {
      assert c'.entered == Channels(c'.cleared);
    }
  }

  lemma {:induction false} InvRun(c: Cache, events: seq<Event>)
    requires Inv(c)
    ensures Inv(Run(c, events))
    decreases |events|
  {
    if events != [] {
      InvStep(c, events[0]);
      InvRun(Next(c, events[0]), events[1..]);
    }
  }

  /**
   Over every run, whatever connections come and go: the channels opened are, in
   order, the ones cleared and then the cached one, and each was cleared by the task
   of its own connection, after that connection had ended. An old connection's task
   never clears a newer channel, and none is left uncleared but the last.
   */
  lemma ClearedByOwnConnection(events: seq<Event>)
    ensures var c := Run(Init(), events);
            && c.entered == Channels(c.cleared) + (if c.outbound.Some? then [c.outbound.value] else [])
            && (forall i | 0 <= i < |c.cleared| :: c.cleared[i].0 == c.cleared[i].1.conn && c.cleared[i].0 in c.ended)
            && |c.pending| == if c.outbound.Some? then 1 else 0
  {
    InvRun(Init(), events);
  }

  /** Once the cached channel's connection has ended, its task can always run, and a new channel can then be opened. */
  lemma StaleChannelIsReplaced(c: Cache, conn: nat, id: nat)
    requires Inv(c) && c.outbound.Some? && c.outbound.value.conn in c.ended
    ensures var c' := Run(c, [UnsetEvent(0), GetEvent(Some(conn), Some(id))]);
            c'.outbound == Some(Channel(id, conn)) && c'.pending == [conn]
  {
    var c1 := Next(c, UnsetEvent(0));
    assert c1.outbound == None && c1.pending == [];
    var events := [UnsetEvent(0), GetEvent(Some(conn), Some(id))];
    assert events[1..] == [GetEvent(Some(conn), Some(id))] && events[1..][1..] == [];
    assert Run(c, events) == Run(c1, events[1..]) == Run(Next(c1, events[1]), []);
  }

  /**
   What a caller gets: a channel exactly when one was cached or could be opened, the
   cached one first, over the connection it was given otherwise; and what it gets is
   what is cached then. Nothing is cached after an error.
   */
  lemma GetAnswers(c: Cache, conn: Option<nat>, opens: Option<nat>)
    ensures var (c', r) := Get(c, conn, opens);
            && (r.Ok? <==> c.outbound.Some? || (conn.Some? && opens.Some?))
            && (r.Ok? ==> c'.outbound == Some(r.value))
            && (c.outbound.Some? ==> r == Ok(c.outbound.value) && c' == c)
            && (c.outbound.None? && r.Ok? ==> r.value.conn == conn.value && r.value.id == opens.value)
            && (r.Err? ==> c' == c && c.outbound.None? && (r.error == NoSshConn <==> conn.None?))
  {
  }

  /** The connections that have ended are those whose end was seen on the run. */
  lemma {:induction false} EndedAre(c: Cache, events: seq<Event>)
    ensures Run(c, events).ended == c.ended + set e | e in events && e.ConnEnds? :: e.ended
    decreases |events|
  {
    if events != [] {
      EndedAre(Next(c, events[0]), events[1..]);
      assert events == [events[0]] + events[1..];
    }
  }

  /** A task does nothing before its connection has ended. */
  lemma NoEarlyUnset(c: Cache, i: nat)
    requires Inv(c)
    ensures Next(c, UnsetEvent(i)) != c ==>
              i == 0 && c.outbound.Some? && c.outbound.value.conn in c.ended && Next(c, UnsetEvent(i)).outbound.None?
  {
  }

  class UdpListener {
    var outbound: Option<Channel>
    /** The cache with the tasks under way, and the logs. */
    ghost var cache: Cache

    ghost predicate Valid()
      reads this
    {
      Inv(cache) && outbound == cache.outbound
    }

    constructor ()
      ensures Valid() && cache == Init()
    {
      outbound := None;
      cache := Init();
    }

    method GetUDPChan(conn: Option<nat>, opens: Option<nat>) returns (r: Result<Channel, GetError>)
      requires Valid()
      modifies this
      ensures Valid() && (cache, r) == Get(old(cache), conn, opens)
      ensures r.Ok? <==> old(outbound).Some? || (conn.Some? && opens.Some?)
      ensures old(outbound).Some? ==> r == Ok(old(outbound).value)
      ensures outbound == if r.Ok? then Some(r.value) else None
    {
      InvStep(cache, GetEvent(conn, opens));
      if outbound.Some? {
        return Ok(outbound.value);
      }
      if conn.None? {
        return Err(NoSshConn);
      }
      if opens.None? {
        return Err(OpenFailed);
      }
      var o := Channel(opens.value, conn.value);
      cache := Get(cache, conn, opens).0;
      outbound := Some(o);
      return Ok(o);
    }

    /** The end of a task: what it clears is the channel of the connection it waited for. */
    method UnsetUDPChan(ghost i: nat)
      requires Valid() && i < |cache.pending| && cache.pending[i] in cache.ended
      modifies this
      ensures Valid() && cache == Unset(old(cache), i)
      ensures outbound == None && old(outbound) == Some(old(cache).entered[|old(cache).entered| - 1])
      ensures old(outbound).value.conn == old(cache).pending[i]
    {
      InvStep(cache, UnsetEvent(i));
      cache := Unset(cache, i);
      outbound := None;
    }
  }
}
