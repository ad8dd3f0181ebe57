/** A byte stream over websocket messages: reads of any size see the messages' bytes in order, whatever their bounds. */
module WsStream {
  import opened Wrappers

  /**
   What the connection holds: bytes left over from the last message, and the messages still
   to come before the peer closes.
   */
  datatype Stream = Stream(buff: seq<byte>, incoming: seq<seq<byte>>)

  /** One Read into a destination of the given size: the bytes copied, or None for the error of ReadMessage. */
  function ReadStep(s: Stream, size: nat): (Stream, Option<seq<byte>>) {
    if s.buff == [] && s.incoming == [] then (s, None)
    else
      var src := if s.buff != [] then s.buff else s.incoming[0];
      var rest := if s.buff != [] then s.incoming else s.incoming[1..];
      if |src| > size then (Stream(src[size..], rest), Some(src[..size]))
      else (Stream([], rest), Some(src))
  }

  class WsConn {
    var buff: seq<byte>
    var incoming: seq<seq<byte>>

    function Value(): Stream
      reads this
    {
      Stream(buff, incoming)
    }

    constructor (messages: seq<seq<byte>>)
      ensures Value() == Stream([], messages)
    {
      buff, incoming := [], messages;
    }

    method Read(dst: array<byte>) returns (n: nat, ok: bool)
      modifies this, dst
      ensures var (s, r) := ReadStep(old(Value()), dst.Length);
              && Value() == s && ok == r.Some?
              && n <= dst.Length && dst[..n] == (if r.Some? then r.value else [])
      ensures dst[n..] == old(dst[n..])
    {
      var ldst := dst.Length;
      var src: seq<byte>;
      if |buff| > 0 {
        src := buff;
        buff := [];
      } else if incoming != [] {
        src := incoming[0];
        incoming := incoming[1..];
      } else {
        return 0, false;
      }
      if |src| > ldst {
        n := CopyInto(dst, src[..ldst]);
        buff := src[ldst..];
      } else {
        n := CopyInto(dst, src);
      }
      ok := true;
    }

    /** Go's copy, for a source that fits. */
    method CopyInto(dst: array<byte>, src: seq<byte>) returns (n: nat)
      requires |src| <= dst.Length
      modifies dst
      ensures n == |src| && dst[..n] == src && dst[n..] == old(dst[n..])
    {
      n := 0;
      while n < |src|
        invariant n <= |src| && dst[..n] == src[..n]
        invariant forall i | n <= i < dst.Length :: dst[i] == old(dst[i])
      {
        dst[n] := src[n];
        n := n + 1;
      }
    }
  }

  function Flatten(ms: seq<seq<byte>>): seq<byte> {
    if ms == [] then [] else ms[0] + Flatten(ms[1..])
  }

  /** Reads of the given sizes, one after the other; a failed read delivers nothing. */
  function ReadAll(s: Stream, sizes: seq<nat>): (Stream, seq<byte>)
    decreases |sizes|
  {
    if sizes == [] then (s, [])
    else
      var (s1, r) := ReadStep(s, sizes[0]);
      var (s2, more) := ReadAll(s1, sizes[1..]);
      (s2, (if r.Some? then r.value else []) + more)
  }

  lemma ReadConserves(s: Stream, size: nat)
    ensures var (s', r) := ReadStep(s, size);
            && (if r.Some? then r.value else []) + s'.buff + Flatten(s'.incoming) == s.buff + Flatten(s.incoming)
            && (r.None? <==> s.buff == [] && s.incoming == [])
            && (s'.incoming == s.incoming || (s.buff == [] && s.incoming != [] && s'.incoming == s.incoming[1..]))
            && (r.Some? ==> |r.value| <= size)
            && (s'.buff != [] ==> r.Some? && |r.value| == size)
  {
  }

  lemma Regroup(a: seq<byte>, b: seq<byte>, c: seq<byte>)
    ensures a + b + c == a + (b + c)
  {
  }

  /** Messages are taken from the front, in order. */
  ghost predicate TakenFromFront(before: Stream, after: Stream) {
    exists k: nat :: k <= |before.incoming| && after.incoming == before.incoming[k..]
  }

  lemma FrontStep(s: Stream, s1: Stream, s2: Stream)
    requires s1.incoming == s.incoming || (s.incoming != [] && s1.incoming == s.incoming[1..])
    requires TakenFromFront(s1, s2)
    ensures TakenFromFront(s, s2)
  {
    var k: nat :| k <= |s1.incoming| && s2.incoming == s1.incoming[k..];
    if s1.incoming != s.incoming {
      assert s2.incoming == s.incoming[k + 1..];
    }
  }

  /**
   Nothing is lost, doubled or reordered: what was delivered, what is left over and
   what is still to come always spell the whole stream; and messages are taken from
   the front only.
   */
  lemma {:induction false} StreamIsFaithful(s: Stream, sizes: seq<nat>)
    ensures var (s', delivered) := ReadAll(s, sizes);
            delivered + s'.buff + Flatten(s'.incoming) == s.buff + Flatten(s.incoming) && TakenFromFront(s, s')
    decreases |sizes|
  {
    if sizes == [] {
      assert s.incoming == s.incoming[0..];
      assert [] + s.buff == s.buff;
    } else {
      var (s1, r) := ReadStep(s, sizes[0]);
      var (s2, more) := ReadAll(s1, sizes[1..]);
      var first := if r.Some? then r.value else [];
      ReadConserves(s, sizes[0]);
      StreamIsFaithful(s1, sizes[1..]);
      hide ReadStep, Flatten;
      FrontStep(s, s1, s2);
      Regroup(first, more, s2.buff);
      Regroup(first, more + s2.buff, Flatten(s2.incoming));
      Regroup(first, s1.buff, Flatten(s1.incoming));
    }
  }

  /** Bytes and messages still to be read. */
  function Left(s: Stream): nat {
    |s.buff| + |Flatten(s.incoming)| + |s.incoming|
  }

  lemma ReadProgresses(s: Stream, size: nat)
    requires size > 0 && Left(s) > 0
    ensures Left(ReadStep(s, size).0) < Left(s)
  {
  }

  /** Enough reads of positive size deliver the whole stream, however the writer cut it into messages. */
  lemma {:induction false} DeliversEverything(s: Stream, sizes: seq<nat>)
    requires (forall i | 0 <= i < |sizes| :: sizes[i] > 0) && |sizes| >= Left(s)
    ensures ReadAll(s, sizes) == (Stream([], []), s.buff + Flatten(s.incoming))
    decreases |sizes|
  {
    if Left(s) == 0 {
      NothingLeft(sizes);
    } else {
      ReadProgresses(s, sizes[0]);
      ReadConserves(s, sizes[0]);
      var (s1, r) := ReadStep(s, sizes[0]);
      DeliversEverything(s1, sizes[1..]);
      Regroup(if r.Some? then r.value else [], s1.buff, Flatten(s1.incoming));
    }
  }

  lemma {:induction false} NothingLeft(sizes: seq<nat>)
    ensures ReadAll(Stream([], []), sizes) == (Stream([], []), [])
    decreases |sizes|
  {
    if sizes != [] {
      NothingLeft(sizes[1..]);
      assert [] + ReadAll(Stream([], []), sizes[1..]).1 == [];
    }
  }

  /** Write sends its bytes as one message. */
  function Write(sent: seq<seq<byte>>, b: seq<byte>): seq<seq<byte>> {
    sent + [b]
  }

  function WriteAll(sent: seq<seq<byte>>, chunks: seq<seq<byte>>): seq<seq<byte>>
    decreases |chunks|
  {
    if chunks == [] then sent else WriteAll(Write(sent, chunks[0]), chunks[1..])
  }

  lemma {:induction false} WritesInOrder(sent: seq<seq<byte>>, chunks: seq<seq<byte>>)
    ensures WriteAll(sent, chunks) == sent + chunks
    decreases |chunks|
  {
    if chunks != [] {
      WritesInOrder(sent + [chunks[0]], chunks[1..]);
    }
  }

  /** End to end: the reader gets the bytes the writer wrote, for any chunks written and any sizes read. */
  lemma EndToEnd(chunks: seq<seq<byte>>, sizes: seq<nat>)
    requires forall i | 0 <= i < |sizes| :: sizes[i] > 0
    requires |sizes| >= |Flatten(chunks)| + |chunks|
    ensures ReadAll(Stream([], WriteAll([], chunks)), sizes).1 == Flatten(chunks)
  {
    WritesInOrder([], chunks);
    assert [] + chunks == chunks;
    DeliversEverything(Stream([], chunks), sizes);
  }
}
