/** The deterministic random reader that keys are derived from: a chain of hashes, half of each being output. */
module DetermRand {
  import opened Wrappers

  /** SHA-512. Only the size of its result matters here. */
  type Hash = h: seq<byte> -> seq<byte> | Digests(h) witness (x: seq<byte>) => Zeros(DIGEST)

  const DIGEST := 64
  const BLOCK := 32
  const ITERATIONS := 2048

  ghost predicate Digests(h: seq<byte> -> seq<byte>) {
    forall x :: |h(x)| == DIGEST
  }

  /** The first half of the digest is the next state, the second half the output. */
  function Split(h: Hash, input: seq<byte>): (r: (seq<byte>, seq<byte>))
    ensures |r.0| == BLOCK && |r.1| == BLOCK
  {
    var nextout := h(input);
    (nextout[..DIGEST / 2], nextout[DIGEST / 2..])
  }

  function Zeros(n: nat): (r: seq<byte>)
    ensures |r| == n
  {
    seq(n, _ => 0)
  }

  /** The state after `k` hashes. */
  function Chain(h: Hash, state: seq<byte>, k: nat): seq<byte>
    decreases k
  {
    if k == 0 then state else Chain(h, Split(h, state).0, k - 1)
  }

  /** The first `k` output blocks, joined. */
  function Blocks(h: Hash, state: seq<byte>, k: nat): (r: seq<byte>)
    ensures |r| == k * BLOCK
    decreases k
  {
    if k == 0 then [] else Split(h, state).1 + Blocks(h, Split(h, state).0, k - 1)
  }

  /** How many blocks cover `len` bytes. */
  function Cover(len: nat): (k: nat)
    ensures len <= k * BLOCK < len + BLOCK
  {
    (len + BLOCK - 1) / BLOCK
  }

  function Output(h: Hash, state: seq<byte>, len: nat): (r: seq<byte>)
    ensures |r| == len
  {
    Blocks(h, state, Cover(len))[..len]
  }

  /** The bytes written to a buffer of `len` bytes after `k` blocks. */
  ghost predicate Filled(h: Hash, state: seq<byte>, k: nat, len: nat, bytes: seq<byte>) {
    && |bytes| == (if k * BLOCK <= len then k * BLOCK else len)
    && (|bytes| == len ==> k == Cover(len))
    && bytes == Blocks(h, state, k)[..|bytes|]
  }

  lemma NothingFilled(h: Hash, state: seq<byte>, len: nat)
    ensures Filled(h, state, 0, len, []) && Chain(h, state, 0) == state
  {
  }

  lemma FillsOn(h: Hash, state: seq<byte>, k: nat, len: nat, bytes: seq<byte>, more: seq<byte>)
    requires Filled(h, state, k, len, bytes) && |bytes| < len
    requires more <= Split(h, Chain(h, state, k)).1 && |more| == if BLOCK <= len - |bytes| then BLOCK else len - |bytes|
    ensures Filled(h, state, k + 1, len, bytes + more)
  {
    ChainStep(h, state, k);
    hide Chain, Blocks;
  }

  lemma AllFilled(h: Hash, state: seq<byte>, k: nat, len: nat, bytes: seq<byte>)
    requires Filled(h, state, k, len, bytes) && |bytes| == len
    ensures bytes == Output(h, state, len) && k == Cover(len)
  {
  }

  class Reader {
    const h: Hash
    var next: seq<byte>
    var out: seq<byte>

    /** Strengthens the seed by hashing it over and over. */
    constructor (h: Hash, seed: seq<byte>)
      ensures this.h == h && next == Chain(h, seed, 2048)
    {
      var n, o := seed, [];
      for i := 0 to ITERATIONS
        invariant Chain(h, n, ITERATIONS - i) == Chain(h, seed, ITERATIONS)
      {
        var r := Split(h, n);
        n, o := r.0, r.1;
      }
      this.h, next, out := h, n, o;
    }

    /** Fills the whole buffer with the truncated block chain, and moves on by as many blocks as were used. */
    method Read(b: array<byte>) returns (n: nat)
      modifies this, b
      ensures n == b.Length && b[..] == Output(h, old(next), b.Length)
      ensures next == Chain(h, old(next), Cover(b.Length))
    {
      n := 0;
      ghost var k := 0;
      NothingFilled(h, next, b.Length);
      hide Filled, Chain, Blocks;
      while n < b.Length
        invariant n <= b.Length && next == Chain(h, old(next), k)
        invariant Filled(h, old(next), k, b.Length, b[..n])
      {
        var r := Split(h, next);
        ChainStep(h, old(next), k);
        ghost var before := b[..n];
        var m := CopyAt(b, n, r.1);
        FillsOn(h, old(next), k, b.Length, before, r.1[..m]);
        assert b[..n + m] == before + r.1[..m];
        n := n + m;
        k := k + 1;
        next := r.0;
      }
      AllFilled(h, old(next), k, b.Length, b[..n]);
      assert b[..n] == b[..];
    }

    /** Go's copy into b[at:]: as much of the source as fits. */
    method CopyAt(b: array<byte>, at: nat, src: seq<byte>) returns (m: nat)
      requires at <= b.Length
      modifies b
      ensures m == (if |src| <= b.Length - at then |src| else b.Length - at)
      ensures b[..at] == old(b[..at]) && b[at..at + m] == src[..m] && b[at + m..] == old(b[at + m..])
    {
      m := 0;
      while m < |src| && at + m < b.Length
        invariant m <= |src| && at + m <= b.Length
        invariant b[at..at + m] == src[..m]
        invariant forall i | 0 <= i < b.Length && !(at <= i < at + m) :: b[i] == old(b[i])
      {
        b[at + m] := src[m];
        m := m + 1;
      }
    }
  }

  lemma {:induction false} ChainStep(h: Hash, state: seq<byte>, k: nat)
    ensures Chain(h, state, k + 1) == Split(h, Chain(h, state, k)).0
    ensures Blocks(h, state, k + 1) == Blocks(h, state, k) + Split(h, Chain(h, state, k)).1
    decreases k
  {
    if k > 0 {
      ChainStep(h, Split(h, state).0, k - 1);
    }
  }

  /** The state after k + 1 hashes is the first half of the digest of the one after k; it starts as the seed. */
  lemma ChainIs(h: Hash, state: seq<byte>, k: nat)
    ensures Chain(h, state, 0) == state && Chain(h, state, k + 1) == h(Chain(h, state, k))[..32]
  {
    ChainStep(h, state, k);
  }

  lemma {:induction false} BlockByte(h: Hash, state: seq<byte>, k: nat, i: nat)
    requires i < k * BLOCK
    ensures Blocks(h, state, k)[i] == h(Chain(h, state, i / BLOCK))[BLOCK + i % BLOCK]
    decreases k
  {
    if i < BLOCK {
      assert Chain(h, state, i / BLOCK) == state;
    } else {
      BlockByte(h, Split(h, state).0, k - 1, i - BLOCK);
      assert (i - BLOCK) / BLOCK == i / BLOCK - 1 && (i - BLOCK) % BLOCK == i % BLOCK;
    }
  }

  /** Byte i of what is read lies in the second half of the digest of the state after i / 32 hashes, at place i % 32. */
  lemma ByteAt(h: Hash, state: seq<byte>, len: nat, i: nat)
    requires i < len
    ensures Output(h, state, len)[i] == h(Chain(h, state, i / 32))[32 + i % 32]
  {
    BlockByte(h, state, Cover(len), i);
  }

  lemma {:induction false} Splits(h: Hash, state: seq<byte>, j: nat, k: nat)
    ensures Chain(h, state, j + k) == Chain(h, Chain(h, state, j), k)
    ensures Blocks(h, state, j + k) == Blocks(h, state, j) + Blocks(h, Chain(h, state, j), k)
    decreases j
  {
    if j > 0 {
      Splits(h, Split(h, state).0, j - 1, k);
    }
  }

  /** Two reads are as good as one: the same bytes and the same state afterwards. */
  ghost predicate SameAsOne(h: Hash, state: seq<byte>, a: nat, b: nat) {
    var middle := Chain(h, state, Cover(a));
    && Output(h, state, a) + Output(h, middle, b) == Output(h, state, a + b)
    && Chain(h, middle, Cover(b)) == Chain(h, state, Cover(a + b))
  }

  lemma AlignedReadsJoin(h: Hash, state: seq<byte>, a: nat, b: nat)
    requires a % BLOCK == 0 || b == 0
    ensures SameAsOne(h, state, a, b)
  {
    if b > 0 {
      assert Cover(a) * BLOCK == a && Cover(a + b) == Cover(a) + Cover(b);
      Splits(h, state, Cover(a), Cover(b));
    }
  }

  function Repeat(c: byte): (r: seq<byte>)
    ensures |r| == BLOCK
  {
    seq(BLOCK, _ => c)
  }

  function Plus(c: byte, k: nat): byte {
    ((c as int + k) % 256) as byte
  }

  /** A hash that counts: the output repeats the state's first byte, the next state repeats the byte after it. */
  function Counting(x: seq<byte>): (r: seq<byte>)
    ensures |r| == DIGEST
  {
    var c := if x == [] then 0 else x[0];
    Repeat(Plus(c, 1)) + Repeat(c)
  }

  function CountingHash(): (h: Hash)
    ensures forall c :: h(Repeat(c)) == Repeat(Plus(c, 1)) + Repeat(c)
  {
    Counting
  }

  lemma CountingSplit(c: byte)
    ensures Split(CountingHash(), Repeat(c)) == (Repeat(Plus(c, 1)), Repeat(c))
  {
    hide CountingHash, Repeat, Plus;
  }

  lemma {:induction false} CountingBlocks(c: byte, k: nat, i: nat)
    requires i < k * BLOCK
    ensures Blocks(CountingHash(), Repeat(c), k)[i] == Plus(c, i / BLOCK)
    decreases k
  {
    hide CountingHash, Repeat, Plus;
    CountingSplit(c);
    var rest := Blocks(CountingHash(), Repeat(Plus(c, 1)), k - 1);
    assert Blocks(CountingHash(), Repeat(c), k) == Repeat(c) + rest;
    if i < BLOCK {
      RepeatAt(c, i);
    } else {
      CountingBlocks(Plus(c, 1), k - 1, i - BLOCK);
      BlockBefore(i);
      PlusPlus(c, 1, i / BLOCK - 1);
    }
  }

  lemma RepeatAt(c: byte, i: nat)
    requires i < BLOCK
    ensures Repeat(c)[i] == c == Plus(c, i / BLOCK)
  {
  }

  lemma BlockBefore(i: nat)
    requires i >= BLOCK
    ensures (i - BLOCK) / BLOCK == i / BLOCK - 1
  {
  }

  lemma PlusPlus(c: byte, j: nat, k: nat)
    ensures Plus(Plus(c, j), k) == Plus(c, j + k)
  {
  }

  lemma {:induction false} CountingChain(c: byte, k: nat)
    ensures Chain(CountingHash(), Repeat(c), k) == Repeat(Plus(c, k))
    decreases k
  {
    hide CountingHash, Repeat;
    CountingSplit(c);
    if k > 0 {
      CountingChain(Plus(c, 1), k - 1);
      PlusPlus(c, 1, k - 1);
    } else {
      assert Plus(c, 0) == c;
    }
  }

  /** Otherwise the rest of a block is thrown away between the reads, and some hash shows it. */
  lemma UnalignedReadsDiffer(a: nat, b: nat)
    requires a % BLOCK != 0 && b > 0
    ensures !SameAsOne(CountingHash(), Repeat(0), a, b)
  {
    var j, h := Cover(a), CountingHash();
    var middle := Repeat(Plus(0, j));
    CountingChain(0, j);
    CountingBlocks(Plus(0, j), Cover(b), 0);
    CountingBlocks(0, Cover(a + b), a);
    OutputAt(h, middle, b, 0);
    OutputAt(h, Repeat(0), a + b, a);
    NextByteDiffers(a);
    PlusPlus(0, j, 0);
    hide CountingHash, Repeat, Blocks, Chain, Output, Plus;
    assert (Output(h, Repeat(0), a) + Output(h, middle, b))[a] == Output(h, middle, b)[0];
  }

  lemma OutputAt(h: Hash, state: seq<byte>, len: nat, i: nat)
    requires i < len
    ensures Output(h, state, len)[i] == Blocks(h, state, Cover(len))[i]
  {
  }

  /** Inside a block, the block that follows in a new read is not the one that is being read. */
  lemma NextByteDiffers(a: nat)
    requires a % BLOCK != 0
    ensures Plus(0, Cover(a)) != Plus(0, a / BLOCK)
  {
    assert Cover(a) == a / BLOCK + 1;
  }

  /**
   Reading in two steps gives what reading at once gives, for every hash and state, exactly
   when the first step ends on a block or the second is empty.
   */
  lemma SplitReads(a: nat, b: nat)
    ensures (forall h: Hash, state :: SameAsOne(h, state, a, b)) <==> a % BLOCK == 0 || b == 0
  {
    if a % BLOCK == 0 || b == 0 {
      forall h: Hash, state ensures SameAsOne(h, state, a, b) {
        AlignedReadsJoin(h, state, a, b);
      }
    } else {
      UnalignedReadsDiffer(a, b);
      assert !SameAsOne(CountingHash(), Repeat(0), a, b);
    }
  }
}
