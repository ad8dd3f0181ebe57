/** Deriving the private scalar of a key from random bytes, as Go 1.19's ecdsa.GenerateKey did. */
module FieldElement {
  import opened Wrappers
  import opened DetermRand

  function Pow2(k: nat): (p: nat)
    ensures p >= 1
  {
    if k == 0 then 1 else 2 * Pow2(k - 1)
  }

  /** big.Int.BitLen. */
  function BitLen(n: nat): nat {
    if n == 0 then 0 else 1 + BitLen(n / 2)
  }

  /** big.Int.SetBytes: big-endian. */
  function Value(b: seq<byte>): nat {
    if b == [] then 0 else 256 * Value(b[..|b| - 1]) + b[|b| - 1] as int
  }

  /** How many bytes are drawn: eight more than the order fills. */
  function DrawLength(order: nat): nat {
    BitLen(order) / 8 + 8
  }

  function Scalar(b: seq<byte>, order: nat): int
    requires order >= 2
  {
    Value(b) % (order - 1) + 1
  }

  /** The reader's error comes before the draw is complete. */
  predicate Fails(fault: Option<nat>, len: nat) {
    fault.Some? && fault.value < len
  }

  /**
   Draws the bytes, then reduces the big integer in place. `fault` is where the reader
   returns an error, if it does; the hash-chain reader never does.
   */
  method RandFieldElement(rand: Reader, fault: Option<nat>, order: nat) returns (res: Option<nat>)
    requires order >= 2
    modifies rand
    ensures res.None? <==> fault.Some? && fault.value < DrawLength(order)
    ensures res.Some? ==>
              && res.value == Scalar(Output(rand.h, old(rand.next), DrawLength(order)), order)
              && 1 <= res.value <= order - 1
              && rand.next == Chain(rand.h, old(rand.next), Cover(DrawLength(order)))
  {
    var b := new byte[DrawLength(order)];
    var ok := ReadFull(rand, fault, b);
    if !ok {
      return None;
    }
    var k := SetBytes(b);
    var n := order - 1;
    k := k % n;
    k := k + 1;
    return Some(k);
  }

  /** io.ReadFull: all of the buffer, or the reader's error. */
  method ReadFull(rand: Reader, fault: Option<nat>, b: array<byte>) returns (ok: bool)
    modifies rand, b
    ensures ok <==> !Fails(fault, b.Length)
    ensures ok ==>
              && b[..] == Output(rand.h, old(rand.next), b.Length)
              && rand.next == Chain(rand.h, old(rand.next), Cover(b.Length))
  {
    if Fails(fault, b.Length) {
      var part := new byte[fault.value];
      var _ := rand.Read(part);
      return false;
    }
    var n := rand.Read(b);
    return true;
  }

  method SetBytes(b: array<byte>) returns (k: nat)
    ensures k == Value(b[..])
  {
    k := 0;
    for i := 0 to b.Length
      invariant k == Value(b[..i])
    {
      k := 256 * k + b[i] as int;
      assert b[..i + 1][..i] == b[..i];
    }
    assert b[..b.Length] == b[..];
  }

  // ---------- Byte strings of one length are the numbers below a power of 256 ----------

  function ToBytes(v: nat, len: nat): (b: seq<byte>)
    requires v < Pow2(8 * len)
    ensures |b| == len && Value(b) == v
  {
    if len == 0 then []
    else
      PowStep(len);
      ToBytes(v / 256, len - 1) + [(v % 256) as byte]
  }

  lemma {:induction false} PowSum(a: nat, b: nat)
    ensures Pow2(a + b) == Pow2(a) * Pow2(b)
  {
    if a > 0 { PowSum(a - 1, b); }
  }

  lemma PowEight()
    ensures Pow2(8) == 256
  {
    assert Pow2(4) == 16;
  }

  lemma PowStep(len: nat)
    requires len > 0
    ensures Pow2(8 * len) == 256 * Pow2(8 * (len - 1))
  {
    hide Pow2;
    PowEight();
    PowSum(8, 8 * (len - 1));
  }

  lemma {:induction false} BytesOfValue(b: seq<byte>)
    ensures Value(b) < Pow2(8 * |b|) && ToBytes(Value(b), |b|) == b
  {
    if b != [] {
      var init := b[..|b| - 1];
      BytesOfValue(init);
      PowStep(|b|);
      assert Value(b) / 256 == Value(init) && Value(b) % 256 == b[|b| - 1] as int;
      assert b == init + [b[|b| - 1]];
    }
  }

  function Strings(len: nat): set<seq<byte>> {
    set v | 0 <= v < Pow2(8 * len) :: ToBytes(v, len)
  }

  lemma StringsAreAll(len: nat, b: seq<byte>)
    ensures b in Strings(len) <==> |b| == len
  {
    if |b| == len {
      BytesOfValue(b);
    }
  }

  /** Big-endian: what stands in front counts for more by a power of 256 for every byte behind it. */
  lemma {:induction false} ValueAppends(a: seq<byte>, b: seq<byte>)
    ensures Value(a + b) == Value(a) * Pow2(8 * |b|) + Value(b)
  {
    if b == [] {
      assert a + b == a;
    } else {
      var init, last := b[..|b| - 1], b[|b| - 1] as int;
      ValueAppends(a, init);
      assert (a + b)[..|a + b| - 1] == a + init;
      PowStep(|b|);
      assert Value(a + b) == 256 * Value(a + init) + last && Value(b) == 256 * Value(init) + last;
      hide Value, Pow2;
      MoveFactor(Value(a), Pow2(8 * |init|));
    }
  }

  lemma MoveFactor(a: nat, p: nat)
    ensures 256 * (a * p) == a * (256 * p)
  {
  }

  lemma OneByte(x: byte)
    ensures Value([x]) == x as int
  {
    assert [x][..0] == [];
  }

  /** BitLen is the number of binary digits. */
  lemma {:induction false} BitLenIs(n: nat)
    requires n > 0
    ensures BitLen(n) > 0 && Pow2(BitLen(n) - 1) <= n < Pow2(BitLen(n))
  {
    if n > 1 {
      BitLenIs(n / 2);
    }
  }

  /** The draw has from 57 to 64 bits more than the order. */
  lemma DrawLengthBounds(order: nat)
    ensures BitLen(order) + 57 <= 8 * DrawLength(order) <= BitLen(order) + 64
  {
  }

  /** The scalar is one more than what the drawn number leaves when divided by N - 1. */
  lemma ScalarIs(b: seq<byte>, order: nat) returns (q: nat)
    requires order >= 2
    ensures 1 <= Scalar(b, order) <= order - 1
    ensures Value(b) == q * (order - 1) + (Scalar(b, order) - 1)
  {
    q := Value(b) / (order - 1);
  }

  // ---------- How many strings give each scalar ----------

  function Preimages(len: nat, order: nat, k: int): set<seq<byte>>
    requires order >= 2
  {
    set b | b in Strings(len) && Scalar(b, order) == k
  }

  predicate HasResidue(v: int, m: nat, r: nat)
    requires m > 0
  {
    v % m == r
  }

  function Residues(total: nat, m: nat, r: nat): set<int>
    requires m > 0
  {
    set v: int | 0 <= v < total && HasResidue(v, m, r)
  }

  /** Of `total` numbers dealt out to `m` residues, residue `r` gets this many. */
  function Share(total: nat, m: nat, r: nat): nat
    requires m > 0
  {
    total / m + if r < total % m then 1 else 0
  }

  lemma ResiduesNext(x: nat, m: nat, r: nat)
    requires m > 0
    ensures Residues(x + 1, m, r) == if HasResidue(x, m, r) then Residues(x, m, r) + {x} else Residues(x, m, r)
    ensures x !in Residues(x, m, r)
  {
    hide HasResidue;
  }

  lemma ResiduesBelow(total: nat, m: nat, r: nat)
    requires m > 0
    ensures forall v: int | v in Residues(total, m, r) :: 0 <= v < total
    ensures Residues(0, m, r) == {}
  {
    hide HasResidue;
  }

  lemma {:induction false} ResidueCount(total: nat, m: nat, r: nat)
    requires r < m
    ensures |Residues(total, m, r)| == Share(total, m, r)
    ensures forall v: int | v in Residues(total, m, r) :: 0 <= v < total
  {
    ResiduesBelow(total, m, r);
    if total == 0 {
      DivUnique(0, m, 0, 0);
    } else {
      ResidueCount(total - 1, m, r);
      ShareNext(total - 1, m, r);
      ResiduesNext(total - 1, m, r);
      hide *;
    }
  }

  lemma ShareNext(x: nat, m: nat, r: nat)
    requires r < m
    ensures Share(x + 1, m, r) == Share(x, m, r) + if HasResidue(x, m, r) then 1 else 0
  {
    DivNext(x, m);
  }

  lemma DivNext(x: nat, m: nat)
    requires m > 0
    ensures if x % m == m - 1 then (x + 1) / m == x / m + 1 && (x + 1) % m == 0
            else (x + 1) / m == x / m && (x + 1) % m == x % m + 1
  {
    var q, r := x / m, x % m;
    assert x == q * m + r;
    if r == m - 1 {
      assert x + 1 == (q + 1) * m;
      DivUnique(x + 1, m, q + 1, 0);
    } else {
      DivUnique(x + 1, m, q, r + 1);
    }
  }

  lemma DivUnique(x: nat, m: nat, q: nat, r: nat)
    requires m > 0 && r < m && x == q * m + r
    ensures x / m == q && x % m == r
  {
    var q', r' := x / m, x % m;
    assert x == m * q' + r';
    MulAtLeast(m, q - q');
    MulAtLeast(m, q' - q);
    assert m * (q - q') == m * q - m * q';
    assert m * (q' - q) == m * q' - m * q;
  }

  lemma MulAtLeast(m: nat, d: int)
    ensures d >= 1 ==> m * d >= m
  {
  }

  /** Two sets matched one to one by a function and its inverse have the same size. */
  lemma {:induction false} MatchedCount(values: set<int>, strings: set<seq<byte>>, len: nat, bound: nat)
    requires bound <= Pow2(8 * len) && forall v: int | v in values :: 0 <= v < bound
    requires forall v: int | v in values :: ToBytes(v, len) in strings
    requires forall b | b in strings :: |b| == len && Value(b) in values
    ensures |values| == |strings|
    decreases bound
  {
    hide Pow2, ToBytes, Value;
    if bound == 0 {
      forall v: int ensures v !in values {
      }
      forall b: seq<byte> ensures b !in strings {
        assert b in strings ==> Value(b) in values;
      }
      assert |values| == 0 && |strings| == 0;
    } else {
      var v := bound - 1;
      if v in values {
        var b := ToBytes(v, len);
        forall c | c in strings - {b} ensures Value(c) in values - {v} {
          BytesOfValue(c);
        }
        forall u: int | u in values - {v} ensures ToBytes(u, len) in strings - {b} {
          assert Value(ToBytes(u, len)) == u;
        }
        MatchedCount(values - {v}, strings - {b}, len, v);
      } else {
        MatchedCount(values, strings, len, v);
      }
    }
  }

  lemma ScalarResidue(b: seq<byte>, order: nat, k: int)
    requires order >= 2 && 1 <= k
    ensures Scalar(b, order) == k <==> HasResidue(Value(b), order - 1, k - 1)
  {
  }

  lemma ResidueGivesString(v: nat, len: nat, order: nat, k: int)
    requires order >= 2 && 1 <= k && v in Residues(Pow2(8 * len), order - 1, k - 1)
    ensures ToBytes(v, len) in Preimages(len, order, k)
  {
    ScalarResidue(ToBytes(v, len), order, k);
    StringsAreAll(len, ToBytes(v, len));
  }

  lemma StringGivesResidue(b: seq<byte>, len: nat, order: nat, k: int)
    requires order >= 2 && 1 <= k && b in Preimages(len, order, k)
    ensures |b| == len && Value(b) in Residues(Pow2(8 * len), order - 1, k - 1)
  {
    StringsAreAll(len, b);
    BytesOfValue(b);
    ScalarResidue(b, order, k);
  }

  /** Of all byte strings of the drawn length, this many give scalar k. */
  lemma PreimageCount(len: nat, order: nat, k: int)
    requires order >= 2 && 1 <= k <= order - 1
    ensures |Preimages(len, order, k)| == Share(Pow2(8 * len), order - 1, k - 1)
  {
    hide *;
    var total, m := Pow2(8 * len), order - 1;
    var values, strings := Residues(total, m, k - 1), Preimages(len, order, k);
    ResidueCount(total, m, k - 1);
    forall v: int | v in values ensures ToBytes(v, len) in strings {
      ResidueGivesString(v, len, order, k);
    }
    forall b | b in strings ensures |b| == len && Value(b) in values {
      StringGivesResidue(b, len, order, k);
    }
    MatchedCount(values, strings, len, total);
  }

  lemma {:induction false} BelowPow2BitLen(n: nat)
    ensures n < Pow2(BitLen(n))
  {
    if n > 0 { BelowPow2BitLen(n / 2); }
  }

  /**
   Over all strings of the drawn length, any two scalars are hit nearly equally often:
   the counts differ by at most one, and none is below 2^57 (the extra 64 bits of
   Appendix B.4.1 of FIPS 186-4, less the seven that rounding the length may cost).
   */
  lemma NearlyUniform(order: nat, j: int, k: int)
    requires order >= 2 && 1 <= j <= order - 1 && 1 <= k <= order - 1
    ensures var len := DrawLength(order);
            var a, b := |Preimages(len, order, j)|, |Preimages(len, order, k)|;
            -1 <= a - b <= 1 && a >= Pow2(57)
  {
    var len := DrawLength(order);
    hide Pow2, Preimages;
    PreimageCount(len, order, j);
    PreimageCount(len, order, k);
    EnoughBits(order);
  }

  lemma SpareBits(order: nat) returns (spare: nat)
    ensures 8 * DrawLength(order) == BitLen(order) + spare && spare >= 57
  {
    spare := 8 * DrawLength(order) - BitLen(order);
  }

  lemma EnoughBits(order: nat)
    requires order >= 2
    ensures Pow2(8 * DrawLength(order)) / (order - 1) >= Pow2(57)
  {
    hide *;
    var bits := BitLen(order);
    var spare := SpareBits(order);
    BelowPow2BitLen(order);
    PowSum(bits, spare);
    PowSum(57, spare - 57);
    ProductBound(Pow2(57), 1, Pow2(57), Pow2(spare - 57));
    ProductBound(order - 1, Pow2(57), Pow2(bits), Pow2(spare));
    DivLower(Pow2(8 * DrawLength(order)), order - 1, Pow2(57));
  }

  lemma ProductBound(m: nat, p: nat, a: nat, b: nat)
    requires a >= m && b >= p
    ensures a * b >= m * p
  {
    assert a * b == m * p + (a - m) * b + m * (b - p);
  }

  lemma DivLower(x: nat, m: nat, p: nat)
    requires m > 0 && x >= m * p
    ensures x / m >= p
  {
    var q := x / m;
    assert x == m * q + x % m;
    assert m * (q + 1) == m * q + m;
    if q < p {
      ProductBound(m, q + 1, m, p);
    }
  }
}
