/** What a port is, in numbers: what strconv.Atoi makes of a text, and which texts and records carry a port. */
module RemotePorts {
  import opened RemoteGrammar
  import opened RemoteRoundTrip

  // ---------- Decimal numbers ----------

  function Digit(d: nat): char
    requires d < 10
  {
    ['0', '1', '2', '3', '4', '5', '6', '7', '8', '9'][d]
  }

  /** The usual way to write a number. */
  function Decimal(n: nat): string {
    if n < 10 then [Digit(n)] else Decimal(n / 10) + [Digit(n % 10)]
  }

  /** A number is read back from its decimal digits. */
  lemma {:induction false} DecimalValue(n: nat)
    ensures Decimal(n) != [] && Digits(Decimal(n)) && DigitsValue(Decimal(n)) == n
  {
    if n >= 10 {
      DecimalValue(n / 10);
      var s := Decimal(n);
      assert s[..|s| - 1] == Decimal(n / 10);
    } else {
      assert Decimal(n)[..0] == [];
    }
  }

  lemma ShorterRun(s: string, n: nat)
    requires n <= |s| && Digits(s[..n]) && (n < |s| ==> !('0' <= s[n] <= '9'))
    ensures DigitRun(s) == n
  {
    var m := DigitRun(s);
    assert forall i | 0 <= i < n :: s[..n][i] == s[i];
    assert forall i | 0 <= i < m :: s[..m][i] == s[i];
  }

  /** Digits, with or without a sign: the value, clamped to 64 bits. */
  lemma AtoiReads(d: string)
    requires d != [] && Digits(d)
    ensures var v: int := DigitsValue(d);
            && Atoi(d) == (if v <= 0x7fff_ffff_ffff_ffff then (v, true) else (0x7fff_ffff_ffff_ffff, false))
            && Atoi("+" + d) == Atoi(d)
            && Atoi("-" + d) == (if v <= 0x8000_0000_0000_0000 then (-v, true) else (-0x8000_0000_0000_0000, false))
  {
    hide DigitsValue, DigitRun;
    assert d[..|d|] == d;
    ShorterRun(d, |d|);
    assert ("+" + d)[1..] == d && ("-" + d)[1..] == d;
    assert '0' <= d[0] <= '9';
    hide Digits;
  }

  /** Anything behind the digits is an error; the value is 0, unless the digits alone are too large for 64 bits. */
  lemma AtoiJunk(d: string, junk: string)
    requires d != [] && Digits(d) && junk != [] && !('0' <= junk[0] <= '9')
    ensures Atoi(d + junk) == (if DigitsValue(d) > 0xffff_ffff_ffff_ffff then 0x7fff_ffff_ffff_ffff else 0, false)
  {
    var s := d + junk;
    assert s[..|d|] == d;
    ShorterRun(s, |d|);
    assert s[0] == d[0] && '0' <= d[0] <= '9';
    assert !Digits(s) by { assert s[|d|] == junk[0]; }
    hide DigitsValue, DigitRun, Digits;
  }

  // ---------- Ports ----------

  /** Without a plus sign in front, if there is one. */
  function Unsigned(s: string): string {
    if s != [] && s[0] == '+' then s[1..] else s
  }

  /** The text is a number from 1 to 65535 in digits, perhaps with a plus sign. */
  predicate ReadsAsPort(s: string) {
    var d := Unsigned(s);
    d != [] && Digits(d) && 1 <= DigitsValue(d) <= 65535
  }

  lemma SignedText(s: string)
    requires s != []
    ensures s[0] == '+' ==> s == "+" + s[1..]
    ensures s[0] == '-' ==> s == "-" + s[1..] && !Digits(s)
  {
    assert Digits(s) ==> s[0] >= '0';
  }

  /** A text is a port exactly when it reads as a number from 1 to 65535; a minus sign never makes one. */
  lemma PortIff(s: string)
    ensures IsPort(s) <==> ReadsAsPort(s)
    ensures s != [] && s[0] == '-' ==> !IsPort(s)
  {
    if s == [] {
      NoPortIsEmpty();
    } else {
      SignedText(s);
      var d := if s[0] == '+' || s[0] == '-' then s[1..] else s;
      if d != [] && Digits(d) {
        AtoiReads(d);
        hide Atoi, DigitsValue, Digits;
      } else {
        NoDigitsNoPort(s, d);
        hide IsPort, DigitsValue, Digits;
      }
    }
  }

  lemma NoDigitsNoPort(s: string, d: string)
    requires s != [] && d == (if s[0] == '+' || s[0] == '-' then s[1..] else s) && (d == [] || !Digits(d))
    ensures !IsPort(s)
  {
    hide DigitsValue, DigitRun, Digits;
  }

  /** In particular the decimal text of a number is a port exactly for the numbers from 1 to 65535. */
  lemma DecimalPort(n: nat)
    ensures IsPort(Decimal(n)) <==> 1 <= n <= 65535
  {
    DecimalValue(n);
    PortIff(Decimal(n));
    assert Decimal(n)[0] != '+';
    hide IsPort, Decimal, DigitsValue;
  }

  /**
   Every record the decoder returns carries numbers from 1 to 65535 in its ports, which
   only socks and stdio leave open.
   */
  lemma DecodedPorts(lib: Library, s: string)
    requires Sound(lib) && Decode(lib, s).Ok?
    ensures var r := Decode(lib, s).value;
            && (ReadsAsPort(r.localPort) || (r.stdio && r.localPort == ""))
            && (ReadsAsPort(r.remotePort) || ((r.socks || r.stdio) && r.remotePort == ""))
  {
    DecodedShape(lib, s);
    var r := Decode(lib, s).value;
    PortIff(r.localPort);
    PortIff(r.remotePort);
    hide Decode, IsPort, ReadsAsPort;
  }
}
