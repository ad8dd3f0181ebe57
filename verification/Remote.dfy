/** The remote grammar: the tokenizer, the decoder, the printer, and the exit side's reading of it. */
module RemoteGrammar {
  import opened Wrappers

  datatype Remote = Remote(
    localHost: string, localPort: string, localProto: string,
    remoteHost: string, remotePort: string, remoteProto: string,
    socks: bool, reverse: bool, stdio: bool)

  datatype DecodeError =
    | InvalidRemote | MissingPorts | InvalidHost | CrossProtocol | SocksNotTcp | StdioReversed

  /** What the decoder asks of the Go library: whether url.Parse takes "//" + s, and unicode.ToLower. */
  datatype Library = Library(isHost: string -> bool, lowerRune: char -> char)

  /** Lower-casing is the usual one on ASCII, makes no delimiter, and the two default hosts parse. */
  ghost predicate Sound(lib: Library) {
    && (forall c | c as int < 128 :: lib.lowerRune(c) == if 'A' <= c <= 'Z' then c + 32 as char else c)
    && (forall c :: Delimiter(lib.lowerRune(c)) ==> Delimiter(c))
    && lib.isHost("0.0.0.0") && lib.isHost("127.0.0.1")
  }

  function Lower(lib: Library, s: string): (r: string)
    ensures |r| == |s|
  {
    seq(|s|, i requires 0 <= i < |s| => lib.lowerRune(s[i]))
  }

  // ---------- The tokenizer: all leftmost matches of (\[[^\[\]]+\]|[^\[\]:]+):? ----------

  predicate Delimiter(c: char) {
    c == '[' || c == ']' || c == ':'
  }

  predicate Bracket(c: char) {
    c == '[' || c == ']'
  }

  /** The length of the longest prefix without brackets, and without colons unless they are allowed. */
  function RunLength(s: string, colons: bool): (n: nat)
    ensures n <= |s|
    ensures forall i | 0 <= i < n :: if colons then !Bracket(s[i]) else !Delimiter(s[i])
    ensures n < |s| ==> if colons then Bracket(s[n]) else Delimiter(s[n])
  {
    if s == [] || (if colons then Bracket(s[0]) else Delimiter(s[0])) then 0
    else 1 + RunLength(s[1..], colons)
  }

  /** The length of the token that starts the string, or 0 if none does. */
  function TokenLength(s: string): (n: nat)
    ensures n <= |s|
  {
    if s == [] then 0
    else if s[0] == '[' then
      var m := RunLength(s[1..], true);
      if m > 0 && 1 + m < |s| && s[1 + m] == ']' then m + 2 else 0
    else RunLength(s, false)
  }

  function Tokens(s: string): seq<string>
    decreases |s|
  {
    if s == [] then []
    else
      var n := TokenLength(s);
      if n == 0 then Tokens(s[1..])
      else
        var rest := s[n..];
        [s[..n]] + Tokens(if rest != [] && rest[0] == ':' then rest[1..] else rest)
  }

  /** A bracketed run, or a run without delimiters. */
  predicate IsToken(t: string) {
    || (t != [] && forall i | 0 <= i < |t| :: !Delimiter(t[i]))
    || (|t| >= 3 && t[0] == '[' && t[|t| - 1] == ']' && forall i | 1 <= i < |t| - 1 :: !Bracket(t[i]))
  }

  function Join(ts: seq<string>): string {
    if ts == [] then [] else if |ts| == 1 then ts[0] else ts[0] + ":" + Join(ts[1..])
  }

  lemma {:induction false} TokensAreTokens(s: string)
    ensures forall t | t in Tokens(s) :: IsToken(t)
    decreases |s|
  {
    if s != [] {
      var n := TokenLength(s);
      if n == 0 {
        TokensAreTokens(s[1..]);
      } else {
        var rest := s[n..];
        TokensAreTokens(if rest != [] && rest[0] == ':' then rest[1..] else rest);
        if s[0] == '[' {
          assert forall i | 1 <= i < n - 1 :: s[i] == s[1..][i - 1];
        }
        assert IsToken(s[..n]);
      }
    }
  }

  lemma {:induction false} RunLengthUpTo(s: string, colons: bool, n: nat)
    requires n <= |s| && forall i | 0 <= i < n :: if colons then !Bracket(s[i]) else !Delimiter(s[i])
    requires n < |s| ==> if colons then Bracket(s[n]) else Delimiter(s[n])
    ensures RunLength(s, colons) == n
  {
    var m := RunLength(s, colons);
    if m < n { assert false; }
    if m > n { assert false; }
  }

  lemma TokenEndsAtColon(t: string, rest: string)
    requires IsToken(t) && (rest != [] ==> rest[0] == ':')
    ensures TokenLength(t + rest) == |t|
  {
    var s := t + rest;
    if t[0] == '[' {
      RunLengthUpTo(s[1..], true, |t| - 2);
    } else {
      RunLengthUpTo(s, false, |t|);
    }
  }

  lemma FirstToken(t: string, rest: string)
    requires IsToken(t)
    ensures Tokens(t + ":" + rest) == [t] + Tokens(rest)
    ensures Tokens(t) == [t]
  {
    var s := t + ":" + rest;
    TokenEndsAtColon(t, ":" + rest);
    assert s == t + (":" + rest) && s[..|t|] == t && s[|t|..] == ":" + rest;
    TokenEndsAtColon(t, "");
    assert t + "" == t && t[..|t|] == t && t[|t|..] == [];
  }

  /** The scanner splits a colon-joined list of tokens back into exactly those tokens. */
  lemma {:induction false} SplitJoin(ts: seq<string>)
    requires forall t | t in ts :: IsToken(t)
    ensures Tokens(Join(ts)) == ts
  {
    if ts != [] {
      SplitJoin(ts[1..]);
      FirstToken(ts[0], Join(ts[1..]));
    }
  }

  // ---------- Ports and protocols ----------

  predicate Digits(s: string) {
    forall i | 0 <= i < |s| :: '0' <= s[i] <= '9'
  }

  function DigitsValue(s: string): nat
    requires Digits(s)
  {
    if s == [] then 0 else 10 * DigitsValue(s[..|s| - 1]) + (s[|s| - 1] as int - '0' as int)
  }

  /** The length of the digits the string starts with. */
  function DigitRun(s: string): (n: nat)
    ensures n <= |s| && Digits(s[..n])
    ensures n < |s| ==> !('0' <= s[n] <= '9')
  {
    if s == [] || !('0' <= s[0] <= '9') then 0
    else
      var m := DigitRun(s[1..]);
      assert s[..1 + m] == [s[0]] + s[1..][..m];
      1 + m
  }

  const MAX_UINT64 := 0xffff_ffff_ffff_ffff
  const MAX_INT64 := 0x7fff_ffff_ffff_ffff
  const MIN_INT64 := -0x8000_0000_0000_0000

  /**
   strconv.Atoi on a 64-bit platform: the value returned and whether there was no error.
   Digits are read from the left, so a value out of range is found before the junk
   behind it, and clamped.
   */
  function Atoi(s: string): (int, bool) {
    var signed := s != [] && (s[0] == '+' || s[0] == '-');
    var digits := if signed then s[1..] else s;
    var negative := signed && s[0] == '-';
    if DigitsValue(digits[..DigitRun(digits)]) > MAX_UINT64 then (if negative then MIN_INT64 else MAX_INT64, false)
    else if digits == [] || !Digits(digits) then (0, false)
    else
      var value: int := DigitsValue(digits);
      var n := if negative then -value else value;
      if n > MAX_INT64 then (MAX_INT64, false)
      else if n < MIN_INT64 then (MIN_INT64, false)
      else (n, true)
  }

  /** Plain digits in range are read as they stand. */
  lemma AtoiDigits(s: string)
    requires s != [] && Digits(s) && DigitsValue(s) <= MAX_INT64
    ensures Atoi(s) == (DigitsValue(s), true)
  {
    assert '0' <= s[0] <= '9';
    assert DigitRun(s) == |s|;
    assert s[..|s|] == s;
    hide DigitsValue, DigitRun;
  }

  predicate IsPort(s: string) {
    var (n, ok) := Atoi(s);
    ok && 0 < n <= 65535
  }

  function AsciiLower(c: char): char {
    if 'A' <= c <= 'Z' then c + 32 as char else c
  }

  /** "tcp" or "udp", in any case. */
  predicate IsProto(p: string) {
    |p| == 3 && var q := [AsciiLower(p[0]), AsciiLower(p[1]), AsciiLower(p[2])]; q == "tcp" || q == "udp"
  }

  /** The text ends in "/tcp" or "/udp", in any case. */
  predicate HasProto(s: string) {
    |s| >= 4 && s[|s| - 4] == '/' && IsProto(s[|s| - 3..])
  }

  /** Splits the protocol off, as written, and lower-cases what is left; without a protocol nothing changes. */
  function L4Proto(lib: Library, s: string): (string, string) {
    if HasProto(s) then (Lower(lib, s[..|s| - 4]), s[|s| - 3..]) else (s, "")
  }

  // ---------- The decoder ----------

  /** One turn of the loop, for part `i` of `parts`. */
  function Fill(lib: Library, parts: seq<string>, i: nat, r: Remote): Result<Remote, DecodeError>
    requires i < |parts|
  {
    if i == |parts| - 1 && parts[i] == "socks" then Ok(r.(socks := true))
    else if i == 0 && parts[i] == "stdio" then Ok(r.(stdio := true))
    else
      var (p, proto) := L4Proto(lib, parts[i]);
      Place(lib, NoteProto(r, proto), p)
  }

  /** The first protocol seen belongs to the remote side while its port is still open, the next to the local side. */
  function NoteProto(r: Remote, proto: string): Remote {
    if proto == "" then r
    else if r.remotePort == "" then r.(remoteProto := proto)
    else if r.localProto == "" then r.(localProto := proto)
    else r
  }

  /** Files a part under the field its form and the fields already set call for. */
  function Place(lib: Library, r: Remote, p: string): Result<Remote, DecodeError> {
    if IsPort(p) then
      Ok((if !r.socks && r.remotePort == "" then r.(remotePort := p) else r).(localPort := p))
    else if !r.socks && r.remotePort == "" && r.localPort == "" then Err(MissingPorts)
    else if !lib.isHost(p) then Err(InvalidHost)
    else if !r.socks && r.remoteHost == "" then Ok(r.(remoteHost := p))
    else Ok(r.(localHost := p))
  }

  /** The loop from part `n - 1` down to part 0. */
  function FillDown(lib: Library, parts: seq<string>, n: nat, r: Remote): Result<Remote, DecodeError>
    requires n <= |parts|
  {
    if n == 0 then Ok(r)
    else
      match Fill(lib, parts, n - 1, r)
      case Ok(r') => FillDown(lib, parts, n - 1, r')
      case Err(e) => Err(e)
  }

  /** Defaults, then the checks on the whole. */
  function Finish(r: Remote): Result<Remote, DecodeError> {
    var r1 :=
      if r.socks then
        r.(localHost := if r.localHost == "" then "127.0.0.1" else r.localHost,
           localPort := if r.localPort == "" then "1080" else r.localPort)
      else
        r.(localHost := if r.localHost == "" then "0.0.0.0" else r.localHost,
           remoteHost := if r.remoteHost == "" then "127.0.0.1" else r.remoteHost);
    var r2 := if r1.remoteProto == "" then r1.(remoteProto := "tcp") else r1;
    var r3 := if r2.localProto == "" then r2.(localProto := r2.remoteProto) else r2;
    if r3.localProto != r3.remoteProto then Err(CrossProtocol)
    else if r3.socks && r3.remoteProto != "tcp" then Err(SocksNotTcp)
    else if r3.stdio && r3.reverse then Err(StdioReversed)
    else Ok(r3)
  }

  function Blank(reverse: bool): Remote {
    Remote("", "", "", "", "", "", false, reverse, false)
  }

  function DecodeTokens(lib: Library, parts: seq<string>, reverse: bool): Result<Remote, DecodeError> {
    if |parts| == 0 || |parts| >= 5 then Err(InvalidRemote)
    else
      match FillDown(lib, parts, |parts|, Blank(reverse))
      case Ok(r) => Finish(r)
      case Err(e) => Err(e)
  }

  predicate HasReverse(s: string) {
    "R:" <= s
  }

  function Decode(lib: Library, s: string): Result<Remote, DecodeError> {
    if HasReverse(s) then DecodeTokens(lib, Tokens(s[2..]), true) else DecodeTokens(lib, Tokens(s), false)
  }

  /** The decoder as it is written, a loop from the last part to the first over one record. */
  method DecodeRemote(lib: Library, input: string) returns (res: Result<Remote, DecodeError>)
    ensures res == Decode(lib, input)
  {
    hide Finish, Tokens, Place;
    var s, reverse := input, false;
    if HasReverse(s) {
      s := s[2..];
      reverse := true;
    }
    var parts := Tokens(s);
    if |parts| <= 0 || |parts| >= 5 {
      return Err(InvalidRemote);
    }
    var r := Blank(reverse);
    for i := |parts| downto 0
      invariant FillDown(lib, parts, |parts|, Blank(reverse)) == FillDown(lib, parts, i, r)
    {
      if i == |parts| - 1 && parts[i] == "socks" {
        r := r.(socks := true);
      } else if i == 0 && parts[i] == "stdio" {
        r := r.(stdio := true);
      } else {
        var filled := FillPart(lib, parts, i, r);
        match filled
        case Err(_) => return filled;
        case Ok(r') => r := r';
      }
    }
    res := ApplyDefaults(r);
  }

  /** The rest of the loop's body, for a part that is neither "socks" nor "stdio" in its place. */
  method FillPart(lib: Library, parts: seq<string>, i: nat, before: Remote) returns (res: Result<Remote, DecodeError>)
    requires i < |parts| && !(i == |parts| - 1 && parts[i] == "socks") && !(i == 0 && parts[i] == "stdio")
    ensures res == Fill(lib, parts, i, before)
  {
    var r := before;
    var (p, proto) := L4Proto(lib, parts[i]);
    if proto != "" {
      if r.remotePort == "" {
        r := r.(remoteProto := proto);
      } else if r.localProto == "" {
        r := r.(localProto := proto);
      }
    }
    if IsPort(p) {
      if !r.socks && r.remotePort == "" {
        r := r.(remotePort := p);
      }
      r := r.(localPort := p);
      return Ok(r);
    }
    if !r.socks && r.remotePort == "" && r.localPort == "" {
      return Err(MissingPorts);
    }
    if !lib.isHost(p) {
      return Err(InvalidHost);
    }
    if !r.socks && r.remoteHost == "" {
      r := r.(remoteHost := p);
    } else {
      r := r.(localHost := p);
    }
    return Ok(r);
  }

  method ApplyDefaults(decoded: Remote) returns (res: Result<Remote, DecodeError>)
    ensures res == Finish(decoded)
  {
    var r := decoded;
    if r.socks {
      if r.localHost == "" { r := r.(localHost := "127.0.0.1"); }
      if r.localPort == "" { r := r.(localPort := "1080"); }
    } else {
      if r.localHost == "" { r := r.(localHost := "0.0.0.0"); }
      if r.remoteHost == "" { r := r.(remoteHost := "127.0.0.1"); }
    }
    if r.remoteProto == "" { r := r.(remoteProto := "tcp"); }
    if r.localProto == "" { r := r.(localProto := r.remoteProto); }
    if r.localProto != r.remoteProto { return Err(CrossProtocol); }
    if r.socks && r.remoteProto != "tcp" { return Err(SocksNotTcp); }
    if r.stdio && r.reverse { return Err(StdioReversed); }
    return Ok(r);
  }

  // ---------- The printer ----------

  function Local(r: Remote): string {
    if r.stdio then "stdio"
    else (if r.localHost == "" then "0.0.0.0" else r.localHost) + ":" + r.localPort
  }

  function RemoteAddr(r: Remote): string {
    if r.socks then "socks"
    else (if r.remoteHost == "" then "127.0.0.1" else r.remoteHost) + ":" + r.remotePort
  }

  /** The printed form without its reverse prefix. */
  function Body(r: Remote): string {
    var r1 := if r.localPort == "" then r.(localPort := r.remotePort) else r;
    Local(r1) + ":" + (RemoteAddr(r) + if r.remoteProto == "udp" then "/udp" else "")
  }

  function Encode(r: Remote): string {
    if r.reverse then "R:" + Body(r) else Body(r)
  }

  function UserAddr(r: Remote): string {
    if r.reverse then "R:" + r.localHost + ":" + r.localPort else r.remoteHost + ":" + r.remotePort
  }

  function Reverses(rs: seq<Remote>, reverse: bool): seq<Remote> {
    if rs == [] then []
    else (if rs[0].reverse == reverse then [rs[0]] else []) + Reverses(rs[1..], reverse)
  }

  lemma ReversesNext(rs: seq<Remote>, reverse: bool, subset: seq<Remote>)
    requires rs != []
    ensures subset + Reverses(rs, reverse)
      == (if rs[0].reverse == reverse then subset + [rs[0]] else subset) + Reverses(rs[1..], reverse)
  {
    var rest := Reverses(rs[1..], reverse);
    assert Reverses(rs, reverse) == (if rs[0].reverse == reverse then [rs[0]] else []) + rest;
    hide Reverses;
    if rs[0].reverse == reverse {
      assert subset + ([rs[0]] + rest) == (subset + [rs[0]]) + rest;
    } else {
      assert [] + rest == rest;
    }
  }

  /** The remotes of one direction, in order; the server binds the reverse ones. */
  method Reversed(rs: seq<Remote>, reverse: bool) returns (subset: seq<Remote>)
    ensures subset == Reverses(rs, reverse)
  {
    subset := [];
    for i := 0 to |rs|
      invariant subset + Reverses(rs[i..], reverse) == Reverses(rs, reverse)
    {
      ReversesNext(rs[i..], reverse, subset);
      assert rs[i..][1..] == rs[i + 1..];
      hide Reverses;
      if rs[i].reverse == reverse {
        subset := subset + [rs[i]];
      }
    }
    assert subset + [] == subset;
  }

  /** Every remote of a config goes to exactly one of the two directions. */
  lemma {:induction false} DirectionsPartition(rs: seq<Remote>)
    ensures multiset(Reverses(rs, true)) + multiset(Reverses(rs, false)) == multiset(rs)
    ensures forall r | r in Reverses(rs, true) :: r.reverse
    ensures forall r | r in Reverses(rs, false) :: !r.reverse
  {
    if rs != [] {
      DirectionsPartition(rs[1..]);
      assert rs == [rs[0]] + rs[1..];
    }
  }
}
