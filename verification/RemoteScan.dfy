/** The scanner against the regular expression it stands for, and the protocol suffix against its own. */
module RemoteScan {
  import opened RemoteGrammar

  // ---------- All leftmost, longest matches ----------

  /** What the group of (\[[^\[\]]+\]|[^\[\]:]+):? matches. */
  predicate IsMatch(t: string) {
    || (t != [] && forall i | 0 <= i < |t| :: t[i] != '[' && t[i] != ']' && t[i] != ':')
    || (|t| >= 3 && t[0] == '[' && t[|t| - 1] == ']' && forall i | 1 <= i < |t| - 1 :: t[i] != '[' && t[i] != ']')
  }

  predicate MatchesAt(s: string, i: nat, n: nat) {
    i + n <= |s| && IsMatch(s[i..i + n])
  }

  /** A match starts there and none before. */
  ghost predicate Leftmost(s: string, i: nat) {
    && (exists n: nat :: MatchesAt(s, i, n))
    && forall j: nat, n: nat | j < i :: !MatchesAt(s, j, n)
  }

  ghost predicate Longest(s: string, i: nat, n: nat) {
    && MatchesAt(s, i, n)
    && forall m: nat | MatchesAt(s, i, m) :: m <= n
  }

  /** The text behind a match, and behind the colon that may follow it. */
  function Behind(s: string, end: nat): string
    requires end <= |s|
  {
    if end < |s| && s[end] == ':' then s[end + 1..] else s[end..]
  }

  predicate IsPiece(s: string, i: nat, n: nat, t: string) {
    i + n <= |s| && t == s[i..i + n]
  }

  /** The texts are the successive matches of the expression in the string, and behind them there is none. */
  ghost predicate FindAll(s: string, ts: seq<string>)
    decreases |ts|
  {
    if ts == [] then forall i: nat, n: nat :: !MatchesAt(s, i, n)
    else
      exists i: nat, n: nat ::
        && Leftmost(s, i) && Longest(s, i, n) && IsPiece(s, i, n, ts[0])
        && FindAll(Behind(s, i + n), ts[1..])
  }

  lemma TokenIsLongest(s: string)
    ensures TokenLength(s) > 0 ==> Longest(s, 0, TokenLength(s))
    ensures TokenLength(s) == 0 ==> forall n: nat :: !MatchesAt(s, 0, n)
  {
    var k := TokenLength(s);
    if s != [] && s[0] == '[' {
      assert forall i | 1 <= i < |s| :: s[i] == s[1..][i - 1];
    }
    if k > 0 {
      assert s[0..k] == s[..k];
      assert MatchesAt(s, 0, k);
    }
    forall n: nat | MatchesAt(s, 0, n) ensures 0 < n <= k {
      NoLongerMatch(s, n);
    }
  }

  lemma NoLongerMatch(s: string, n: nat)
    requires MatchesAt(s, 0, n)
    ensures 0 < n <= TokenLength(s)
  {
    var t := s[0..n];
    assert forall i | 0 <= i < n :: t[i] == s[i];
    if s[0] == '[' {
      assert forall i | 1 <= i < |s| :: s[i] == s[1..][i - 1];
      RunLengthUpTo(s[1..], true, n - 2);
    } else {
      var m := RunLength(s, false);
    }
  }

  lemma ShiftMatches(s: string, i: nat, n: nat)
    requires s != []
    ensures MatchesAt(s, i + 1, n) <==> MatchesAt(s[1..], i, n)
  {
    if i + 1 + n <= |s| {
      assert s[i + 1..i + 1 + n] == s[1..][i..i + n];
    }
  }

  /** A character at which no match starts is skipped. */
  lemma SkipOne(s: string, ts: seq<string>)
    requires s != [] && (forall n: nat :: !MatchesAt(s, 0, n)) && FindAll(s[1..], ts)
    ensures FindAll(s, ts)
  {
    if ts == [] {
      forall i: nat, n: nat ensures !MatchesAt(s, i, n) {
        if i > 0 { ShiftMatches(s, i - 1, n); }
      }
    } else {
      hide MatchesAt, Leftmost, Longest;
      var rest := s[1..];
      var i: nat, n: nat :| Leftmost(rest, i) && Longest(rest, i, n) && IsPiece(rest, i, n, ts[0])
        && FindAll(Behind(rest, i + n), ts[1..]);
      SkipLeftmost(s, i, n);
      SkipPiece(s, i, n, ts[0]);
      assert IsPiece(s, i + 1, n, ts[0]) && FindAll(Behind(s, i + 1 + n), ts[1..]);
    }
  }

  lemma SkipPiece(s: string, i: nat, n: nat, t: string)
    requires s != [] && IsPiece(s[1..], i, n, t)
    ensures IsPiece(s, i + 1, n, t) && Behind(s[1..], i + n) == Behind(s, i + 1 + n)
  {
    assert s[1..][i..i + n] == s[i + 1..i + 1 + n];
  }

  lemma SkipLeftmost(s: string, i: nat, n: nat)
    requires s != [] && (forall n: nat :: !MatchesAt(s, 0, n)) && Leftmost(s[1..], i) && Longest(s[1..], i, n)
    ensures Leftmost(s, i + 1) && Longest(s, i + 1, n)
  {
    ShiftMatches(s, i, n);
    var k := i + 1;
    forall j: nat, m: nat | j < k ensures !MatchesAt(s, j, m) {
      if j > 0 { ShiftMatches(s, j - 1, m); }
    }
    forall m: nat | MatchesAt(s, k, m) ensures m <= n {
      ShiftMatches(s, i, m);
    }
  }

  /** For every string the scanner finds exactly what FindAllStringSubmatch finds. */
  lemma {:induction false} ScannerIsRegex(s: string)
    ensures FindAll(s, Tokens(s))
    decreases |s|
  {
    if s != [] {
      var n := TokenLength(s);
      TokenIsLongest(s);
      if n == 0 {
        ScannerIsRegex(s[1..]);
        SkipOne(s, Tokens(s[1..]));
      } else {
        ScannerIsRegex(Behind(s, n));
        assert Leftmost(s, 0);
        var ts := Tokens(s);
        assert s[0..n] == s[..n] && ts[0] == s[..n] && ts[1..] == Tokens(Behind(s, n));
        assert IsPiece(s, 0, n, ts[0]) && FindAll(Behind(s, 0 + n), ts[1..]);
      }
    }
  }

  lemma OneNextMatch(s: string, i: nat, n: nat, j: nat, m: nat)
    requires Leftmost(s, i) && Longest(s, i, n) && Leftmost(s, j) && Longest(s, j, m)
    ensures i == j && n == m
  {
  }

  /** It is the only list of successive matches. */
  lemma {:induction false} MatchesAreUnique(s: string, ts: seq<string>, us: seq<string>)
    requires FindAll(s, ts) && FindAll(s, us)
    ensures ts == us
    decreases |ts|
  {
    hide Leftmost, Longest, MatchesAt, Behind;
    if ts == [] {
      NoMatchNoList(s, us);
    } else if us == [] {
      NoMatchNoList(s, ts);
    } else {
      var i: nat, n: nat :| Leftmost(s, i) && Longest(s, i, n) && IsPiece(s, i, n, ts[0])
        && FindAll(Behind(s, i + n), ts[1..]);
      var j: nat, m: nat :| Leftmost(s, j) && Longest(s, j, m) && IsPiece(s, j, m, us[0])
        && FindAll(Behind(s, j + m), us[1..]);
      OneNextMatch(s, i, n, j, m);
      hide FindAll;
      MatchesAreUnique(Behind(s, i + n), ts[1..], us[1..]);
      assert ts == [ts[0]] + ts[1..] && us == [us[0]] + us[1..];
    }
  }

  lemma NoMatchNoList(s: string, us: seq<string>)
    requires (forall i: nat, n: nat :: !MatchesAt(s, i, n)) && FindAll(s, us)
    ensures us == []
  {
    hide MatchesAt;
  }

  // ---------- The protocol suffix ----------

  predicate Either(c: char, lower: char, upper: char) {
    c == lower || c == upper
  }

  lemma ProtoIff(p: string)
    ensures IsProto(p) <==>
              |p| == 3 && Either(p[2], 'p', 'P')
              && ((Either(p[0], 't', 'T') && Either(p[1], 'c', 'C'))
                || (Either(p[0], 'u', 'U') && Either(p[1], 'd', 'D')))
  {
    if |p| == 3 {
      var q := [AsciiLower(p[0]), AsciiLower(p[1]), AsciiLower(p[2])];
      assert q[0] == AsciiLower(p[0]) && q[1] == AsciiLower(p[1]) && q[2] == AsciiLower(p[2]);
    }
  }

  /** A protocol at the end is split off as it is written, and what is in front of it comes out in lower case. */
  lemma SuffixSplits(lib: Library, head: string, p: string)
    requires IsProto(p)
    ensures L4Proto(lib, head + "/" + p) == (Lower(lib, head), p)
  {
    var s := head + "/" + p;
    assert s[|s| - 3..] == p && s[..|s| - 4] == head && s[|s| - 4] == '/';
    hide IsProto;
  }

  /** Any other text is left alone. */
  lemma NoSuffixStays(lib: Library, s: string)
    requires forall head, p | IsProto(p) :: s != head + "/" + p
    ensures L4Proto(lib, s) == (s, "")
  {
    if HasProto(s) {
      assert s == s[..|s| - 4] + "/" + s[|s| - 3..];
    }
  }

  /** Lower case is the usual one, character by character, on ASCII. */
  lemma LowerAscii(lib: Library, s: string, i: nat)
    requires Sound(lib) && i < |s| && s[i] as int < 128
    ensures Lower(lib, s)[i] == if 'A' <= s[i] <= 'Z' then s[i] + 32 as char else s[i]
  {
  }
}
