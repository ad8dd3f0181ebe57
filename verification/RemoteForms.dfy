/** What the forms a user may write mean, and how each error comes about. */
module RemoteForms {
  import opened Wrappers
  import opened RemoteGrammar
  import opened RemoteRoundTrip

  // ---------- The reverse prefix ----------

  function Flip(r: Remote): Remote {
    r.(reverse := true)
  }

  function Flipped(res: Result<Remote, DecodeError>): Result<Remote, DecodeError> {
    match res
    case Ok(r) => Ok(Flip(r))
    case Err(e) => Err(e)
  }

  lemma FillFlips(lib: Library, parts: seq<string>, i: nat, r: Remote)
    requires i < |parts|
    ensures Fill(lib, parts, i, Flip(r)) == Flipped(Fill(lib, parts, i, r))
  {
    hide L4Proto, IsPort;
    var (p, proto) := L4Proto(lib, parts[i]);
    assert NoteProto(Flip(r), proto) == Flip(NoteProto(r, proto));
    PlaceFlips(lib, NoteProto(r, proto), p);
    hide Place, NoteProto;
  }

  lemma PlaceFlips(lib: Library, r: Remote, p: string)
    ensures Place(lib, Flip(r), p) == Flipped(Place(lib, r, p))
  {
    hide IsPort;
  }

  lemma {:induction false} FillDownFlips(lib: Library, parts: seq<string>, n: nat, r: Remote)
    requires n <= |parts|
    ensures FillDown(lib, parts, n, Flip(r)) == Flipped(FillDown(lib, parts, n, r))
  {
    hide Fill;
    if n > 0 {
      FillFlips(lib, parts, n - 1, r);
      var res := Fill(lib, parts, n - 1, r);
      if res.Ok? {
        FillDownFlips(lib, parts, n - 1, res.value);
      }
    }
  }

  lemma FinishFlips(r: Remote)
    requires !r.reverse
    ensures Finish(Flip(r)) == if Finish(r).Ok? && r.stdio then Err(StdioReversed) else Flipped(Finish(r))
    ensures Finish(r).Ok? ==> Finish(r).value.stdio == r.stdio
  {
  }

  /**
   `R:` in front of any text that has none gives the same remote reversed, or the same
   error; only stdio cannot be reversed.
   */
  lemma ReversePrefix(lib: Library, s: string)
    requires !HasReverse(s)
    ensures Decode(lib, "R:" + s) ==
              if Decode(lib, s).Ok? && Decode(lib, s).value.stdio then Err(StdioReversed) else Flipped(Decode(lib, s))
  {
    assert ("R:" + s)[2..] == s;
    hide Tokens, FillDown, Finish;
    var parts := Tokens(s);
    if 0 < |parts| < 5 {
      FillDownFlips(lib, parts, |parts|, Blank(false));
      ReverseStays(lib, parts, |parts|, Blank(false));
      var res := FillDown(lib, parts, |parts|, Blank(false));
      if res.Ok? {
        FinishFlips(res.value);
      }
    }
  }

  lemma {:induction false} ReverseStays(lib: Library, parts: seq<string>, n: nat, r: Remote)
    requires n <= |parts|
    ensures FillDown(lib, parts, n, r).Ok? ==> FillDown(lib, parts, n, r).value.reverse == r.reverse
  {
    hide Fill;
    if n > 0 {
      FillKeepsReverse(lib, parts, n - 1, r);
      var res := Fill(lib, parts, n - 1, r);
      if res.Ok? {
        ReverseStays(lib, parts, n - 1, res.value);
      }
    }
  }

  lemma FillKeepsReverse(lib: Library, parts: seq<string>, i: nat, r: Remote)
    requires i < |parts|
    ensures Fill(lib, parts, i, r).Ok? ==> Fill(lib, parts, i, r).value.reverse == r.reverse
  {
    hide L4Proto, IsPort;
  }

  // ---------- Errors ----------

  /** The text without its reverse prefix. */
  function Bare(s: string): string {
    if "R:" <= s then s[2..] else s
  }

  lemma {:induction false} FillDownErrors(lib: Library, parts: seq<string>, n: nat, r: Remote)
    requires n <= |parts|
    ensures var res := FillDown(lib, parts, n, r);
            res.Err? ==> res.error == MissingPorts || res.error == InvalidHost
  {
    hide Fill;
    if n > 0 {
      FillErrors(lib, parts, n - 1, r);
      var res := Fill(lib, parts, n - 1, r);
      if res.Ok? {
        FillDownErrors(lib, parts, n - 1, res.value);
      }
    }
  }

  lemma FillErrors(lib: Library, parts: seq<string>, i: nat, r: Remote)
    requires i < |parts|
    ensures var res := Fill(lib, parts, i, r);
            res.Err? ==> res.error == MissingPorts || res.error == InvalidHost
  {
    hide L4Proto, IsPort;
  }

  /** "Invalid remote" is the answer exactly for no parts and for more than four. */
  lemma WrongNumberOfParts(lib: Library, s: string)
    ensures Decode(lib, s) == Err(InvalidRemote) <==> |Tokens(Bare(s))| == 0 || |Tokens(Bare(s))| > 4
  {
    var parts := Tokens(Bare(s));
    hide Tokens, FillDown, Finish;
    if 0 < |parts| < 5 {
      FillDownErrors(lib, parts, |parts|, Blank(HasReverse(s)));
      var res := FillDown(lib, parts, |parts|, Blank(HasReverse(s)));
      if res.Ok? { FinishErrors(res.value); }
    }
  }

  lemma FinishErrors(r: Remote)
    ensures Finish(r).Err? ==>
              Finish(r).error == CrossProtocol || Finish(r).error == SocksNotTcp || Finish(r).error == StdioReversed
  {
  }

  /** The last part leaves the remote side without a port: it is neither a port, nor "socks", nor "stdio" alone. */
  predicate LastHasNoPort(lib: Library, parts: seq<string>)
    requires parts != []
  {
    var last := parts[|parts| - 1];
    && last != "socks" && !(|parts| == 1 && last == "stdio")
    && !IsPort(L4Proto(lib, last).0)
  }

  lemma {:induction false} NothingMissingLater(lib: Library, parts: seq<string>, n: nat, r: Remote)
    requires Sound(lib) && n < |parts| && (forall t | t in parts :: IsToken(t)) && Partial(lib, parts, n, r)
    ensures FillDown(lib, parts, n, r) != Err(MissingPorts)
  {
    hide Fill, Partial;
    if n > 0 {
      FillPartial(lib, parts, n - 1, r);
      OnlyLastMisses(lib, parts, n - 1, r);
      var res := Fill(lib, parts, n - 1, r);
      if res.Ok? {
        NothingMissingLater(lib, parts, n - 1, res.value);
      }
    }
  }

  lemma OnlyLastMisses(lib: Library, parts: seq<string>, i: nat, r: Remote)
    requires i < |parts| && Partial(lib, parts, i + 1, r)
    ensures Fill(lib, parts, i, r) == Err(MissingPorts) <==> i == |parts| - 1 && LastHasNoPort(lib, parts)
  {
    hide L4Proto, IsPort, GoodHost;
  }

  /** "Missing ports" is the answer exactly when the last of up to four parts has none to give. */
  lemma MissingPortsWhen(lib: Library, s: string)
    requires Sound(lib)
    ensures var parts := Tokens(Bare(s));
            Decode(lib, s) == Err(MissingPorts) <==> 0 < |parts| <= 4 && LastHasNoPort(lib, parts)
  {
    var parts := Tokens(Bare(s));
    TokensAreTokens(Bare(s));
    hide Tokens, Finish, Partial, LastHasNoPort, Fill;
    if 0 < |parts| < 5 {
      var r, n := Blank(HasReverse(s)), |parts|;
      BlankIsPartial(lib, parts, HasReverse(s));
      OnlyLastMisses(lib, parts, n - 1, r);
      FillPartial(lib, parts, n - 1, r);
      var first := Fill(lib, parts, n - 1, r);
      if first.Ok? {
        NothingMissingLater(lib, parts, n - 1, first.value);
      }
      var res := FillDown(lib, parts, n, r);
      if res.Ok? { FinishErrors(res.value); }
    }
  }

  lemma BlankIsPartial(lib: Library, parts: seq<string>, reverse: bool)
    ensures Partial(lib, parts, |parts|, Blank(reverse))
  {
  }

  // ---------- Ports with protocols ----------

  predicate UdpOrNothing(suffix: string) {
    suffix == "" || suffix == "/udp"
  }

  /** The same remote for the given protocol. */
  function Over(r: Remote, proto: string): Remote {
    r.(localProto := proto, remoteProto := proto)
  }

  lemma SuffixTokens(lib: Library, lp: string, s1: string, h: string, p: string, s2: string)
    requires Sound(lib) && IsPort(lp) && PlainHost(lib, h) && IsPort(p) && UdpOrNothing(s1) && UdpOrNothing(s2)
    ensures var s := (lp + s1) + ":" + (h + ":" + (p + s2));
            Tokens(s) == [lp + s1, h, p + s2] && !HasReverse(s)
  {
    PortSuffixToken(lib, lp, s1);
    PortSuffixToken(lib, p, s2);
    hide IsPort, Tokens, IsToken, HasReverse, HasProto;
    FirstTwoTokens(lp + s1, h, p + s2);
    FirstToken(p + s2, "");
    NoReversePrefix(lp + s1, h + ":" + (p + s2));
  }

  lemma PortSuffixToken(lib: Library, p: string, suffix: string)
    requires Sound(lib) && IsPort(p) && UdpOrNothing(suffix)
    ensures IsToken(p + suffix) && p + suffix != "R" && p + suffix != "socks" && p + suffix != "stdio"
  {
    PortText(p);
    PortDigits(p);
    PortWithProto(lib, p);
    assert p + "" == p && (p + suffix)[0] == p[0];
    hide IsPort, IsToken;
  }

  function ProtoOf(suffix: string): string {
    if suffix == "" then "" else "udp"
  }

  lemma SuffixParts(lib: Library, lp: string, s1: string, h: string, p: string, s2: string)
    requires Sound(lib) && IsPort(lp) && PlainHost(lib, h) && IsPort(p) && UdpOrNothing(s1) && UdpOrNothing(s2)
    ensures var r := Blank(false).(remotePort := p, localPort := lp, remoteHost := h,
                                   remoteProto := ProtoOf(s2), localProto := ProtoOf(s1));
            FillDown(lib, [lp + s1, h, p + s2], 3, Blank(false)) == Ok(r)
  {
    NoPortIsEmpty();
    assert p != "" && h != "";
    var parts := [lp + s1, h, p + s2];
    var r1 := Blank(false).(remotePort := p, localPort := p, remoteProto := ProtoOf(s2));
    var r2 := r1.(remoteHost := h);
    var r3 := r2.(localPort := lp, localProto := ProtoOf(s1));
    hide IsPort, HasProto, IsToken, Fill, FillDown;
    FilePort(lib, parts, 2, Blank(false), p, s2);
    FilePort(lib, parts, 0, r2, lp, s1);
    ReadHost(lib, parts, 1, r1, h);
    DownOne(lib, parts, 3, Blank(false), Ok(r1));
    DownOne(lib, parts, 2, r1, Ok(r2));
    DownOne(lib, parts, 1, r2, Ok(r3));
  }

  /** How a port part is filed: as the local port, and as the remote one if that is still open. */
  function PortFiled(r: Remote, p: string, proto: string): Remote {
    var r1 := NoteProto(r, proto);
    (if !r1.socks && r1.remotePort == "" then r1.(remotePort := p) else r1).(localPort := p)
  }

  lemma FilePort(lib: Library, parts: seq<string>, i: nat, r: Remote, p: string, suffix: string)
    requires Sound(lib) && i < |parts| && parts[i] == p + suffix && IsPort(p) && UdpOrNothing(suffix)
    ensures Fill(lib, parts, i, r) == Ok(PortFiled(r, p, ProtoOf(suffix)))
  {
    FillPort(lib, parts, i, r, p, suffix);
    hide IsPort, Fill;
  }

  /**
   `3000:google.com:80`, with `/udp` behind either port: the one behind the remote port
   makes both sides UDP; the one behind the local port alone crosses protocols.
   */
  lemma PortHostPortOver(lib: Library, lp: string, s1: string, h: string, p: string, s2: string)
    requires Sound(lib) && IsPort(lp) && PlainHost(lib, h) && IsPort(p) && UdpOrNothing(s1) && UdpOrNothing(s2)
    ensures Decode(lib, (lp + s1) + ":" + (h + ":" + (p + s2))) ==
              if s2 == "/udp" then Ok(Over(Plain(lp, h, p), "udp"))
              else if s1 == "/udp" then Err(CrossProtocol)
              else Ok(Plain(lp, h, p))
  {
    SuffixTokens(lib, lp, s1, h, p, s2);
    SuffixParts(lib, lp, s1, h, p, s2);
    assert h != "";
    hide Tokens, FillDown, HasReverse, IsPort, IsToken, HasProto;
  }

  // ---------- Hosts that do not parse, socks ----------

  /** A text that url.Parse refuses is refused as a host. */
  lemma BadHost(lib: Library, h: string, p: string)
    requires Sound(lib) && IsPort(p) && IsToken(h) && !IsPort(h) && !HasProto(h) && !lib.isHost(h)
    requires h != "stdio" && h != "R"
    ensures Decode(lib, h + ":" + p) == Err(InvalidHost)
  {
    hide IsPort, Tokens, IsToken, HasReverse, HasProto, FillDown, Fill;
    PortText(p);
    FirstToken(h, p);
    FirstToken(p, "");
    NoReversePrefix(h, p);
    var parts := [h, p];
    assert Tokens(h + ":" + p) == parts;
    ReadRemotePort(lib, parts, p);
    BadHostPart(lib, parts, p);
    DownOne(lib, parts, 1, PortLast(p), Err(InvalidHost));
  }

  lemma BadHostPart(lib: Library, parts: seq<string>, p: string)
    requires |parts| == 2 && IsPort(p)
    requires !IsPort(parts[0]) && !HasProto(parts[0]) && !lib.isHost(parts[0]) && parts[0] != "stdio"
    ensures Fill(lib, parts, 0, PortLast(p)) == Err(InvalidHost)
  {
    NoPortIsEmpty();
    assert p != "";
    hide IsPort, HasProto;
  }

  /** `socks` alone: the proxy on port 1080 of the loopback interface. */
  lemma SocksAlone(lib: Library)
    ensures Decode(lib, "socks") == Ok(Remote("127.0.0.1", "1080", "tcp", "", "", "tcp", true, false, false))
  {
    WordTokens();
    FirstToken("socks", "");
    hide IsPort, IsToken, Tokens;
    DownOne(lib, ["socks"], 1, Blank(false), Ok(Blank(false).(socks := true)));
  }

  /** A port in front of `socks`: the proxy there, which is TCP only. */
  lemma SocksOnPort(lib: Library, p: string, suffix: string)
    requires Sound(lib) && IsPort(p) && UdpOrNothing(suffix)
    ensures Decode(lib, (p + suffix) + ":" + "socks") ==
              if suffix == "/udp" then Err(SocksNotTcp)
              else Ok(Remote("127.0.0.1", p, "tcp", "", "", "tcp", true, false, false))
  {
    hide IsPort, IsToken, Tokens, HasReverse, Fill, FillDown;
    PortSuffixToken(lib, p, suffix);
    WordTokens();
    NoPortIsEmpty();
    assert p != "";
    var parts, r1 := [p + suffix, "socks"], Blank(false).(socks := true);
    FilePort(lib, parts, 0, r1, p, suffix);
    FirstToken(p + suffix, "socks");
    FirstToken("socks", "");
    NoReversePrefix(p + suffix, "socks");
    assert Tokens((p + suffix) + ":" + "socks") == parts;
    SocksLast(lib, parts);
    DownOne(lib, parts, 2, Blank(false), Ok(r1));
    var r2 := r1.(localPort := p, remoteProto := ProtoOf(suffix));
    DownOne(lib, parts, 1, r1, Ok(r2));
  }

  lemma SocksLast(lib: Library, parts: seq<string>)
    requires |parts| == 2 && parts[1] == "socks"
    ensures Fill(lib, parts, 1, Blank(false)) == Ok(Blank(false).(socks := true))
  {
  }

  // ---------- Printing what was left out ----------

  /** A record with the fields it leaves open filled in. */
  function WithDefaults(r: Remote): Remote {
    r.(localHost := if r.localHost == "" then "0.0.0.0" else r.localHost,
       localPort := if r.localPort == "" then r.remotePort else r.localPort,
       remoteHost := if r.remoteHost == "" then "127.0.0.1" else r.remoteHost)
  }

  /** A record made by hand is printed as if its open fields had been filled in. */
  lemma PrintsDefaults(r: Remote)
    ensures Encode(r) == Encode(WithDefaults(r))
  {
  }

  /** Picking one direction out of two lists in a row is picking it out of each, so the order is kept. */
  lemma {:induction false} DirectionsInOrder(a: seq<Remote>, b: seq<Remote>, reverse: bool)
    ensures Reverses(a + b, reverse) == Reverses(a, reverse) + Reverses(b, reverse)
  {
    if a == [] {
      assert a + b == b;
    } else {
      assert (a + b)[0] == a[0] && (a + b)[1..] == a[1..] + b;
      DirectionsInOrder(a[1..], b, reverse);
    }
  }
}
