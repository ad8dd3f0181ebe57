/** When printing a remote and decoding it again gives the remote back: an exact answer for every record. */
module RemoteRoundTrip {
  import opened Wrappers
  import opened RemoteGrammar

  // ---------- What the decoder can produce ----------

  predicate GoodHost(lib: Library, h: string) {
    IsToken(h) && !IsPort(h) && lib.isHost(h)
  }

  /** A port is digits after an optional sign. */
  lemma PortDigits(s: string)
    requires IsPort(s)
    ensures s != [] && '0' <= s[|s| - 1] <= '9'
    ensures forall i | 0 <= i < |s| :: '0' <= s[i] <= '9' || s[i] == '+' || s[i] == '-'
  {
    var signed := s != [] && (s[0] == '+' || s[0] == '-');
    var digits := if signed then s[1..] else s;
    assert digits != [] && Digits(digits);
    forall i | 0 <= i < |s| ensures '0' <= s[i] <= '9' || (i == 0 && signed) {
      if !(i == 0 && signed) {
        assert s[i] == digits[if signed then i - 1 else i];
      }
    }
  }

  lemma PortText(s: string)
    requires IsPort(s)
    ensures IsToken(s) && !HasProto(s) && s != "socks" && s != "stdio"
  {
    PortDigits(s);
    assert |s| >= 4 ==> s[|s| - 3..][2] == s[|s| - 1];
    assert "socks"[4] == 's' && "stdio"[4] == 'o';
  }

  lemma PortLower(lib: Library, s: string)
    requires Sound(lib) && IsPort(s)
    ensures Lower(lib, s) == s
  {
    PortDigits(s);
    hide IsPort;
  }

  lemma ProtoLetters(proto: string)
    requires IsProto(proto)
    ensures forall i | 0 <= i < |proto| :: !Delimiter(proto[i])
  {
  }

  /** A port with a protocol behind it is one token, and neither keyword. */
  lemma PortThenProto(s: string, proto: string)
    requires IsPort(s) && IsProto(proto)
    ensures var t := s + "/" + proto;
            && IsToken(t) && t != "socks" && t != "stdio" && !HasReverse(t)
            && HasProto(t) && t[..|t| - 4] == s && t[|t| - 3..] == proto
  {
    PortDigits(s);
    hide IsPort;
    ProtoLetters(proto);
    var t := s + "/" + proto;
    assert t[|t| - 3..] == proto && t[..|t| - 4] == s && t[|t| - 4] == '/';
    assert t[0] == s[0];
    assert "socks"[1] == 'o' && "stdio"[1] == 't' && "socks"[0] == 's' && "stdio"[0] == 's';
    forall i | 0 <= i < |t| ensures !Delimiter(t[i]) {
      if i < |s| {
        assert t[i] == s[i];
      } else if i > |s| {
        assert t[i] == proto[i - |s| - 1];
      }
    }
  }

  lemma PortWithProto(lib: Library, s: string)
    requires Sound(lib) && IsPort(s)
    ensures IsToken(s + "/udp") && s + "/udp" != "socks" && s + "/udp" != "stdio"
    ensures L4Proto(lib, s) == (s, "") && L4Proto(lib, s + "/udp") == (s, "udp")
  {
    PortText(s);
    PortLower(lib, s);
    PortThenProto(s, "udp");
    assert s + "/udp" == s + "/" + "udp";
    hide IsPort, Lower, HasProto, IsToken;
  }

  /** Stripping the protocol off a token leaves a token, or nothing. */
  lemma HeadIsToken(lib: Library, t: string)
    requires Sound(lib) && IsToken(t)
    ensures L4Proto(lib, t).0 == "" || IsToken(L4Proto(lib, t).0)
    ensures L4Proto(lib, t).1 == "" || IsProto(L4Proto(lib, t).1)
  {
    if HasProto(t) {
      assert t[0] != '[' by {
        assert AsciiLower(t[|t| - 3..][2]) == 'p';
      }
      var head := Lower(lib, t[..|t| - 4]);
      forall i | 0 <= i < |head| ensures !Delimiter(head[i]) {
        assert !Delimiter(t[i]);
      }
    }
  }

  /** What holds of the record after the parts from `n` on are filled in. */
  predicate Partial(lib: Library, parts: seq<string>, n: nat, r: Remote) {
    && Fields(lib, r)
    && (r.stdio ==> n == 0)
    && (n == |parts| ==> r == Blank(r.reverse))
    && (!r.socks && r.remotePort == "" && n < |parts| ==>
          r.stdio && |parts| == 1 && r.localPort == r.localHost == r.remoteHost == r.remoteProto == "")
  }

  predicate Fields(lib: Library, r: Remote) {
    && (r.localHost == "" || GoodHost(lib, r.localHost))
    && (r.remoteHost == "" || (GoodHost(lib, r.remoteHost) && !r.socks))
    && (r.localPort == "" || IsPort(r.localPort))
    && (r.remotePort == "" || (IsPort(r.remotePort) && r.localPort != "" && !r.socks))
    && (r.localProto == "" || IsProto(r.localProto))
    && (r.remoteProto == "" || IsProto(r.remoteProto))
  }

  lemma FillPartial(lib: Library, parts: seq<string>, i: nat, r: Remote)
    requires Sound(lib) && i < |parts| && IsToken(parts[i]) && Partial(lib, parts, i + 1, r)
    ensures var res := Fill(lib, parts, i, r);
            res.Ok? ==> Partial(lib, parts, i, res.value) && res.value.reverse == r.reverse
  {
    if !(i == |parts| - 1 && parts[i] == "socks") && !(i == 0 && parts[i] == "stdio") {
      HeadIsToken(lib, parts[i]);
      var (p, proto) := L4Proto(lib, parts[i]);
      NotePartial(lib, parts, i, r, proto);
      PlacePartial(lib, parts, i, NoteProto(r, proto), p);
    }
  }

  /** A record on its way through part `i`: as before the part, except that a protocol may be noted. */
  predicate Noted(lib: Library, parts: seq<string>, i: nat, r: Remote) {
    && Fields(lib, r) && !r.stdio
    && (!r.socks && r.remotePort == "" ==> i + 1 == |parts| && r.localPort == r.localHost == r.remoteHost == "")
  }

  lemma NotePartial(lib: Library, parts: seq<string>, i: nat, r: Remote, proto: string)
    requires i < |parts| && Partial(lib, parts, i + 1, r) && (proto == "" || IsProto(proto))
    ensures Noted(lib, parts, i, NoteProto(r, proto)) && NoteProto(r, proto).reverse == r.reverse
  {
    hide GoodHost, IsPort, IsProto;
  }

  lemma PlacePartial(lib: Library, parts: seq<string>, i: nat, r: Remote, p: string)
    requires i < |parts| && Noted(lib, parts, i, r) && (p == "" || IsToken(p))
    ensures var res := Place(lib, r, p);
            res.Ok? ==> Partial(lib, parts, i, res.value) && res.value.reverse == r.reverse
  {
    hide IsToken, IsPort, IsProto;
    NoPortIsEmpty();
  }

  lemma {:induction false} FillDownPartial(lib: Library, parts: seq<string>, n: nat, r: Remote)
    requires Sound(lib) && n <= |parts| && (forall t | t in parts :: IsToken(t)) && Partial(lib, parts, n, r)
    ensures var res := FillDown(lib, parts, n, r);
            res.Ok? ==> Partial(lib, parts, 0, res.value) && res.value.reverse == r.reverse
  {
    hide Fill, Partial;
    if n > 0 {
      FillPartial(lib, parts, n - 1, r);
      var res := Fill(lib, parts, n - 1, r);
      if res.Ok? {
        FillDownPartial(lib, parts, n - 1, res.value);
      }
    }
  }

  /** Every record the decoder returns has this shape. */
  predicate Shape(lib: Library, r: Remote) {
    && GoodHost(lib, r.localHost)
    && IsProto(r.remoteProto) && r.localProto == r.remoteProto
    && !(r.stdio && r.reverse)
    && (if r.socks then
          r.remoteHost == r.remotePort == "" && IsPort(r.localPort) && r.remoteProto == "tcp"
        else
          && GoodHost(lib, r.remoteHost)
          && (if r.remotePort == "" then
                r.stdio && r.localPort == "" && r.remoteProto == "tcp"
              else
                IsPort(r.localPort) && IsPort(r.remotePort)))
  }

  lemma DefaultsAreGood(lib: Library)
    requires Sound(lib)
    ensures GoodHost(lib, "0.0.0.0") && GoodHost(lib, "127.0.0.1") && IsPort("1080") && IsProto("tcp") && IsProto("udp")
    ensures !HasProto("0.0.0.0") && !HasProto("127.0.0.1")
  {
    hide IsPort;
    SocksPort();
    NoPort("0.0.0.0", 1);
    NoPort("127.0.0.1", 3);
  }

  lemma NoPort(s: string, i: nat)
    requires i < |s| && s[i] == '.'
    ensures !IsPort(s)
  {
    if IsPort(s) {
      PortDigits(s);
    }
  }

  lemma SocksPort()
    ensures IsPort("1080")
  {
    assert "1080"[..3] == "108" && "108"[..2] == "10" && "10"[..1] == "1" && "1"[..0] == "";
    assert DigitsValue("1080") == 1080;
    hide DigitsValue, Atoi;
    AtoiDigits("1080");
  }

  lemma DecodedShape(lib: Library, s: string)
    requires Sound(lib) && Decode(lib, s).Ok?
    ensures Shape(lib, Decode(lib, s).value) && Decode(lib, s).value.reverse == HasReverse(s)
  {
    var rest := if HasReverse(s) then s[2..] else s;
    var parts := Tokens(rest);
    TokensAreTokens(rest);
    FillDownPartial(lib, parts, |parts|, Blank(HasReverse(s)));
    hide Tokens;
    FinishShape(lib, parts, FillDown(lib, parts, |parts|, Blank(HasReverse(s))).value);
  }

  lemma FinishShape(lib: Library, parts: seq<string>, r: Remote)
    requires Sound(lib) && parts != [] && Partial(lib, parts, 0, r) && Finish(r).Ok?
    ensures Shape(lib, Finish(r).value) && Finish(r).value.reverse == r.reverse
  {
    DefaultsAreGood(lib);
    hide GoodHost, IsPort, IsProto;
  }

  // ---------- Which records survive ----------

  /** Nothing that would be read as something else, and nothing the printed form leaves out. */
  predicate Unambiguous(r: Remote) {
    && (r.remoteProto == "tcp" || r.remoteProto == "udp")
    && (r.socks || !HasProto(r.remoteHost))
    && (if r.stdio then
          && r.localHost == (if r.socks then "127.0.0.1" else "0.0.0.0")
          && r.localPort == (if r.socks then "1080" else r.remotePort)
          && r.localPort != ""
        else
          && r.localHost != "stdio" && !HasProto(r.localHost)
          && (r.localHost == "R" ==> r.reverse))
  }

  function Suffix(r: Remote): string {
    if r.remoteProto == "udp" then "/udp" else ""
  }

  /** The tokens the printed form is scanned into. */
  function PrintedTokens(r: Remote): seq<string> {
    if r.stdio && r.socks then ["stdio", "socks"]
    else if r.stdio && r.remotePort == "" then ["stdio", r.remoteHost]
    else if r.stdio then ["stdio", r.remoteHost, r.remotePort + Suffix(r)]
    else if r.socks then [r.localHost, r.localPort, "socks"]
    else [r.localHost, r.localPort, r.remoteHost, r.remotePort + Suffix(r)]
  }

  /** What is sent to name the remote side, with its protocol: the second half of the printed form. */
  function RemoteText(r: Remote): string {
    if r.socks then "socks" else r.remoteHost + ":" + (r.remotePort + Suffix(r))
  }

  lemma Regroup(a: string, b: string, c: string, d: string)
    ensures (a + b + c) + d == a + b + (c + d)
  {
  }

  /** Only the token "R" makes a colon-joined text look reversed. */
  lemma ReverseToken(t: string, rest: string)
    requires IsToken(t)
    ensures HasReverse(t + ":" + rest) <==> t == "R"
  {
    var s := t + ":" + rest;
    assert s[|t|] == ':' && s[0] == t[0];
    assert |t| > 1 ==> s[1] == t[1];
    if HasReverse(s) {
      assert s[0] == 'R' && s[1] == ':';
      assert t == [t[0]];
    }
  }

  lemma BodyText(lib: Library, r: Remote)
    requires Shape(lib, r)
    ensures Body(r) == if r.stdio then "stdio" + ":" + RemoteText(r)
                       else r.localHost + ":" + (r.localPort + ":" + RemoteText(r))
  {
    RemoteTextIs(lib, r);
    assert r.localHost != "" && (!r.stdio ==> r.localPort != "");
    hide Shape, RemoteText, RemoteAddr;
    if r.stdio {
      assert Body(r) == "stdio" + ":" + RemoteText(r);
    } else {
      assert Local(r) == r.localHost + ":" + r.localPort;
      assert Body(r) == Local(r) + ":" + RemoteText(r);
      hide Body, Local;
      ColonRegroup(r.localHost, r.localPort, RemoteText(r));
    }
  }

  lemma ColonRegroup(a: string, b: string, c: string)
    ensures (a + ":" + b) + ":" + c == a + ":" + (b + ":" + c)
  {
  }

  lemma RemoteTextIs(lib: Library, r: Remote)
    requires Shape(lib, r)
    ensures RemoteAddr(r) + Suffix(r) == RemoteText(r)
  {
    if r.socks {
      assert Suffix(r) == "";
    } else {
      assert r.remoteHost != "";
      Regroup(r.remoteHost, ":", r.remotePort, Suffix(r));
    }
    hide Shape;
  }

  lemma RemoteTextTokens(lib: Library, r: Remote)
    requires Sound(lib) && Shape(lib, r)
    ensures Tokens(RemoteText(r)) ==
      if r.socks then ["socks"]
      else if r.remotePort == "" then [r.remoteHost]
      else [r.remoteHost, r.remotePort + Suffix(r)]
  {
    var rp := r.remotePort + Suffix(r);
    WordTokens();
    if r.socks {
      FirstToken("socks", "");
    } else if r.remotePort == "" {
      FirstToken(r.remoteHost, "");
    } else {
      assert IsToken(rp) by {
        PortText(r.remotePort);
        PortWithProto(lib, r.remotePort);
        assert r.remotePort + "" == r.remotePort;
      }
      FirstToken(rp, "");
      FirstToken(r.remoteHost, rp);
    }
  }

  lemma WordTokens()
    ensures IsToken("stdio") && IsToken("socks")
  {
  }

  lemma FirstTwoTokens(a: string, b: string, rest: string)
    requires IsToken(a) && IsToken(b)
    ensures Tokens(a + ":" + (b + ":" + rest)) == [a, b] + Tokens(rest)
  {
    hide IsToken, Tokens;
    FirstToken(a, b + ":" + rest);
    FirstToken(b, rest);
    assert [a] + ([b] + Tokens(rest)) == [a, b] + Tokens(rest);
  }

  /** The printed form starts with the local side's one or two tokens. */
  lemma LocalTokens(lib: Library, r: Remote)
    requires Sound(lib) && Shape(lib, r)
    ensures Tokens(Body(r)) == (if r.stdio then ["stdio"] else [r.localHost, r.localPort]) + Tokens(RemoteText(r))
    ensures HasReverse(Body(r)) <==> !r.stdio && r.localHost == "R"
  {
    BodyText(lib, r);
    var lh, lp, text := r.localHost, r.localPort, RemoteText(r);
    if r.stdio {
      WordTokens();
      hide Body, RemoteText, Tokens, HasReverse, Shape, IsToken;
      FirstToken("stdio", text);
      ReverseToken("stdio", text);
    } else {
      PortText(lp);
      assert IsToken(lh);
      hide Body, RemoteText, Tokens, HasReverse, Shape, IsToken;
      FirstTwoTokens(lh, lp, text);
      ReverseToken(lh, lp + ":" + text);
    }
  }

  /** The local side's tokens, then the remote side's. */
  lemma PrintedParts(r: Remote)
    requires !r.stdio && !r.socks ==> r.remotePort != ""
    ensures PrintedTokens(r) ==
              (if r.stdio then ["stdio"] else [r.localHost, r.localPort])
              + if r.socks then ["socks"]
                else if r.remotePort == "" then [r.remoteHost] else [r.remoteHost, r.remotePort + Suffix(r)]
  {
  }

  lemma BodyTokens(lib: Library, r: Remote)
    requires Sound(lib) && Shape(lib, r)
    ensures Tokens(Body(r)) == PrintedTokens(r)
    ensures HasReverse(Body(r)) <==> !r.stdio && r.localHost == "R"
  {
    assert !r.stdio && !r.socks ==> r.remotePort != "" by { NoPortIsEmpty(); }
    hide Body, RemoteText, Tokens, HasReverse, Shape, Suffix, PrintedTokens;
    LocalTokens(lib, r);
    RemoteTextTokens(lib, r);
    PrintedParts(r);
  }

  // ---------- Decoding the printed tokens ----------

  lemma FillPort(lib: Library, parts: seq<string>, i: nat, r: Remote, port: string, suffix: string)
    requires Sound(lib) && i < |parts| && parts[i] == port + suffix && IsPort(port)
      && (suffix == "" || suffix == "/udp")
    ensures Fill(lib, parts, i, r) == Place(lib, NoteProto(r, if suffix == "" then "" else "udp"), port)
  {
    PortText(port);
    PortWithProto(lib, port);
    assert port + "" == port;
  }

  /** The record after the last printed part, the remote port. */
  function AfterRemotePort(r: Remote): Remote {
    Blank(r.reverse).(
      remoteProto := if r.remoteProto == "udp" then "udp" else "",
      remotePort := r.remotePort,
      localPort := r.remotePort)
  }

  lemma FillRemotePort(lib: Library, r: Remote, parts: seq<string>)
    requires Sound(lib) && Shape(lib, r) && !r.socks && r.remotePort != ""
    requires parts != [] && parts[|parts| - 1] == r.remotePort + Suffix(r)
    ensures FillDown(lib, parts, |parts|, Blank(r.reverse)) == FillDown(lib, parts, |parts| - 1, AfterRemotePort(r))
  {
    FillPort(lib, parts, |parts| - 1, Blank(r.reverse), r.remotePort, Suffix(r));
    hide IsPort, IsProto, GoodHost;
    assert Fill(lib, parts, |parts| - 1, Blank(r.reverse)) == Ok(AfterRemotePort(r)) by {
      assert r.remotePort != "";
    }
  }

  /** How a host part is filed: as its head without a protocol, unless the head is itself a port. */
  function FileHost(lib: Library, r: Remote, host: string): Result<Remote, DecodeError> {
    Place(lib, NoteProto(r, L4Proto(lib, host).1), L4Proto(lib, host).0)
  }

  /** The first two parts, a local host and a local port, in the order the decoder meets them. */
  function FileLocal(lib: Library, r: Remote, host: string, port: string): Result<Remote, DecodeError> {
    var r1 := r.(localPort := port);
    if host == "stdio" then Ok(r1.(stdio := true)) else FileHost(lib, r1, host)
  }

  lemma FillLocal(lib: Library, parts: seq<string>, r: Remote)
    requires Sound(lib) && |parts| > 2 && IsPort(parts[1]) && (r.socks || r.remotePort != "")
    ensures FillDown(lib, parts, 2, r) == FileLocal(lib, r, parts[0], parts[1])
  {
    hide Place, NoteProto, IsPort, L4Proto;
    ReadLocalPort(lib, parts, 1, r, parts[1]);
    var r1 := r.(localPort := parts[1]);
    DownOne(lib, parts, 2, r, Ok(r1));
    DownOne(lib, parts, 1, r1, FileLocal(lib, r, parts[0], parts[1]));
  }

  /** All four parts of the printed form. */
  function FileFour(lib: Library, r: Remote): Result<Remote, DecodeError> {
    match FileHost(lib, AfterRemotePort(r), r.remoteHost)
    case Ok(before) => FileLocal(lib, before, r.localHost, r.localPort)
    case Err(e) => Err(e)
  }

  lemma FillFour(lib: Library, r: Remote)
    requires Sound(lib) && Shape(lib, r) && !r.socks && !r.stdio
    ensures var parts := PrintedTokens(r); FillDown(lib, parts, |parts|, Blank(r.reverse)) == FileFour(lib, r)
  {
    var parts := PrintedTokens(r);
    FillRemotePort(lib, r, parts);
    hide FillDown, Place, NoteProto, IsProto, GoodHost, L4Proto, IsToken, FileLocal;
    var before := FileHost(lib, AfterRemotePort(r), r.remoteHost);
    DownOne(lib, parts, 3, AfterRemotePort(r), before);
    if before.Ok? {
      FileHostKeepsPort(lib, AfterRemotePort(r), r.remoteHost);
      FillLocal(lib, parts, before.value);
    }
  }

  lemma FileHostKeepsPort(lib: Library, r: Remote, host: string)
    requires r.remotePort != "" && FileHost(lib, r, host).Ok?
    ensures FileHost(lib, r, host).value.remotePort == r.remotePort
  {
    hide L4Proto, IsPort;
  }

  lemma DownOne(lib: Library, parts: seq<string>, n: nat, r: Remote, res: Result<Remote, DecodeError>)
    requires 0 < n <= |parts| && Fill(lib, parts, n - 1, r) == res
    ensures FillDown(lib, parts, n, r) == if res.Ok? then FillDown(lib, parts, n - 1, res.value) else res
    ensures n == 1 ==> FillDown(lib, parts, n, r) == res
  {
    if res.Ok? {
      assert n == 1 ==> FillDown(lib, parts, n - 1, res.value) == Ok(res.value);
    }
  }

  /** A port met when the remote port is known, or after "socks", is the local port. */
  lemma ReadLocalPort(lib: Library, parts: seq<string>, i: nat, r: Remote, port: string)
    requires Sound(lib) && i < |parts| && parts[i] == port && IsPort(port) && (r.socks || r.remotePort != "")
    ensures Fill(lib, parts, i, r) == Ok(r.(localPort := port))
  {
    assert port == port + "";
    FillPort(lib, parts, i, r, port, "");
  }

  /** Two host parts that carry no protocol are filed as they stand. */
  lemma PlainHosts(lib: Library, r: Remote)
    requires Sound(lib) && Shape(lib, r) && !r.socks && !r.stdio
    requires !HasProto(r.remoteHost) && !HasProto(r.localHost) && r.localHost != "stdio"
    ensures FileFour(lib, r)
      == Ok(AfterRemotePort(r).(remoteHost := r.remoteHost, localHost := r.localHost, localPort := r.localPort))
  {
    assert r.remoteHost != "";
    hide IsPort, HasProto, IsProto, IsToken;
  }

  /** What filing a host part can do to the two hosts. */
  lemma HostsAfter(lib: Library, r: Remote, host: string)
    requires !r.socks && FileHost(lib, r, host).Ok?
    ensures var x, h := FileHost(lib, r, host).value, L4Proto(lib, host).0;
            && !x.socks && x.stdio == r.stdio
            && (|| (x.localHost == r.localHost && x.remoteHost == r.remoteHost)
                || (r.remoteHost == "" && x.remoteHost == h && x.localHost == r.localHost)
                || (r.remoteHost != "" && x.localHost == h && x.remoteHost == r.remoteHost))
            && (h != "" && !IsPort(h) ==>
              x.localHost != r.localHost || x.remoteHost != r.remoteHost || r.localHost == h)
  {
    hide L4Proto, IsPort;
  }

  lemma FinishHosts(r: Remote)
    requires !r.socks && Finish(r).Ok?
    ensures var x := Finish(r).value;
            && x.stdio == r.stdio
            && x.localHost == (if r.localHost == "" then "0.0.0.0" else r.localHost)
            && x.remoteHost == (if r.remoteHost == "" then "127.0.0.1" else r.remoteHost)
  {
  }

  /** A host that ends in a protocol never comes back: what is filed is shorter, or a default. */
  lemma ProtoHosts(lib: Library, r: Remote)
    requires Sound(lib) && Shape(lib, r) && !r.socks && !r.stdio
    requires HasProto(r.remoteHost) || HasProto(r.localHost)
    requires FileFour(lib, r).Ok? && Finish(FileFour(lib, r).value).Ok?
    ensures Finish(FileFour(lib, r).value).value != r
  {
    DefaultsAreGood(lib);
    var lh, rh := r.localHost, r.remoteHost;
    assert HasProto(rh) ==> |L4Proto(lib, rh).0| < |rh|;
    assert HasProto(lh) ==> |L4Proto(lib, lh).0| < |lh|;
    assert !HasProto(rh) ==> L4Proto(lib, rh).0 == rh && rh != "" && !IsPort(rh);
    assert L4Proto(lib, "0.0.0.0").0 == "0.0.0.0";
    hide L4Proto, IsPort, HasProto, IsProto, IsToken, FileHost, Finish;
    var before := FileHost(lib, AfterRemotePort(r), rh).value;
    HostsAfter(lib, AfterRemotePort(r), rh);
    var r1 := before.(localPort := r.localPort);
    if lh != "stdio" {
      HostsAfter(lib, r1, lh);
    }
    FinishHosts(FileFour(lib, r).value);
  }

  /** Everything `Unambiguous` asks, except that a host "R" must not stand first unless reversed. */
  predicate Readable(r: Remote) {
    Unambiguous(r.(reverse := true))
  }

  function Finished(res: Result<Remote, DecodeError>): Result<Remote, DecodeError> {
    match res
    case Ok(r) => Finish(r)
    case Err(e) => Err(e)
  }

  lemma FourReadBack(lib: Library, r: Remote)
    requires Sound(lib) && Shape(lib, r) && !r.socks && !r.stdio
    ensures DecodeTokens(lib, PrintedTokens(r), r.reverse) == Ok(r) <==> Readable(r)
  {
    assert DecodeTokens(lib, PrintedTokens(r), r.reverse) == Finished(FileFour(lib, r)) by {
      FillFour(lib, r);
      hide FillDown, FileFour, Finish, Shape;
    }
    hide DecodeTokens;
    if HasProto(r.remoteHost) || HasProto(r.localHost) {
      FourWithProto(lib, r);
    } else if r.localHost == "stdio" {
      FourWithStdio(lib, r);
    } else {
      FourPlain(lib, r);
    }
    hide FileFour, Finished, HasProto, Shape;
  }

  lemma FourWithProto(lib: Library, r: Remote)
    requires Sound(lib) && Shape(lib, r) && !r.socks && !r.stdio && (HasProto(r.remoteHost) || HasProto(r.localHost))
    ensures Finished(FileFour(lib, r)) != Ok(r)
  {
    if Finished(FileFour(lib, r)).Ok? {
      ProtoHosts(lib, r);
    }
    hide FileFour, HasProto, Finish;
  }

  /** A local host "stdio" is read as the standard streams. */
  lemma FourWithStdio(lib: Library, r: Remote)
    requires r.localHost == "stdio" && !r.stdio
    ensures Finished(FileFour(lib, r)) != Ok(r)
  {
    hide FileHost;
  }

  lemma FourPlain(lib: Library, r: Remote)
    requires Sound(lib) && Shape(lib, r) && !r.socks && !r.stdio
    requires !HasProto(r.remoteHost) && !HasProto(r.localHost) && r.localHost != "stdio"
    ensures Finished(FileFour(lib, r)) == Ok(r) <==> r.remoteProto == "tcp" || r.remoteProto == "udp"
  {
    PlainHosts(lib, r);
    assert r.localHost != "" && r.remoteHost != "";
    hide FileFour, HasProto, IsPort, IsToken;
  }

  // ---------- The stdio and socks forms ----------

  lemma StdioSocksReadBack(lib: Library, r: Remote)
    requires Sound(lib) && Shape(lib, r) && r.socks && r.stdio
    ensures DecodeTokens(lib, PrintedTokens(r), r.reverse) == Ok(r) <==> Readable(r)
  {
    hide IsPort, HasProto, GoodHost;
    var parts := ["stdio", "socks"];
    var r1 := Blank(false).(socks := true);
    DownOne(lib, parts, 2, Blank(false), Ok(r1));
    DownOne(lib, parts, 1, r1, Ok(r1.(stdio := true)));
    hide FillDown, Fill, HasProto, IsPort, GoodHost;
  }

  /** Without ports, the printed form has a host where the decoder wants a port first. */
  lemma StdioAloneReadBack(lib: Library, r: Remote)
    requires Sound(lib) && Shape(lib, r) && !r.socks && r.stdio && r.remotePort == ""
    ensures DecodeTokens(lib, PrintedTokens(r), r.reverse) != Ok(r)
  {
    var parts := PrintedTokens(r);
    hide L4Proto, HasProto, IsPort;
    var before := FileHost(lib, Blank(false), r.remoteHost);
    if parts[1] == "socks" {
      var r1 := Blank(false).(socks := true);
      DownOne(lib, parts, 2, Blank(false), Ok(r1));
      DownOne(lib, parts, 1, r1, Ok(r1.(stdio := true)));
    } else {
      DownOne(lib, parts, 2, Blank(false), before);
      if before.Ok? {
        assert IsPort(before.value.remotePort);
        assert before.value.remotePort != "" by { NoPortIsEmpty(); }
        DownOne(lib, parts, 1, before.value, Ok(before.value.(stdio := true)));
      }
    }
  }

  lemma NoPortIsEmpty()
    ensures !IsPort("")
  {
  }

  function WithStdio(res: Result<Remote, DecodeError>): Result<Remote, DecodeError> {
    match res
    case Ok(r) => Ok(r.(stdio := true))
    case Err(e) => Err(e)
  }

  lemma FillStdio(lib: Library, parts: seq<string>, r: Remote)
    requires |parts| == 3 && parts[0] == "stdio"
    ensures FillDown(lib, parts, 2, r) == WithStdio(FileHost(lib, r, parts[1]))
  {
    hide Place, NoteProto, L4Proto;
    var before := FileHost(lib, r, parts[1]);
    DownOne(lib, parts, 2, r, before);
    if before.Ok? {
      DownOne(lib, parts, 1, before.value, Ok(before.value.(stdio := true)));
    }
  }

  lemma StdioReadBack(lib: Library, r: Remote)
    requires Sound(lib) && Shape(lib, r) && !r.socks && r.stdio && r.remotePort != ""
    ensures DecodeTokens(lib, PrintedTokens(r), r.reverse) == Ok(r) <==> Readable(r)
  {
    var parts := PrintedTokens(r);
    FillRemotePort(lib, r, parts);
    var a := AfterRemotePort(r);
    var before := FileHost(lib, a, r.remoteHost);
    FillStdio(lib, parts, a);
    hide FillDown, FileHost, Finish;
    assert DecodeTokens(lib, parts, r.reverse) == Finished(WithStdio(before));
    hide DecodeTokens;
    if HasProto(r.remoteHost) {
      StdioWithProto(lib, r);
    } else {
      StdioPlain(lib, r);
    }
    hide FileHost, HasProto, Shape, Finished;
  }

  lemma StdioWithProto(lib: Library, r: Remote)
    requires Sound(lib) && Shape(lib, r) && !r.socks && HasProto(r.remoteHost) && r.remotePort != ""
    ensures var before := FileHost(lib, AfterRemotePort(r), r.remoteHost);
            Finished(WithStdio(before)) != Ok(r)
  {
    var before := FileHost(lib, AfterRemotePort(r), r.remoteHost);
    assert |L4Proto(lib, r.remoteHost).0| < |r.remoteHost|;
    assert r.remoteHost != "127.0.0.1" by { DefaultsAreGood(lib); }
    hide L4Proto, HasProto, IsPort, FileHost, IsProto, IsToken, Finish;
    if before.Ok? && Finish(before.value.(stdio := true)).Ok? {
      HostsAfter(lib, AfterRemotePort(r), r.remoteHost);
      FinishHosts(before.value.(stdio := true));
    }
  }

  lemma StdioPlain(lib: Library, r: Remote)
    requires Sound(lib) && Shape(lib, r) && !r.socks && r.stdio && !HasProto(r.remoteHost) && r.remotePort != ""
    ensures var before := FileHost(lib, AfterRemotePort(r), r.remoteHost);
            Finished(WithStdio(before)) == Ok(r) <==> Readable(r)
  {
    assert FileHost(lib, AfterRemotePort(r), r.remoteHost) == Ok(AfterRemotePort(r).(remoteHost := r.remoteHost)) by {
      hide IsPort, HasProto, IsToken;
    }
    assert r.remoteHost != "";
    hide FileHost, HasProto, IsPort, IsToken;
  }

  lemma SocksReadBack(lib: Library, r: Remote)
    requires Sound(lib) && Shape(lib, r) && r.socks && !r.stdio
    ensures DecodeTokens(lib, PrintedTokens(r), r.reverse) == Ok(r) <==> Readable(r)
  {
    var parts := PrintedTokens(r);
    var r1 := Blank(r.reverse).(socks := true);
    var last := FileLocal(lib, r1, r.localHost, r.localPort);
    assert DecodeTokens(lib, parts, r.reverse) == Finished(last) by {
      DownOne(lib, parts, 3, Blank(r.reverse), Ok(r1));
      FillLocal(lib, parts, r1);
      hide L4Proto, HasProto, IsPort, FileLocal, IsProto, GoodHost, Finish, FillDown;
    }
    hide DecodeTokens;
    SocksFinished(lib, r);
    hide FileLocal, Finished, Shape;
  }

  lemma SocksFinished(lib: Library, r: Remote)
    requires Sound(lib) && Shape(lib, r) && r.socks && !r.stdio
    ensures Finished(FileLocal(lib, Blank(r.reverse).(socks := true), r.localHost, r.localPort)) == Ok(r) <==>
      Readable(r)
  {
    assert r.localHost != "" && r.localPort != "" by { NoPortIsEmpty(); }
    var r1 := Blank(r.reverse).(socks := true, localPort := r.localPort);
    if r.localHost == "stdio" {
      hide FileHost, HasProto, GoodHost, IsPort, IsProto;
    } else if HasProto(r.localHost) {
      DefaultsAreGood(lib);
      if FileHost(lib, r1, r.localHost).Ok? {
        SocksHostAfter(lib, r1, r.localHost);
        OtherHost(r, FileHost(lib, r1, r.localHost).value);
      }
      hide FileHost, HasProto, Shape, Finish;
    } else {
      SocksPlainHost(lib, r1, r.localHost);
      assert Finish(r1.(localHost := r.localHost)) == Ok(r);
      hide FileHost, HasProto, Shape, Finish;
    }
  }

  /** With another local host, or none to be defaulted to this one, the record comes out different. */
  lemma OtherHost(r: Remote, x: Remote)
    requires x.socks && x.localHost != r.localHost && (x.localHost == "" ==> r.localHost != "127.0.0.1")
    ensures Finish(x) != Ok(r)
  {
  }

  lemma SocksPlainHost(lib: Library, r: Remote, host: string)
    requires r.socks && GoodHost(lib, host) && !HasProto(host)
    ensures FileHost(lib, r, host) == Ok(r.(localHost := host))
  {
    hide HasProto, IsPort, IsToken;
  }

  /** After "socks", a host part that ends in a protocol is filed shorter, or as a port. */
  lemma SocksHostAfter(lib: Library, r: Remote, host: string)
    requires r.socks && r.localHost == "" && HasProto(host) && FileHost(lib, r, host).Ok?
    ensures var x := FileHost(lib, r, host).value;
            x.socks && x.localHost != host && (x.localHost == "" || |x.localHost| < |host|)
  {
    assert |L4Proto(lib, host).0| < |host|;
    hide L4Proto, HasProto, IsPort;
  }

  // ---------- The round trip ----------

  predicate Canonical(lib: Library, r: Remote) {
    Shape(lib, r) && Unambiguous(r)
  }

  lemma ReadBack(lib: Library, r: Remote)
    requires Sound(lib) && Shape(lib, r)
    ensures DecodeTokens(lib, PrintedTokens(r), r.reverse) == Ok(r) <==> Readable(r)
  {
    hide DecodeTokens, PrintedTokens, Shape, HasProto;
    if r.socks {
      if r.stdio { StdioSocksReadBack(lib, r); } else { SocksReadBack(lib, r); }
    } else if r.stdio {
      if r.remotePort == "" {
        StdioAloneReadBack(lib, r);
      } else {
        StdioReadBack(lib, r);
      }
    } else {
      FourReadBack(lib, r);
    }
  }

  lemma ReversedRoundTrip(lib: Library, r: Remote)
    requires Sound(lib) && Shape(lib, r) && r.reverse
    ensures Decode(lib, Encode(r)) == Ok(r) <==> Unambiguous(r)
  {
    BodyTokens(lib, r);
    ReadBack(lib, r);
    assert r == r.(reverse := true) && Encode(r)[2..] == Body(r);
    hide DecodeTokens, PrintedTokens, Shape, HasProto, Tokens, Body, Unambiguous;
  }

  lemma ForwardRoundTrip(lib: Library, r: Remote)
    requires Sound(lib) && Shape(lib, r) && !r.reverse
    ensures Decode(lib, Encode(r)) == Ok(r) <==> Unambiguous(r)
  {
    assert Readable(r) && !(!r.stdio && r.localHost == "R") <==> Unambiguous(r) by {
      hide Shape, HasProto;
    }
    hide DecodeTokens, PrintedTokens, Shape, Tokens, Body, Readable, Unambiguous;
    BodyTokens(lib, r);
    ReadBack(lib, r);
    if HasReverse(Body(r)) && Decode(lib, Body(r)).Ok? {
      DecodedShape(lib, Body(r));
    }
  }

  lemma ShapedRoundTrip(lib: Library, r: Remote)
    requires Sound(lib) && Shape(lib, r)
    ensures Decode(lib, Encode(r)) == Ok(r) <==> Unambiguous(r)
  {
    hide *;
    if r.reverse {
      ReversedRoundTrip(lib, r);
    } else {
      ForwardRoundTrip(lib, r);
    }
  }

  /** For every record whatever: printing it and decoding the text gives it back exactly when it is canonical. */
  lemma RoundTrip(lib: Library, r: Remote)
    requires Sound(lib)
    ensures Decode(lib, Encode(r)) == Ok(r) <==> Canonical(lib, r)
  {
    if Shape(lib, r) {
      ShapedRoundTrip(lib, r);
    } else if Decode(lib, Encode(r)).Ok? {
      DecodedShape(lib, Encode(r));
    }
  }

  /** For every text the decoder accepts: its record survives printing exactly when it is unambiguous. */
  lemma AcceptedRoundTrip(lib: Library, s: string)
    requires Sound(lib) && Decode(lib, s).Ok?
    ensures var r := Decode(lib, s).value; Decode(lib, Encode(r)) == Ok(r) <==> Unambiguous(r)
  {
    DecodedShape(lib, s);
    ShapedRoundTrip(lib, Decode(lib, s).value);
  }

  lemma UpperCaseText(lib: Library, port: string)
    requires Sound(lib) && IsPort(port)
    ensures var t := port + "/UDP";
            && IsToken(t) && !HasReverse(t) && t != "socks" && t != "stdio" && L4Proto(lib, t) == (port, "UDP")
  {
    PortLower(lib, port);
    PortThenProto(port, "UDP");
    assert port + "/UDP" == port + "/" + "UDP";
    hide IsPort, Lower, HasProto, IsToken, HasReverse;
  }

  /** The protocol is kept as written but printed only when it is "udp", so an upper-case one is lost. */
  lemma UpperCaseProtoIsLost(lib: Library, port: string)
    requires Sound(lib) && IsPort(port)
    ensures var res := Decode(lib, port + "/UDP");
            res.Ok? && res.value.remoteProto == "UDP" && Decode(lib, Encode(res.value)) != res
  {
    var t := port + "/UDP";
    UpperCaseText(lib, port);
    FirstToken(t, "");
    var filled := Blank(false).(remoteProto := "UDP", remotePort := port, localPort := port);
    assert Fill(lib, [t], 0, Blank(false)) == Ok(filled);
    hide IsPort, L4Proto, IsToken, Tokens, Fill, Encode;
    DownOne(lib, [t], 1, Blank(false), Ok(filled));
    assert Decode(lib, t) == Finish(filled);
    AcceptedRoundTrip(lib, t);
  }

  /** The single word "stdio" is accepted, without any port, and its printed form is not. */
  lemma StdioAloneIsLost(lib: Library)
    requires Sound(lib)
    ensures var res := Decode(lib, "stdio");
            res.Ok? && res.value.remotePort == "" && Decode(lib, Encode(res.value)) != res
  {
    WordTokens();
    FirstToken("stdio", "");
    DownOne(lib, ["stdio"], 1, Blank(false), Ok(Blank(false).(stdio := true)));
    hide IsPort, IsToken, Tokens;
    AcceptedRoundTrip(lib, "stdio");
  }

  // ---------- Short forms ----------

  /** The remote a host and two ports stand for. */
  function Plain(localPort: string, host: string, remotePort: string): Remote {
    Remote("0.0.0.0", localPort, "tcp", host, remotePort, "tcp", false, false, false)
  }

  /** A host that can stand in a short form, at its front too. */
  predicate PlainHost(lib: Library, h: string) {
    GoodHost(lib, h) && !HasProto(h) && h != "stdio" && h != "R"
  }

  /** The record after a last part that is a port. */
  function PortLast(p: string): Remote {
    Blank(false).(remotePort := p, localPort := p)
  }

  lemma PlacePort(lib: Library, p: string)
    requires IsPort(p)
    ensures Place(lib, NoteProto(Blank(false), ""), p) == Ok(PortLast(p))
  {
    hide IsPort;
  }

  lemma ReadRemotePort(lib: Library, parts: seq<string>, p: string)
    requires Sound(lib) && parts != [] && parts[|parts| - 1] == p && IsPort(p)
    ensures FillDown(lib, parts, |parts|, Blank(false)) == FillDown(lib, parts, |parts| - 1, PortLast(p))
  {
    hide *;
    assert p == p + "";
    FillPort(lib, parts, |parts| - 1, Blank(false), p, "");
    PlacePort(lib, p);
    DownOne(lib, parts, |parts|, Blank(false), Ok(PortLast(p)));
  }

  lemma ReadHost(lib: Library, parts: seq<string>, i: nat, r: Remote, h: string)
    requires i < |parts| - 1 && parts[i] == h && PlainHost(lib, h) && !r.socks && r.remotePort != ""
      && r.remoteHost == ""
    ensures Fill(lib, parts, i, r) == Ok(r.(remoteHost := h))
  {
    hide IsPort, IsToken, HasProto;
  }

  lemma NoReversePrefix(t: string, rest: string)
    requires IsToken(t) && t != "R"
    ensures !HasReverse(t + ":" + rest) && !HasReverse(t)
  {
    ReverseToken(t, rest);
    assert |t| >= 2 && t[0] != '[' ==> !Delimiter(t[1]);
  }

  /** `3000`: the port on every interface here, the same port of the exit side's own host there. */
  lemma PortAlone(lib: Library, p: string)
    requires Sound(lib) && IsPort(p)
    ensures Decode(lib, p) == Ok(Plain(p, "127.0.0.1", p))
  {
    PortText(p);
    PortDigits(p);
    FirstToken(p, "");
    NoReversePrefix(p, "");
    assert p != "";
    hide IsPort, Tokens, IsToken;
    ReadRemotePort(lib, [p], p);
    assert FillDown(lib, [p], 0, PortLast(p)) == Ok(PortLast(p));
  }

  /** `google.com:80`: the host's port, under the same number here. */
  lemma HostAndPort(lib: Library, h: string, p: string)
    requires Sound(lib) && PlainHost(lib, h) && IsPort(p)
    ensures Decode(lib, h + ":" + p) == Ok(Plain(p, h, p))
  {
    NoPortIsEmpty();
    assert h != "" && p != "";
    hide IsPort, Tokens, IsToken, HasReverse, HasProto, Fill, FillDown;
    PortText(p);
    FirstToken(h, p);
    FirstToken(p, "");
    NoReversePrefix(h, p);
    var parts := [h, p];
    assert Tokens(h + ":" + p) == parts;
    ReadRemotePort(lib, parts, p);
    ReadHost(lib, parts, 0, PortLast(p), h);
    DownOne(lib, parts, 1, PortLast(p), Ok(PortLast(p).(remoteHost := h)));
  }

  lemma ThreeTokens(lib: Library, lp: string, h: string, p: string)
    requires Sound(lib) && IsPort(lp) && PlainHost(lib, h) && IsPort(p)
    ensures var s := lp + ":" + (h + ":" + p); Tokens(s) == [lp, h, p] && !HasReverse(s)
  {
    PortText(p);
    PortText(lp);
    PortDigits(lp);
    assert lp != "R";
    hide IsPort, Tokens, IsToken, HasReverse, HasProto;
    FirstTwoTokens(lp, h, p);
    FirstToken(p, "");
    NoReversePrefix(lp, h + ":" + p);
  }

  lemma ThreeParts(lib: Library, lp: string, h: string, p: string)
    requires Sound(lib) && IsPort(lp) && PlainHost(lib, h) && IsPort(p)
    ensures DecodeTokens(lib, [lp, h, p], false) == Ok(Plain(lp, h, p))
  {
    NoPortIsEmpty();
    assert h != "" && p != "";
    hide IsPort, IsToken, HasProto, Fill;
    var parts, r1 := [lp, h, p], PortLast(p).(remoteHost := h);
    ReadRemotePort(lib, parts, p);
    ReadHost(lib, parts, 1, PortLast(p), h);
    ReadLocalPort(lib, parts, 0, r1, lp);
    DownOne(lib, parts, 2, PortLast(p), Ok(r1));
    DownOne(lib, parts, 1, r1, Ok(r1.(localPort := lp)));
  }

  /** `3000:google.com:80`: the host's port, under another number here. */
  lemma PortHostPort(lib: Library, lp: string, h: string, p: string)
    requires Sound(lib) && IsPort(lp) && PlainHost(lib, h) && IsPort(p)
    ensures Decode(lib, lp + ":" + (h + ":" + p)) == Ok(Plain(lp, h, p))
  {
    ThreeTokens(lib, lp, h, p);
    ThreeParts(lib, lp, h, p);
    hide DecodeTokens, Tokens, HasReverse;
  }
}
