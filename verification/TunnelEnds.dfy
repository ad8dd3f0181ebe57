/** The two ends of a tunnel: what a listener sends to name its target, and what the exit side makes of it. */
module TunnelEnds {
  import opened Wrappers
  import opened RemoteGrammar
  import opened RemoteRoundTrip
  import opened RemoteForms

  datatype Listener = StdioProxy | TcpProxy | UdpListener

  /** The proxy that serves a remote; none for a protocol it does not know. */
  function ListenerFor(r: Remote): Option<Listener> {
    if r.stdio then Some(StdioProxy)
    else if r.localProto == "tcp" then Some(TcpProxy)
    else if r.localProto == "udp" then Some(UdpListener)
    else None
  }

  /** The extra data of the channel the proxy opens. */
  function Sent(r: Remote, via: Listener): string {
    if via == UdpListener then RemoteAddr(r) + "/udp" else RemoteAddr(r)
  }

  datatype Service = Socks | Udp(hostPort: string) | Tcp(hostPort: string) | OutboundDenied | SocksDenied

  /** The exit side's dispatch on the extra data of an opened channel. */
  function Dispatch(lib: Library, outbound: bool, socksServer: bool, extra: string): Service {
    if !outbound then OutboundDenied
    else
      var (hostPort, proto) := L4Proto(lib, extra);
      if hostPort == "socks" then (if socksServer then Socks else SocksDenied)
      else if proto == "udp" then Udp(hostPort)
      else Tcp(hostPort)
  }

  lemma AddressText(lib: Library, r: Remote)
    requires Sound(lib) && Shape(lib, r) && !r.socks
    ensures var a := RemoteAddr(r);
            && !HasProto(a) && (exists i :: 0 <= i < |a| && a[i] == ':')
            && |a| >= 1 && (a[|a| - 1] == ':' || '0' <= a[|a| - 1] <= '9')
  {
    assert r.remoteHost != "" && (r.remotePort != "" ==> IsPort(r.remotePort));
    if r.remotePort != "" { PortDigits(r.remotePort); }
    hide Shape, IsPort, HasProto;
    var a, n := RemoteAddr(r), |r.remoteHost|;
    assert a == r.remoteHost + ":" + r.remotePort && a[n] == ':';
    assert a[|a| - 1] == if r.remotePort == "" then ':' else r.remotePort[|r.remotePort| - 1];
    NoProtoAtEnd(a);
  }

  lemma NoProtoAtEnd(a: string)
    requires a != [] && (a[|a| - 1] == ':' || '0' <= a[|a| - 1] <= '9')
    ensures !HasProto(a)
  {
    assert |a| >= 3 ==> a[|a| - 3..][2] == a[|a| - 1];
  }

  lemma UdpText(lib: Library, a: string)
    ensures L4Proto(lib, a + "/udp") == (Lower(lib, a), "udp")
  {
    var t := a + "/udp";
    assert t[..|t| - 4] == a && t[|t| - 4] == '/';
    assert t[|t| - 3..] == "udp";
  }

  /** A lower-cased address still has its colon, so it is not the word "socks". */
  lemma LoweredColon(lib: Library, a: string, i: nat)
    requires Sound(lib) && i < |a| && a[i] == ':'
    ensures Lower(lib, a) != "socks"
  {
    assert Lower(lib, a)[i] == ':';
    assert "socks"[0] != ':' && "socks"[1] != ':' && "socks"[2] != ':' && "socks"[3] != ':' && "socks"[4] != ':';
  }

  /**
   For every text the decoder accepts and every proxy that serves it, the exit side
   reads socks exactly for a socks remote, and otherwise udp exactly for a UDP
   listener, with the remote's own address (lower-cased over UDP).
   */
  lemma EndsAgree(lib: Library, s: string, socksServer: bool)
    requires Sound(lib) && Decode(lib, s).Ok?
    ensures var r := Decode(lib, s).value;
            var via := ListenerFor(r);
            via.Some? ==>
              Dispatch(lib, true, socksServer, Sent(r, via.value)) ==
                if r.socks then (if socksServer then Socks else SocksDenied)
                else if via.value == UdpListener then Udp(Lower(lib, RemoteAddr(r)))
                else Tcp(RemoteAddr(r))
  {
    DecodedShape(lib, s);
    var r := Decode(lib, s).value;
    hide Decode;
    if r.socks {
      assert !HasProto("socks");
    } else {
      AddressText(lib, r);
      var a := RemoteAddr(r);
      var i :| 0 <= i < |a| && a[i] == ':';
      LoweredColon(lib, a, i);
      UdpText(lib, a);
      assert a != "socks" by { assert a[|a| - 1] != 's'; }
    }
  }

  /**
   The address a user's access is tested on is the one the remote is then used for:
   the address listened on for a reverse remote, and what the exit side dials for a
   forward one (lower-cased over UDP); a socks remote names none.
   */
  lemma AccessNamesTheTarget(lib: Library, s: string, socksServer: bool)
    requires Sound(lib) && Decode(lib, s).Ok?
    ensures var r := Decode(lib, s).value;
            var via := ListenerFor(r);
            if r.reverse then UserAddr(r) == "R:" + Local(r)
            else if r.socks then UserAddr(r) == ":"
            else via.Some? ==>
              Dispatch(lib, true, socksServer, Sent(r, via.value)) ==
                if via.value == UdpListener then Udp(Lower(lib, UserAddr(r))) else Tcp(UserAddr(r))
  {
    EndsAgree(lib, s, socksServer);
    DecodedShape(lib, s);
    UserAddrText(lib, Decode(lib, s).value);
    hide *;
  }

  lemma UserAddrText(lib: Library, r: Remote)
    requires Shape(lib, r)
    ensures UserAddr(r) == if r.reverse then "R:" + Local(r) else if r.socks then ":" else RemoteAddr(r)
  {
    assert r.localHost != "" && !(r.stdio && r.reverse);
    assert if r.socks then r.remoteHost == r.remotePort == "" else r.remoteHost != "";
    hide Shape;
    if r.reverse {
      Concat3("R:", r.localHost, ":" + r.localPort);
      Concat3("R:" + r.localHost, ":", r.localPort);
      Concat3(r.localHost, ":", r.localPort);
    } else if r.socks {
      assert "" + ":" + "" == ":";
    }
  }

  lemma Concat3(a: string, b: string, c: string)
    ensures (a + b) + c == a + (b + c)
  {
  }

  /** A remote the decoder accepts is left without a listener exactly when its protocol is not written in lower case. */
  lemma NoListener(lib: Library, s: string)
    requires Sound(lib) && Decode(lib, s).Ok?
    ensures var r := Decode(lib, s).value;
            ListenerFor(r).None? <==> !r.stdio && r.remoteProto != "tcp" && r.remoteProto != "udp"
  {
    DecodedShape(lib, s);
  }

  /** A server that accepts no outbound connections turns every channel away, whatever it asks for. */
  lemma NothingWithoutOutbound(lib: Library, socksServer: bool, extra: string)
    ensures Dispatch(lib, false, socksServer, extra) == OutboundDenied
    ensures Dispatch(lib, true, socksServer, extra) != OutboundDenied
  {
  }

  /**
   By the decoded record alone: over UDP goes a remote with protocol udp that is not on
   the standard streams, over TCP every other one that is not socks.
   */
  lemma EndsByProtocol(lib: Library, s: string, socksServer: bool)
    requires Sound(lib) && Decode(lib, s).Ok? && ListenerFor(Decode(lib, s).value).Some?
    ensures var r := Decode(lib, s).value;
            var service := Dispatch(lib, true, socksServer, Sent(r, ListenerFor(r).value));
            service ==
              if r.socks then (if socksServer then Socks else SocksDenied)
              else if !r.stdio && r.remoteProto == "udp" then Udp(Lower(lib, r.remoteHost + ":" + r.remotePort))
              else Tcp(r.remoteHost + ":" + r.remotePort)
  {
    hide *;
    var r := Decode(lib, s).value;
    EndsAgree(lib, s, socksServer);
    DecodedShape(lib, s);
    ListenerByProtocol(lib, s);
    if !r.socks {
      RemoteAddrText(lib, r);
    }
  }

  lemma RemoteAddrText(lib: Library, r: Remote)
    requires Shape(lib, r) && !r.socks
    ensures RemoteAddr(r) == r.remoteHost + ":" + r.remotePort
  {
    assert r.remoteHost != "";
  }

  /** Which listener a decoded remote gets. */
  lemma ListenerByProtocol(lib: Library, s: string)
    requires Sound(lib) && Decode(lib, s).Ok?
    ensures var r := Decode(lib, s).value;
            ListenerFor(r) ==
              if r.stdio then Some(StdioProxy)
              else if r.remoteProto == "tcp" then Some(TcpProxy)
              else if r.remoteProto == "udp" then Some(UdpListener)
              else None
  {
    DecodedShape(lib, s);
  }

  /** `3000:google.com:80` reaches the host's TCP port, and with `/udp` behind it its UDP port, in lower case. */
  lemma TextReaches(lib: Library, lp: string, h: string, p: string, socksServer: bool)
    requires Sound(lib) && IsPort(lp) && PlainHost(lib, h) && IsPort(p)
    ensures var tcp, udp := lp + ":" + (h + ":" + p), lp + ":" + (h + ":" + (p + "/udp"));
            && Decode(lib, tcp).Ok? && Decode(lib, udp).Ok?
            && var r, q := Decode(lib, tcp).value, Decode(lib, udp).value;
            && ListenerFor(r).Some? && ListenerFor(q).Some?
            && Dispatch(lib, true, socksServer, Sent(r, ListenerFor(r).value)) == Tcp(h + ":" + p)
            && Dispatch(lib, true, socksServer, Sent(q, ListenerFor(q).value)) == Udp(Lower(lib, h + ":" + p))
  {
    var tcp, udp := lp + ":" + (h + ":" + p), lp + ":" + (h + ":" + (p + "/udp"));
    assert lp + "" == lp && p + "" == p;
    PortHostPortOver(lib, lp, "", h, p, "");
    PortHostPortOver(lib, lp, "", h, p, "/udp");
    hide Decode, Dispatch, Lower, Sent, IsPort, PlainHost, RemoteAddr;
    EndsByProtocol(lib, tcp, socksServer);
    EndsByProtocol(lib, udp, socksServer);
  }
}
