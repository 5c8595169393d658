// The peer a crawl can dial, the record kept of it, and the text form both are stored under
// (src/p2p.rs, src/node.rs).
module Peers {
  import opened Prelude
  import Decimal

  datatype Ip = V4(octets: seq<byte>) | V6(octets: seq<byte>)

  datatype SocketAddr = SocketAddr(ip: Ip, port: nat)

  datatype Peer = Clearnet(addr: SocketAddr) | Onion(host: string, port: nat)

  // `client` stands for the fields the model never looks into: protocol version, user agent,
  // services, start height, implementation, version and BIP-110 stance.
  datatype NodeInfo = NodeInfo(
    addr: string, depth: nat, client: string, chainHash: string, handshaked: bool,
    firstSeen: string, lastSeen: string, timesSeen: nat, online: bool, latency: Option<nat>)

  datatype Edge = Edge(from: string, to: string)

  // The loopback address that stands for our own node among the seeds.
  const PLACEHOLDER := Clearnet(SocketAddr(V4([127, 0, 0, 1]), 0))
  const PLACEHOLDER_TEXT := "127.0.0.1:0"

  // The standard library's text form of a socket address.
  datatype AddrText = AddrText(show: SocketAddr -> string, read: string -> Option<SocketAddr>) {
    // What the model takes from the standard library: reading inverts showing, and no socket address
    // contains the letter 'o' (its text is made of hexadecimal digits and punctuation).
    ghost predicate Lawful() {
      && (forall a: SocketAddr :: read(show(a)) == Some(a))
      && (forall s: string :: read(s).Some? ==> 'o' !in s)
      && show(PLACEHOLDER.addr) == PLACEHOLDER_TEXT
    }
  }

  predicate EndsWith(s: string, suffix: string) {
    |suffix| <= |s| && s[|s| - |suffix|..] == suffix
  }

  // Where the last ':' of s is, as `rsplit_once(':')` finds it.
  function LastColon(s: string): Option<nat> {
    if s == [] then None
    else if s[|s| - 1] == ':' then Some(|s| - 1)
    else LastColon(s[..|s| - 1])
  }

  lemma {:induction false} LastColonBounds(s: string)
    ensures LastColon(s).Some? ==> LastColon(s).value < |s|
  {
    if s != [] { LastColonBounds(s[..|s| - 1]); }
  }

  function Show(text: AddrText, p: Peer): string {
    match p
    case Clearnet(a) => text.show(a)
    case Onion(h, port) => h + ":" + Decimal.Show(port)
  }

  function Parse(text: AddrText, s: string, defaultPort: nat): Option<Peer> {
    match text.read(s)
    case Some(a) => Some(Clearnet(a))
    case None =>
      LastColonBounds(s);
      var split := LastColon(s);
      if split.Some? && EndsWith(s[..split.value], ".onion") && Decimal.ReadU16(s[split.value + 1..]).Some? then
        Some(Onion(s[..split.value], Decimal.ReadU16(s[split.value + 1..]).value))
      else if EndsWith(s, ".onion") then Some(Onion(s, defaultPort))
      else None
  }

  // Every peer the program builds: an onion host always ends in ".onion" and ports are 16 bits wide.
  predicate WellFormed(p: Peer) {
    p.Onion? ==> EndsWith(p.host, ".onion") && p.port < 0x1_0000
  }

  lemma {:induction false} LastColonAfter(h: string, digits: string)
    requires ':' !in digits
    ensures LastColon(h + ":" + digits) == Some(|h|)
  {
    var s := h + ":" + digits;
    if digits != [] {
      LastColonAfter(h, digits[..|digits| - 1]);
      assert s[..|s| - 1] == h + ":" + digits[..|digits| - 1];
    }
  }

  // Reading the text of a peer gives the peer back.
  lemma ParseShow(text: AddrText, p: Peer, defaultPort: nat)
    requires text.Lawful() && WellFormed(p)
    ensures Parse(text, Show(text, p), defaultPort) == Some(p)
  {
    if p.Onion? {
      var s := Show(text, p);
      Decimal.ShowIsDigits(p.port);
      Decimal.ReadU16Show(p.port);
      LastColonAfter(p.host, Decimal.Show(p.port));
      assert s[..|p.host|] == p.host && s[|p.host| + 1..] == Decimal.Show(p.port);
      assert ".onion"[1] == p.host[|p.host| - 6..][1] == s[|p.host| - 5];
      assert 'o' in s;
    }
  }

  lemma {:induction false} NoColon(s: string)
    requires ':' !in s
    ensures LastColon(s) == None
  {
    if s != [] { NoColon(s[..|s| - 1]); }
  }

  // An onion host without a port gets the default one.
  lemma BareOnion(text: AddrText, host: string, defaultPort: nat)
    requires text.Lawful() && EndsWith(host, ".onion") && ':' !in host
    ensures Parse(text, host, defaultPort) == Some(Onion(host, defaultPort))
  {
    NoColon(host);
    assert ".onion"[1] == host[|host| - 6..][1] == host[|host| - 5];
    assert 'o' in host;
  }

  // What is neither a socket address nor ends in an onion host, with or without a port, is no peer.
  lemma ParsedIs(text: AddrText, s: string, defaultPort: nat)
    requires defaultPort < 0x1_0000
    ensures match Parse(text, s, defaultPort)
      case Some(Clearnet(a)) => text.read(s) == Some(a)
      case Some(Onion(host, port)) =>
        && text.read(s).None? && EndsWith(host, ".onion") && port < 0x1_0000
        && ((host == s && port == defaultPort) ||
            (|host| < |s| && s[..|host| + 1] == host + ":" && Decimal.ReadU16(s[|host| + 1..]) == Some(port)))
      case None => text.read(s).None? && !EndsWith(s, ".onion")
  {
    LastColonIs(s);
  }

  lemma {:induction false} LastColonIs(s: string)
    ensures var i := LastColon(s); i.Some? ==> i.value < |s| && s[i.value] == ':'
  {
    if s != [] { LastColonIs(s[..|s| - 1]); }
  }

  lemma ShowInjective(text: AddrText, p: Peer, q: Peer)
    requires text.Lawful() && WellFormed(p) && WellFormed(q)
    requires Show(text, p) == Show(text, q)
    ensures p == q
  {
    ParseShow(text, p, 0);
    ParseShow(text, q, 0);
  }
}
