// What the parsed messages mean, said of their fields and not of the parsers: a header's parent, the peers a list of
// addresses names, and the survey of a chain from the bytes of a reply (src/p2p.rs, BIP155).
module Messages {
  import opened Prelude
  import opened Peers
  import opened ChainSurvey
  import opened Wire

  // ---- Headers ----

  // The six fields of a block header.
  datatype Header = Header(version: seq<byte>, parent: Hash, merkle: Hash, time: seq<byte>, bits: seq<byte>, nonce: seq<byte>)

  predicate Shaped(h: Header) { |h.version| == 4 && |h.time| == 4 && |h.bits| == 4 && |h.nonce| == 4 }

  function HeaderBytes(h: Header): seq<byte> { h.version + h.parent + h.merkle + h.time + h.bits + h.nonce }

  function AllBytes(headers: seq<Header>): seq<seq<byte>> {
    seq(|headers|, i requires 0 <= i < |headers| => HeaderBytes(headers[i]))
  }

  // A header is read as its hash and its parent.
  lemma HeaderFields(blockHash: seq<byte> -> Hash, h: Header)
    requires Shaped(h)
    ensures |HeaderBytes(h)| == 80
    ensures HeaderOf(blockHash, HeaderBytes(h)).hash == blockHash(HeaderBytes(h))
    ensures HeaderOf(blockHash, HeaderBytes(h)).prev == h.parent
  {
    var rest := h.merkle + h.time + h.bits + h.nonce;
    assert HeaderBytes(h) == h.version + h.parent + rest;
    assert HeaderBytes(h)[4..36] == h.parent;
  }

  function HeadersMessage(headers: seq<Header>, after: seq<byte>): seq<byte> {
    Varint(|headers|) + EncodeHeaders(AllBytes(headers)) + after
  }

  // The first 2000 headers of a message arrive, each as its hash and its parent, in order.
  lemma HeadersArrive(blockHash: seq<byte> -> Hash, headers: seq<Header>, after: seq<byte>)
    requires (forall i | 0 <= i < |headers| :: Shaped(headers[i])) && |headers| < 0x1_0000_0000_0000_0000
    ensures var out := ParseHeaders(blockHash, HeadersMessage(headers, after));
      && |out| == (if |headers| < 2000 then |headers| else 2000)
      && forall i | 0 <= i < |out| ::
           out[i].hash == blockHash(HeaderBytes(headers[i])) && out[i].prev == headers[i].parent
  {
    forall i | 0 <= i < |headers| ensures |AllBytes(headers)[i]| == 80 { HeaderFields(blockHash, headers[i]); }
    HeadersRoundTrip(blockHash, AllBytes(headers), after);
    var out := ParseHeaders(blockHash, HeadersMessage(headers, after));
    forall i | 0 <= i < |out| ensures out[i].hash == blockHash(HeaderBytes(headers[i])) && out[i].prev == headers[i].parent {
      HeaderFields(blockHash, headers[i]);
    }
  }

  // These headers are the peer's blocks base+1, base+2, ..., at most 2000 of them.
  ghost predicate Continue(blockHash: seq<byte> -> Hash, theirs: seq<Hash>, base: nat, headers: seq<Header>) {
    && base < |theirs|
    && |headers| == (if |theirs| - base - 1 < 2000 then |theirs| - base - 1 else 2000)
    && forall i | 0 <= i < |headers| ::
         && Shaped(headers[i]) && headers[i].parent == theirs[base + i]
         && blockHash(HeaderBytes(headers[i])) == theirs[base + 1 + i]
  }

  // An honest reply as bytes is read as the honest reply.
  lemma ReplyArrives(blockHash: seq<byte> -> Hash, theirs: seq<Hash>, base: nat, headers: seq<Header>, after: seq<byte>)
    requires Continue(blockHash, theirs, base, headers)
    ensures ParseHeaders(blockHash, HeadersMessage(headers, after)) == HeadersFrom(theirs, base)
  {
    HeadersArrive(blockHash, headers, after);
    var out, reply := ParseHeaders(blockHash, HeadersMessage(headers, after)), HeadersFrom(theirs, base);
    assert |out| == |reply|;
    forall i | 0 <= i < |out| ensures out[i] == reply[i] {}
  }

  lemma {:induction false} ForkPointInside(theirs: seq<Hash>, locator: seq<Hash>)
    requires theirs != []
    ensures ForkPoint(theirs, locator) < |theirs|
  {
    if locator != [] && !(exists i :: 0 <= i < |theirs| && theirs[i] == locator[0]) {
      ForkPointInside(theirs, locator[1..]);
    }
  }

  // The survey from the bytes: an honest peer that answers the full locator with the headers above its newest shared
  // entry is placed at its own block if and only if it has reached the reference height and shares the anchor floor.
  lemma BytesPlace(blockHash: seq<byte> -> Hash, fetch: int -> Option<Hash>, ours: seq<Hash>, theirs: seq<Hash>, tip: int,
                   headers: seq<Header>, after: seq<byte>)
    requires tip > LOCATOR_START_LAG && |ours| == tip + 1 && theirs != []
    requires Answers(fetch, ours) && Coherent(ours, theirs)
    requires Continue(blockHash, theirs, ForkPoint(theirs, Hashes(Fetched(fetch, Heights(tip)))), headers)
    ensures PeerHashAt(ParseHeaders(blockHash, HeadersMessage(headers, after)), Fetched(fetch, Heights(tip)), tip - 6)
         == if tip - 6 < |theirs| && Shares(ours, theirs, AnchorFloor(tip)) then HashHex(theirs[tip - 6]) else ""
  {
    ReplyArrives(blockHash, theirs, ForkPoint(theirs, Hashes(Fetched(fetch, Heights(tip)))), headers, after);
    SurveyPlaces(fetch, ours, theirs, tip);
  }

  // ---- Gossip (BIP155) ----

  // An address by what it is, and any other network or length.
  datatype Address = Ip4(octets: seq<byte>) | Ip6(octets: seq<byte>) | Tor3(key: seq<byte>)
                   | Elsewhere(network: byte, addr: seq<byte>)

  datatype Gossip = Gossip(time: seq<byte>, services: nat, address: Address, port: nat)

  predicate GossipShaped(g: Gossip) {
    && |g.time| == 4 && g.services < 0x1_0000_0000_0000_0000 && g.port < 0x1_0000
    && match g.address
       case Ip4(octets) => |octets| == 4
       case Ip6(octets) => |octets| == 16
       case Tor3(key) => |key| == 32
       case Elsewhere(network, addr) => |addr| <= 512 && (network, |addr|) !in {(1, 4), (2, 16), (4, 32)}
  }

  // As BIP155 numbers the networks.
  function AsRecord(g: Gossip): AddrRecord {
    match g.address
    case Ip4(octets) => AddrRecord(g.time, g.services, 1, octets, g.port)
    case Ip6(octets) => AddrRecord(g.time, g.services, 2, octets, g.port)
    case Tor3(key) => AddrRecord(g.time, g.services, 4, key, g.port)
    case Elsewhere(network, addr) => AddrRecord(g.time, g.services, network, addr, g.port)
  }

  function AsRecords(gossip: seq<Gossip>): seq<AddrRecord> {
    seq(|gossip|, i requires 0 <= i < |gossip| => AsRecord(gossip[i]))
  }

  predicate AllShaped(gossip: seq<Gossip>) { forall i | 0 <= i < |gossip| :: GossipShaped(gossip[i]) }

  // The peer named, on its own port or the default one: an IP address as itself, a Tor key by its host, nothing else.
  function Named(onionHost: seq<byte> -> Option<string>, defaultPort: nat, g: Gossip): Option<Peer> {
    var port := if g.port > 0 then g.port else defaultPort;
    match g.address
    case Ip4(octets) => Some(Clearnet(SocketAddr(V4(octets), port)))
    case Ip6(octets) => Some(Clearnet(SocketAddr(V6(octets), port)))
    case Tor3(key) => if onionHost(key).Some? then Some(Onion(onionHost(key).value, port)) else None
    case Elsewhere(_, _) => None
  }

  function AllNamed(onionHost: seq<byte> -> Option<string>, defaultPort: nat, gossip: seq<Gossip>): seq<Peer> {
    if gossip == [] then []
    else
      var rest := AllNamed(onionHost, defaultPort, gossip[1..]);
      match Named(onionHost, defaultPort, gossip[0])
      case Some(p) => [p] + rest
      case None => rest
  }

  lemma RecordShaped(g: Gossip)
    requires GossipShaped(g)
    ensures WellFormedRecord(AsRecord(g))
  {}

  lemma DialsNamed(onionHost: seq<byte> -> Option<string>, defaultPort: nat, g: Gossip)
    requires GossipShaped(g)
    ensures Dialable(onionHost, defaultPort, AsRecord(g))
         == match Named(onionHost, defaultPort, g) case Some(p) => [p] case None => []
  {
    if g.address.Elsewhere? {
      assert (g.address.network, |g.address.addr|) !in {(1, 4), (2, 16), (4, 32)};
    }
  }

  lemma {:induction false} DialsAllNamed(onionHost: seq<byte> -> Option<string>, defaultPort: nat, gossip: seq<Gossip>)
    requires AllShaped(gossip)
    ensures Dialables(onionHost, defaultPort, AsRecords(gossip)) == AllNamed(onionHost, defaultPort, gossip)
  {
    if gossip != [] {
      DialsNamed(onionHost, defaultPort, gossip[0]);
      DialsAllNamed(onionHost, defaultPort, gossip[1..]);
      assert AsRecords(gossip)[1..] == AsRecords(gossip[1..]);
    }
  }

  // Of an addrv2 message, whatever bytes follow, exactly the peers the first 1000 addresses name arrive, in order.
  lemma GossipArrives(onionHost: seq<byte> -> Option<string>, defaultPort: nat, gossip: seq<Gossip>, after: seq<byte>)
    requires AllShaped(gossip) && |gossip| < 0x1_0000_0000_0000_0000
    ensures AllWellFormed(AsRecords(gossip))
    ensures ParseAddrV2(onionHost, defaultPort, Varint(|gossip|) + EncodeAll(AsRecords(gossip)) + after)
         == AllNamed(onionHost, defaultPort, gossip[..if |gossip| < 1000 then |gossip| else 1000])
  {
    forall i | 0 <= i < |gossip| ensures WellFormedRecord(AsRecords(gossip)[i]) { RecordShaped(gossip[i]); }
    var n := if |gossip| < 1000 then |gossip| else 1000;
    AddrV2RoundTrip(onionHost, defaultPort, AsRecords(gossip), after);
    assert AsRecords(gossip)[..n] == AsRecords(gossip[..n]);
    DialsAllNamed(onionHost, defaultPort, gossip[..n]);
  }

  // A record whose address is announced longer than 512 bytes cannot be read, and the list ends before it.
  lemma TooLongStops(data: seq<byte>, pos: nat, time: seq<byte>, services: nat, network: byte, length: nat)
    requires |time| == 4 && services < 0x1_0000_0000_0000_0000 && 512 < length < 0x1_0000_0000_0000_0000
    requires At(data, pos, time + Varint(services) + [network] + Varint(length))
    ensures ReadRecord(data, pos) == Eof
    ensures forall count: nat :: ReadRecords(data, pos, count) == []
  {
    AtParts(data, pos, time + Varint(services) + [network], Varint(length));
    AtParts(data, pos, time + Varint(services), [network]);
    AtParts(data, pos, time, Varint(services));
    VarintAt(data, pos + 4, services);
    VarintAt(data, pos + 4 + |Varint(services)| + 1, length);
  }

  // ---- Legacy gossip ----

  datatype LegacyGossip = LegacyGossip(time: seq<byte>, services: seq<byte>, ip: Ip, port: nat)

  const MAPPED: seq<byte> := [0, 0, 0, 0, 0, 0, 0, 0, 0, 0, 0xFF, 0xFF]

  predicate LegacyShaped(g: LegacyGossip) {
    && |g.time| == 4 && |g.services| == 8 && g.port < 0x1_0000
    && match g.ip
       case V4(octets) => |octets| == 4
       case V6(octets) => |octets| == 16 && octets[..12] != MAPPED
  }

  // IPv4 is sent as mapped IPv6.
  function AsLegacy(g: LegacyGossip): LegacyRecord {
    LegacyRecord(g.time, g.services, if g.ip.V4? then MAPPED + g.ip.octets else g.ip.octets, g.port)
  }

  function AsLegacies(gossip: seq<LegacyGossip>): seq<LegacyRecord> {
    seq(|gossip|, i requires 0 <= i < |gossip| => AsLegacy(gossip[i]))
  }

  lemma LegacyNamed(defaultPort: nat, g: LegacyGossip)
    requires LegacyShaped(g)
    ensures WellFormedLegacy(AsLegacy(g))
    ensures LegacyPeer(defaultPort, AsLegacy(g).ip, AsLegacy(g).port)
         == Clearnet(SocketAddr(g.ip, if g.port > 0 then g.port else defaultPort))
  {
    if g.ip.V4? {
      assert AsLegacy(g).ip[..12] == MAPPED && AsLegacy(g).ip[12..] == g.ip.octets;
    }
  }

  // Of a legacy message, the first 1000 addresses arrive, each as the address sent, on its own port or the default one.
  lemma LegacyArrives(defaultPort: nat, gossip: seq<LegacyGossip>, after: seq<byte>)
    requires (forall i | 0 <= i < |gossip| :: LegacyShaped(gossip[i])) && |gossip| < 0x1_0000_0000_0000_0000
    ensures AllLegacy(AsLegacies(gossip))
    ensures var out := ParseAddr(defaultPort, Varint(|gossip|) + EncodeLegacies(AsLegacies(gossip)) + after);
      && |out| == (if |gossip| < 1000 then |gossip| else 1000)
      && forall i | 0 <= i < |out| ::
           out[i] == Clearnet(SocketAddr(gossip[i].ip, if gossip[i].port > 0 then gossip[i].port else defaultPort))
  {
    forall i | 0 <= i < |gossip| ensures WellFormedLegacy(AsLegacies(gossip)[i]) { LegacyNamed(defaultPort, gossip[i]); }
    AddrRoundTrip(defaultPort, AsLegacies(gossip), after);
    var out := ParseAddr(defaultPort, Varint(|gossip|) + EncodeLegacies(AsLegacies(gossip)) + after);
    forall i | 0 <= i < |out|
      ensures out[i] == Clearnet(SocketAddr(gossip[i].ip, if gossip[i].port > 0 then gossip[i].port else defaultPort))
    {
      LegacyNamed(defaultPort, gossip[i]);
    }
  }
}
