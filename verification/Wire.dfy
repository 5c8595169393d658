// The wire codecs of src/p2p.rs: CompactSize numbers, address lists and header lists.
module Wire {
  import opened Prelude
  import opened Peers
  import opened ChainSurvey

  // A cursor read: the value and where it ends, or the end of the data.
  datatype Read<T> = Got(value: T, pos: nat) | Eof

  const MAX_ADDR := 1000
  const MAX_FIELD := 512

  // ---- Fixed-width numbers ----

  function LeBytes(n: nat, k: nat): seq<byte> { if k == 0 then [] else [n % 256] + LeBytes(n / 256, k - 1) }

  function FromLe(data: seq<byte>): nat { if data == [] then 0 else data[0] + 256 * FromLe(data[1..]) }

  function Pow256(k: nat): nat { if k == 0 then 1 else 256 * Pow256(k - 1) }

  lemma {:induction false} LeRoundTrip(n: nat, k: nat)
    requires n < Pow256(k)
    ensures |LeBytes(n, k)| == k && FromLe(LeBytes(n, k)) == n
  {
    if k > 0 { LeRoundTrip(n / 256, k - 1); }
  }

  lemma {:induction false} FromLeBound(data: seq<byte>)
    ensures FromLe(data) < Pow256(|data|)
  {
    if data != [] { FromLeBound(data[1..]); }
  }

  lemma Pow256s()
    ensures Pow256(1) == 0x100 && Pow256(2) == 0x1_0000 && Pow256(4) == 0x1_0000_0000
    ensures Pow256(8) == 0x1_0000_0000_0000_0000
  {
    assert Pow256(2) == 0x1_0000;
    assert Pow256(4) == 0x1_0000_0000;
    assert Pow256(6) == 0x1_0000_0000_0000;
  }

  function ReadBytes(data: seq<byte>, pos: nat, n: nat): Read<seq<byte>> {
    if pos + n <= |data| then Got(data[pos..pos + n], pos + n) else Eof
  }

  // ---- CompactSize ----

  function Varint(n: nat): seq<byte> {
    if n < 0xFD then [n]
    else if n <= 0xFFFF then [0xFD] + LeBytes(n, 2)
    else if n <= 0xFFFF_FFFF then [0xFE] + LeBytes(n, 4)
    else [0xFF] + LeBytes(n, 8)
  }

  method WriteVarint(buf: seq<byte>, n: nat) returns (out: seq<byte>)
    ensures out == buf + Varint(n)
  {
    out := buf;
    if n < 0xFD {
      out := out + [n];
    } else if n <= 0xFFFF {
      out := out + [0xFD];
      out := out + LeBytes(n, 2);
    } else if n <= 0xFFFF_FFFF {
      out := out + [0xFE];
      out := out + LeBytes(n, 4);
    } else {
      out := out + [0xFF];
      out := out + LeBytes(n, 8);
    }
  }

  function ReadLe(data: seq<byte>, pos: nat, n: nat): Read<nat> {
    match ReadBytes(data, pos, n)
    case Got(b, next) => Got(FromLe(b), next)
    case Eof => Eof
  }

  function ReadVarint(data: seq<byte>, pos: nat): Read<nat> {
    if pos >= |data| then Eof
    else if data[pos] == 0xFF then ReadLe(data, pos + 1, 8)
    else if data[pos] == 0xFE then ReadLe(data, pos + 1, 4)
    else if data[pos] == 0xFD then ReadLe(data, pos + 1, 2)
    else Got(data[pos], pos + 1)
  }

  // Reading back what was written, wherever it stands, gives the number and ends right after it.
  lemma VarintRoundTrip(before: seq<byte>, n: nat, after: seq<byte>)
    requires n < 0x1_0000_0000_0000_0000
    ensures ReadVarint(before + Varint(n) + after, |before|) == Got(n, |before| + |Varint(n)|)
  {
    Pow256s();
    var data := before + Varint(n) + after;
    assert data[|before|..|before| + |Varint(n)|] == Varint(n);
    var k := if n < 0xFD then 0 else if n <= 0xFFFF then 2 else if n <= 0xFFFF_FFFF then 4 else 8;
    assert data[|before|] == Varint(n)[0];
    if k > 0 {
      LeRoundTrip(n, k);
      assert data[|before| + 1..|before| + 1 + k] == Varint(n)[1..] == LeBytes(n, k);
    }
  }

  // No encoding of the same number is shorter than the one written.
  lemma VarintIsShortest(encoding: seq<byte>, n: nat)
    requires ReadVarint(encoding, 0) == Got(n, |encoding|)
    ensures n < 0x1_0000_0000_0000_0000 && |Varint(n)| <= |encoding|
  {
    Pow256s();
    if |encoding| > 1 {
      FromLeBound(encoding[1..]);
      assert |encoding| in {3, 5, 9};
      assert encoding[1..|encoding|] == encoding[1..];
    }
    if n >= 0xFD {
      LeRoundTrip(n, if n <= 0xFFFF then 2 else if n <= 0xFFFF_FFFF then 4 else 8);
    }
  }

  // ---- Address lists (BIP155) ----

  datatype AddrRecord = AddrRecord(time: seq<byte>, services: nat, network: byte, addr: seq<byte>, port: nat)

  predicate WellFormedRecord(r: AddrRecord) {
    |r.time| == 4 && r.services < 0x1_0000_0000_0000_0000 && |r.addr| <= MAX_FIELD && r.port < 0x1_0000
  }

  function Encode(r: AddrRecord): seq<byte>
    requires WellFormedRecord(r)
  {
    EncodeFront(r) + EncodeAddress(r)
  }

  function EncodeFront(r: AddrRecord): seq<byte>
    requires WellFormedRecord(r)
  {
    r.time + Varint(r.services) + [r.network]
  }

  function EncodeAddress(r: AddrRecord): seq<byte>
    requires WellFormedRecord(r)
  {
    Varint(|r.addr|) + r.addr + [r.port / 256, r.port % 256]
  }

  predicate AllWellFormed(records: seq<AddrRecord>) { forall i | 0 <= i < |records| :: WellFormedRecord(records[i]) }

  function EncodeAll(records: seq<AddrRecord>): seq<byte>
    requires AllWellFormed(records)
  {
    if records == [] then [] else Encode(records[0]) + EncodeAll(records[1..])
  }

  function BigEndian(b: seq<byte>): nat
    requires |b| == 2
  {
    256 * b[0] as int + b[1] as int
  }

  function ReadRecord(data: seq<byte>, pos: nat): Read<AddrRecord> {
    match ReadBytes(data, pos, 4)
    case Eof => Eof
    case Got(time, p1) =>
      match ReadVarint(data, p1)
      case Eof => Eof
      case Got(services, p2) =>
        if p2 < |data| then ReadAddress(data, p2 + 1, time, services, data[p2]) else Eof
  }

  // The rest of a record: the address, of at most 512 bytes, and the port.
  function ReadAddress(data: seq<byte>, pos: nat, time: seq<byte>, services: nat, network: byte): Read<AddrRecord> {
    match ReadVarint(data, pos)
    case Eof => Eof
    case Got(length, p1) =>
      if length > MAX_FIELD then Eof
      else
        match ReadBytes(data, p1, length)
        case Eof => Eof
        case Got(addr, p2) =>
          match ReadBytes(data, p2, 2)
          case Eof => Eof
          case Got(port, p3) => Got(AddrRecord(time, services, network, addr, BigEndian(port)), p3)
  }

  // The peer a record names: IPv4, IPv6 and Tor v3 can be dialled, nothing else. `onionHost` builds the host of a key.
  function Dialable(onionHost: seq<byte> -> Option<string>, defaultPort: nat, r: AddrRecord): seq<Peer> {
    var port := if r.port == 0 then defaultPort else r.port;
    if r.network == 1 && |r.addr| == 4 then [Clearnet(SocketAddr(V4(r.addr), port))]
    else if r.network == 2 && |r.addr| == 16 then [Clearnet(SocketAddr(V6(r.addr), port))]
    else if r.network == 4 && |r.addr| == 32 then
      match onionHost(r.addr)
      case Some(h) => [Onion(h, port)]
      case None => []
    else []
  }

  function Dialables(onionHost: seq<byte> -> Option<string>, defaultPort: nat, records: seq<AddrRecord>): seq<Peer> {
    if records == [] then []
    else Dialable(onionHost, defaultPort, records[0]) + Dialables(onionHost, defaultPort, records[1..])
  }

  // The records at pos, at most `count` of them, up to the first that cannot be read.
  function ReadRecords(data: seq<byte>, pos: nat, count: nat): seq<AddrRecord>
    decreases count
  {
    if count == 0 then []
    else
      match ReadRecord(data, pos)
      case Eof => []
      case Got(r, next) => [r] + ReadRecords(data, next, count - 1)
  }

  function Min(a: nat, b: nat): nat { if a < b then a else b }

  function ParseAddrV2(onionHost: seq<byte> -> Option<string>, defaultPort: nat, payload: seq<byte>): seq<Peer> {
    match ReadVarint(payload, 0)
    case Eof => []
    case Got(count, pos) => Dialables(onionHost, defaultPort, ReadRecords(payload, pos, Min(count, MAX_ADDR)))
  }

  // The loop of `parse_addrv2` stops at the first record that cannot be read.
  method ScanAddrV2(onionHost: seq<byte> -> Option<string>, defaultPort: nat, payload: seq<byte>)
    returns (out: seq<Peer>)
    ensures out == ParseAddrV2(onionHost, defaultPort, payload)
  {
    out := [];
    var head := ReadVarint(payload, 0);
    if head.Got? {
      out := ScanRecords(onionHost, defaultPort, payload, head.pos, Min(head.value, MAX_ADDR),
                         ParseAddrV2(onionHost, defaultPort, payload));
    }
  }

  // The peers found so far, and those of the records still ahead.
  ghost function Found(onionHost: seq<byte> -> Option<string>, defaultPort: nat, data: seq<byte>, pos: nat, count: nat,
                       out: seq<Peer>): seq<Peer> {
    out + Dialables(onionHost, defaultPort, ReadRecords(data, pos, count))
  }

  method ScanRecords(onionHost: seq<byte> -> Option<string>, defaultPort: nat, payload: seq<byte>, start: nat, count: nat,
                     ghost all: seq<Peer>)
    returns (out: seq<Peer>)
    requires Found(onionHost, defaultPort, payload, start, count, []) == all
    ensures out == all
  {
    out := [];
    var pos: nat, left: nat := start, count;
    while left > 0
      invariant Found(onionHost, defaultPort, payload, pos, left, out) == all
    {
      var record := NextRecord(onionHost, defaultPort, payload, pos, left, out);
      if record.Eof? { return; }
      out := out + Dialable(onionHost, defaultPort, record.value);
      pos, left := record.pos, left - 1;
    }
    ScanEnd(onionHost, defaultPort, payload, pos, out);
  }

  lemma ScanEnd(onionHost: seq<byte> -> Option<string>, defaultPort: nat, data: seq<byte>, pos: nat, out: seq<Peer>)
    ensures Found(onionHost, defaultPort, data, pos, 0, out) == out
  {}

  // The record at the cursor, and what it leaves to be found.
  method NextRecord(onionHost: seq<byte> -> Option<string>, defaultPort: nat, payload: seq<byte>, pos: nat,
                    ghost left: nat, ghost out: seq<Peer>)
    returns (record: Read<AddrRecord>)
    requires left > 0
    ensures Found(onionHost, defaultPort, payload, pos, left, out)
         == match record
            case Eof => out
            case Got(r, next) =>
              Found(onionHost, defaultPort, payload, next, left - 1, out + Dialable(onionHost, defaultPort, r))
  {
    record := ScanRecord(payload, pos);
    ScanStep(onionHost, defaultPort, payload, pos, left, out);
  }

  // Its body, field by field along the cursor.
  method ScanRecord(payload: seq<byte>, start: nat) returns (record: Read<AddrRecord>)
    ensures record == ReadRecord(payload, start)
  {
    var pos := start;
    var time := ReadBytes(payload, pos, 4);
    if time.Eof? { return Eof; }
    pos := time.pos;
    var services := ReadVarint(payload, pos);
    if services.Eof? { return Eof; }
    pos := services.pos;
    if pos >= |payload| { return Eof; }
    var network := payload[pos];
    pos := pos + 1;
    var length := ReadVarint(payload, pos);
    if length.Eof? || length.value > MAX_FIELD { return Eof; }
    pos := length.pos;
    var addr := ReadBytes(payload, pos, length.value);
    if addr.Eof? { return Eof; }
    pos := addr.pos;
    var port := ReadBytes(payload, pos, 2);
    if port.Eof? { return Eof; }
    pos := port.pos;
    record := Got(AddrRecord(time.value, services.value, network, addr.value, BigEndian(port.value)), pos);
  }

  lemma ScanStep(onionHost: seq<byte> -> Option<string>, defaultPort: nat, data: seq<byte>, pos: nat, count: nat,
                 out: seq<Peer>)
    requires count > 0
    ensures match ReadRecord(data, pos)
      case Eof => Found(onionHost, defaultPort, data, pos, count, out) == out
      case Got(r, next) =>
        Found(onionHost, defaultPort, data, pos, count, out)
        == Found(onionHost, defaultPort, data, next, count - 1, out + Dialable(onionHost, defaultPort, r))
  {
    match ReadRecord(data, pos)
    case Eof =>
    case Got(r, next) =>
      RecordsStep(data, pos, count, r, next);
      var rest := ReadRecords(data, next, count - 1);
      assert ([r] + rest)[1..] == rest;
  }

  lemma RecordsStep(data: seq<byte>, pos: nat, count: nat, r: AddrRecord, next: nat)
    requires count > 0 && ReadRecord(data, pos) == Got(r, next)
    ensures ReadRecords(data, pos, count) == [r] + ReadRecords(data, next, count - 1)
  {}

  // ---- Round trips ----

  // The piece stands in the data at pos.
  predicate At(data: seq<byte>, pos: nat, piece: seq<byte>) {
    pos + |piece| <= |data| && data[pos..pos + |piece|] == piece
  }

  lemma AtParts(data: seq<byte>, pos: nat, a: seq<byte>, b: seq<byte>)
    requires At(data, pos, a + b)
    ensures At(data, pos, a) && At(data, pos + |a|, b)
  {
    var whole := data[pos..pos + |a + b|];
    forall k | 0 <= k < |a| ensures data[pos + k] == a[k] { assert whole[k] == (a + b)[k]; }
    forall k | 0 <= k < |b| ensures data[pos + |a| + k] == b[k] { assert whole[|a| + k] == (a + b)[|a| + k]; }
  }

  lemma Parts(head: seq<byte>, body: seq<byte>, after: seq<byte>)
    ensures At(head + body + after, 0, head) && At(head + body + after, |head|, body)
  {
    assert At(head + body + after, 0, head + body);
    AtParts(head + body + after, 0, head, body);
  }

  lemma VarintAt(data: seq<byte>, pos: nat, n: nat)
    requires n < 0x1_0000_0000_0000_0000 && At(data, pos, Varint(n))
    ensures ReadVarint(data, pos) == Got(n, pos + |Varint(n)|)
  {
    var after := data[pos + |Varint(n)|..];
    assert data == data[..pos] + Varint(n) + after;
    VarintRoundTrip(data[..pos], n, after);
  }

  lemma RecordAt(data: seq<byte>, pos: nat, r: AddrRecord)
    requires WellFormedRecord(r) && At(data, pos, Encode(r))
    ensures ReadRecord(data, pos) == Got(r, pos + |Encode(r)|)
  {
    AtParts(data, pos, EncodeFront(r), EncodeAddress(r));
    FrontAt(data, pos, r);
    AddressAt(data, pos + |EncodeFront(r)|, r);
  }

  lemma FrontAt(data: seq<byte>, pos: nat, r: AddrRecord)
    requires WellFormedRecord(r) && At(data, pos, EncodeFront(r))
    ensures ReadRecord(data, pos) == ReadAddress(data, pos + |EncodeFront(r)|, r.time, r.services, r.network)
  {
    TwoAt(data, pos, r.time, Varint(r.services), [r.network]);
    VarintAt(data, pos + 4, r.services);
    ByteAt(data, pos + 4 + |Varint(r.services)|, r.network);
  }

  lemma AddressAt(data: seq<byte>, pos: nat, r: AddrRecord)
    requires WellFormedRecord(r) && At(data, pos, EncodeAddress(r))
    ensures ReadAddress(data, pos, r.time, r.services, r.network) == Got(r, pos + |EncodeAddress(r)|)
  {
    TwoAt(data, pos, Varint(|r.addr|), r.addr, [r.port / 256, r.port % 256]);
    VarintAt(data, pos, |r.addr|);
    LengthThen(data, pos, r, pos + |Varint(|r.addr|)|, [r.port / 256, r.port % 256]);
  }

  lemma LengthThen(data: seq<byte>, pos: nat, r: AddrRecord, p: nat, port: seq<byte>)
    requires |r.addr| <= MAX_FIELD && |port| == 2 && BigEndian(port) == r.port
    requires ReadVarint(data, pos) == Got(|r.addr|, p) && At(data, p, r.addr) && At(data, p + |r.addr|, port)
    ensures ReadAddress(data, pos, r.time, r.services, r.network) == Got(r, p + |r.addr| + 2)
  {}

  lemma TwoAt(data: seq<byte>, pos: nat, a: seq<byte>, b: seq<byte>, c: seq<byte>)
    requires At(data, pos, a + b + c)
    ensures At(data, pos, a) && At(data, pos + |a|, b) && At(data, pos + |a| + |b|, c)
  {
    AtParts(data, pos, a + b, c);
    AtParts(data, pos, a, b);
  }

  lemma ByteAt(data: seq<byte>, pos: nat, b: byte)
    requires At(data, pos, [b])
    ensures pos < |data| && data[pos] == b
  {
    assert data[pos..pos + 1][0] == data[pos];
  }

  ghost function FirstRecords(data: seq<byte>, pos: nat, count: nat): seq<AddrRecord> { ReadRecords(data, pos, count) }

  lemma {:induction false} RecordsAt(data: seq<byte>, pos: nat, records: seq<AddrRecord>, count: nat)
    requires AllWellFormed(records)
    requires At(data, pos, EncodeAll(records)) && count <= |records|
    ensures FirstRecords(data, pos, count) == records[..count]
    decreases count
  {
    if count > 0 {
      var next := FirstRecordAt(data, pos, records);
      RecordsAt(data, next, records[1..], count - 1);
      RecordsNext(data, pos, records, count, next);
    }
  }

  lemma FirstRecordAt(data: seq<byte>, pos: nat, records: seq<AddrRecord>) returns (next: nat)
    requires records != [] && AllWellFormed(records)
    requires At(data, pos, EncodeAll(records))
    ensures ReadRecord(data, pos) == Got(records[0], next)
    ensures AllWellFormed(records[1..]) && At(data, next, EncodeAll(records[1..]))
  {
    AtParts(data, pos, Encode(records[0]), EncodeAll(records[1..]));
    RecordAt(data, pos, records[0]);
    next := pos + |Encode(records[0])|;
  }

  lemma RecordsNext(data: seq<byte>, pos: nat, records: seq<AddrRecord>, count: nat, next: nat)
    requires 0 < count <= |records| && ReadRecord(data, pos) == Got(records[0], next)
    requires FirstRecords(data, next, count - 1) == records[1..][..count - 1]
    ensures FirstRecords(data, pos, count) == records[..count]
  {
    RecordsStep(data, pos, count, records[0], next);
    assert records[..count] == [records[0]] + records[1..][..count - 1];
  }

  lemma CountedRecords(onionHost: seq<byte> -> Option<string>, defaultPort: nat, payload: seq<byte>, count: nat, pos: nat)
    requires ReadVarint(payload, 0) == Got(count, pos)
    ensures ParseAddrV2(onionHost, defaultPort, payload)
         == Dialables(onionHost, defaultPort, ReadRecords(payload, pos, Min(count, MAX_ADDR)))
  {}

  // An encoded list gives back exactly its dialable records, in order, the default port in place of port 0; of a list
  // longer than 1000 the first 1000 count, and bytes after the list do not.
  lemma AddrV2RoundTrip(onionHost: seq<byte> -> Option<string>, defaultPort: nat, records: seq<AddrRecord>, after: seq<byte>)
    requires AllWellFormed(records)
    requires |records| < 0x1_0000_0000_0000_0000
    ensures ParseAddrV2(onionHost, defaultPort, Varint(|records|) + EncodeAll(records) + after)
         == Dialables(onionHost, defaultPort, records[..Min(|records|, MAX_ADDR)])
  {
    Parts(Varint(|records|), EncodeAll(records), after);
    RecordsParsed(onionHost, defaultPort, Varint(|records|) + EncodeAll(records) + after, records);
  }

  lemma RecordsParsed(onionHost: seq<byte> -> Option<string>, defaultPort: nat, payload: seq<byte>, records: seq<AddrRecord>)
    requires AllWellFormed(records)
    requires |records| < 0x1_0000_0000_0000_0000 && At(payload, 0, Varint(|records|))
    requires At(payload, |Varint(|records|)|, EncodeAll(records))
    ensures ParseAddrV2(onionHost, defaultPort, payload)
         == Dialables(onionHost, defaultPort, records[..Min(|records|, MAX_ADDR)])
  {
    VarintAt(payload, 0, |records|);
    CountedRecords(onionHost, defaultPort, payload, |records|, |Varint(|records|)|);
    RecordsAt(payload, |Varint(|records|)|, records, Min(|records|, MAX_ADDR));
  }

  // Whatever the bytes, at most 1000 peers come out.
  lemma AtMost1000(onionHost: seq<byte> -> Option<string>, defaultPort: nat, payload: seq<byte>)
    ensures |ParseAddrV2(onionHost, defaultPort, payload)| <= 1000
  {
    match ReadVarint(payload, 0)
    case Eof =>
    case Got(count, pos) =>
      RecordCount(payload, pos, Min(count, MAX_ADDR));
      DialableCount(onionHost, defaultPort, ReadRecords(payload, pos, Min(count, MAX_ADDR)));
  }

  lemma {:induction false} RecordCount(data: seq<byte>, pos: nat, count: nat)
    ensures |ReadRecords(data, pos, count)| <= count
    decreases count
  {
    if count > 0 {
      match ReadRecord(data, pos)
      case Eof =>
      case Got(r, next) =>
        RecordsStep(data, pos, count, r, next);
        RecordCount(data, next, count - 1);
    }
  }

  lemma {:induction false} DialableCount(onionHost: seq<byte> -> Option<string>, defaultPort: nat, records: seq<AddrRecord>)
    ensures |Dialables(onionHost, defaultPort, records)| <= |records|
  {
    if records != [] { DialableCount(onionHost, defaultPort, records[1..]); }
  }

  // ---- Legacy address lists ----

  const ADDR_ENTRY := 30

  // time (4 bytes), services (8), address (16) and port (2).
  datatype LegacyRecord = LegacyRecord(time: seq<byte>, services: seq<byte>, ip: seq<byte>, port: nat)

  predicate WellFormedLegacy(r: LegacyRecord) {
    |r.time| == 4 && |r.services| == 8 && |r.ip| == 16 && r.port < 0x1_0000
  }

  function EncodeLegacy(r: LegacyRecord): seq<byte>
    requires WellFormedLegacy(r)
  {
    r.time + r.services + r.ip + [r.port / 256, r.port % 256]
  }

  predicate AllLegacy(records: seq<LegacyRecord>) { forall i | 0 <= i < |records| :: WellFormedLegacy(records[i]) }

  function EncodeLegacies(records: seq<LegacyRecord>): seq<byte>
    requires AllLegacy(records)
  {
    if records == [] then [] else EncodeLegacy(records[0]) + EncodeLegacies(records[1..])
  }

  // An IPv4 address written as IPv6 is IPv4 again.
  function Unmapped(ip: seq<byte>): Ip
    requires |ip| == 16
  {
    if ip[..12] == [0, 0, 0, 0, 0, 0, 0, 0, 0, 0, 0xFF, 0xFF] then V4(ip[12..]) else V6(ip)
  }

  function LegacyPeer(defaultPort: nat, ip: seq<byte>, port: nat): Peer
    requires |ip| == 16
  {
    Clearnet(SocketAddr(Unmapped(ip), if port == 0 then defaultPort else port))
  }

  function LegacyPeers(defaultPort: nat, data: seq<byte>, pos: nat, count: nat): seq<Peer>
    decreases count
  {
    if count == 0 then []
    else
      match ReadBytes(data, pos, ADDR_ENTRY)
      case Eof => []
      case Got(e, next) =>
        [LegacyPeer(defaultPort, e[12..28], BigEndian(e[28..30]))] + LegacyPeers(defaultPort, data, next, count - 1)
  }

  function ParseAddr(defaultPort: nat, payload: seq<byte>): seq<Peer> {
    match ReadVarint(payload, 0)
    case Eof => []
    case Got(count, pos) => LegacyPeers(defaultPort, payload, pos, Min(count, MAX_ADDR))
  }

  // The loop of `parse_addr`.
  method ScanAddr(defaultPort: nat, payload: seq<byte>) returns (out: seq<Peer>)
    ensures out == ParseAddr(defaultPort, payload)
  {
    out := [];
    var head := ReadVarint(payload, 0);
    if head.Got? {
      out := ScanLegacies(defaultPort, payload, head.pos, Min(head.value, MAX_ADDR), ParseAddr(defaultPort, payload));
    }
  }

  // The peers found so far, and those of the entries still ahead.
  ghost function LegacyFound(defaultPort: nat, data: seq<byte>, pos: nat, count: nat, out: seq<Peer>): seq<Peer> {
    out + LegacyPeers(defaultPort, data, pos, count)
  }

  method ScanLegacies(defaultPort: nat, payload: seq<byte>, start: nat, count: nat, ghost all: seq<Peer>)
    returns (out: seq<Peer>)
    requires LegacyFound(defaultPort, payload, start, count, []) == all
    ensures out == all
  {
    out := [];
    var pos: nat, left: nat := start, count;
    while left > 0
      invariant LegacyFound(defaultPort, payload, pos, left, out) == all
    {
      var entry := ReadBytes(payload, pos, ADDR_ENTRY);
      LegacyStep(defaultPort, payload, pos, left, out);
      if entry.Eof? { return; }
      var ip, port := entry.value[12..28], BigEndian(entry.value[28..30]);
      out := out + [LegacyPeer(defaultPort, ip, port)];
      pos, left := entry.pos, left - 1;
    }
    LegacyEnd(defaultPort, payload, pos, out);
  }

  lemma LegacyEnd(defaultPort: nat, data: seq<byte>, pos: nat, out: seq<Peer>)
    ensures LegacyFound(defaultPort, data, pos, 0, out) == out
  {}

  lemma LegacyStep(defaultPort: nat, data: seq<byte>, pos: nat, count: nat, out: seq<Peer>)
    requires count > 0
    ensures var entry := ReadBytes(data, pos, ADDR_ENTRY);
      match entry
      case Eof => LegacyFound(defaultPort, data, pos, count, out) == out
      case Got(e, next) =>
        LegacyFound(defaultPort, data, pos, count, out)
        == LegacyFound(defaultPort, data, next, count - 1, out + [LegacyPeer(defaultPort, e[12..28], BigEndian(e[28..30]))])
  {}

  function LegacyPeersOf(defaultPort: nat, records: seq<LegacyRecord>): seq<Peer>
    requires AllLegacy(records)
  {
    seq(|records|, i requires 0 <= i < |records| =>
      assert WellFormedLegacy(records[i]); LegacyPeer(defaultPort, records[i].ip, records[i].port))
  }

  lemma {:induction false} LegaciesAt(defaultPort: nat, data: seq<byte>, pos: nat, records: seq<LegacyRecord>, count: nat)
    requires AllLegacy(records)
    requires At(data, pos, EncodeLegacies(records)) && count <= |records|
    ensures LegacyPeers(defaultPort, data, pos, count) == LegacyPeersOf(defaultPort, records[..count])
    decreases count
  {
    if count > 0 {
      FirstLegacyAt(data, pos, records);
      LegacyParts(records[0]);
      LegaciesAt(defaultPort, data, pos + ADDR_ENTRY, records[1..], count - 1);
      LegacyFirst(defaultPort, records, count);
    }
  }

  lemma FirstLegacyAt(data: seq<byte>, pos: nat, records: seq<LegacyRecord>)
    requires records != [] && AllLegacy(records)
    requires At(data, pos, EncodeLegacies(records))
    ensures ReadBytes(data, pos, ADDR_ENTRY) == Got(EncodeLegacy(records[0]), pos + ADDR_ENTRY)
    ensures AllLegacy(records[1..]) && At(data, pos + ADDR_ENTRY, EncodeLegacies(records[1..]))
  {
    LegacyParts(records[0]);
    AtParts(data, pos, EncodeLegacy(records[0]), EncodeLegacies(records[1..]));
  }

  lemma LegacyParts(r: LegacyRecord)
    requires WellFormedLegacy(r)
    ensures var e := EncodeLegacy(r);
      |e| == ADDR_ENTRY && e[12..28] == r.ip && BigEndian(e[28..30]) == r.port
  {
    var e := EncodeLegacy(r);
    var front := r.time + r.services;
    assert e == front + r.ip + [r.port / 256, r.port % 256] && |front| == 12;
    assert e[12..28] == r.ip;
    assert e[28..30] == [r.port / 256, r.port % 256];
  }

  lemma LegaciesParsed(defaultPort: nat, payload: seq<byte>, records: seq<LegacyRecord>)
    requires AllLegacy(records)
    requires |records| < 0x1_0000_0000_0000_0000 && At(payload, 0, Varint(|records|))
    requires At(payload, |Varint(|records|)|, EncodeLegacies(records))
    ensures ParseAddr(defaultPort, payload) == LegacyPeersOf(defaultPort, records[..Min(|records|, MAX_ADDR)])
  {
    VarintAt(payload, 0, |records|);
    CountedLegacies(defaultPort, payload, |records|, |Varint(|records|)|);
    LegaciesAt(defaultPort, payload, |Varint(|records|)|, records, Min(|records|, MAX_ADDR));
  }

  lemma LegacyFirst(defaultPort: nat, records: seq<LegacyRecord>, n: nat)
    requires AllLegacy(records) && 0 < n <= |records|
    ensures LegacyPeersOf(defaultPort, records[..n])
         == [LegacyPeer(defaultPort, records[0].ip, records[0].port)] + LegacyPeersOf(defaultPort, records[1..][..n - 1])
  {
    assert records[..n][0] == records[0];
    assert records[..n][1..] == records[1..][..n - 1];
  }

  lemma CountedLegacies(defaultPort: nat, payload: seq<byte>, count: nat, pos: nat)
    requires ReadVarint(payload, 0) == Got(count, pos)
    ensures ParseAddr(defaultPort, payload) == LegacyPeers(defaultPort, payload, pos, Min(count, MAX_ADDR))
  {}

  // An encoded legacy list gives back its first 1000 records, in order, mapped IPv4 addresses as IPv4 and the default
  // port in place of port 0.
  lemma AddrRoundTrip(defaultPort: nat, records: seq<LegacyRecord>, after: seq<byte>)
    requires AllLegacy(records)
    requires |records| < 0x1_0000_0000_0000_0000
    ensures ParseAddr(defaultPort, Varint(|records|) + EncodeLegacies(records) + after)
         == LegacyPeersOf(defaultPort, records[..Min(|records|, MAX_ADDR)])
  {
    Parts(Varint(|records|), EncodeLegacies(records), after);
    LegaciesParsed(defaultPort, Varint(|records|) + EncodeLegacies(records) + after, records);
  }

  // ---- What the parsers can build ----

  // Some message makes one of the parsers name this peer.
  ghost predicate Parsed(onionHost: seq<byte> -> Option<string>, defaultPort: nat, p: Peer) {
    exists payload :: p in ParseAddrV2(onionHost, defaultPort, payload) || p in ParseAddr(defaultPort, payload)
  }

  // A peer that can be written down, on a port that is not 0.
  predicate Usable(p: Peer) {
    WellFormed(p) && (if p.Onion? then p.port else p.addr.port) > 0
  }

  lemma {:induction false} RecordPorts(data: seq<byte>, pos: nat, count: nat)
    ensures forall r | r in FirstRecords(data, pos, count) :: r.port < 0x1_0000
    decreases count
  {
    if count > 0 {
      RecordPort(data, pos);
      match ReadRecord(data, pos)
      case Eof =>
      case Got(r, next) =>
        RecordPorts(data, next, count - 1);
        RecordsFirst(data, pos, count, r, next);
    }
  }

  lemma RecordPort(data: seq<byte>, pos: nat)
    ensures ReadRecord(data, pos).Got? ==> ReadRecord(data, pos).value.port < 0x1_0000
  {}

  lemma RecordsFirst(data: seq<byte>, pos: nat, count: nat, r: AddrRecord, next: nat)
    requires count > 0 && ReadRecord(data, pos) == Got(r, next)
    ensures FirstRecords(data, pos, count) == [r] + FirstRecords(data, next, count - 1)
  {}

  lemma {:induction false} DialablesUsable(onionHost: seq<byte> -> Option<string>, defaultPort: nat, records: seq<AddrRecord>)
    requires 0 < defaultPort < 0x1_0000
    requires forall key :: onionHost(key).Some? ==> EndsWith(onionHost(key).value, ".onion")
    requires forall r | r in records :: r.port < 0x1_0000
    ensures forall p | p in Dialables(onionHost, defaultPort, records) :: Usable(p)
  {
    if records != [] {
      assert records[0] in records && forall r | r in records[1..] :: r in records;
      DialablesUsable(onionHost, defaultPort, records[1..]);
    }
  }

  lemma {:induction false} LegacyUsable(defaultPort: nat, data: seq<byte>, pos: nat, count: nat)
    requires defaultPort > 0
    ensures forall p | p in LegacyPeers(defaultPort, data, pos, count) :: Usable(p)
    decreases count
  {
    if count > 0 && pos + ADDR_ENTRY <= |data| { LegacyUsable(defaultPort, data, pos + ADDR_ENTRY, count - 1); }
  }

  // Whatever bytes arrive, every peer the parsers build can be written down and read back, and none is the placeholder.
  lemma ParsedPeer(onionHost: seq<byte> -> Option<string>, defaultPort: nat, p: Peer)
    requires 0 < defaultPort < 0x1_0000
    requires forall key :: onionHost(key).Some? ==> EndsWith(onionHost(key).value, ".onion")
    requires Parsed(onionHost, defaultPort, p)
    ensures WellFormed(p) && p != PLACEHOLDER
  {
    var payload :| p in ParseAddrV2(onionHost, defaultPort, payload) || p in ParseAddr(defaultPort, payload);
    match ReadVarint(payload, 0) {
      case Eof =>
      case Got(count, pos) =>
        RecordPorts(payload, pos, Min(count, MAX_ADDR));
        DialablesUsable(onionHost, defaultPort, ReadRecords(payload, pos, Min(count, MAX_ADDR)));
        LegacyUsable(defaultPort, payload, pos, Min(count, MAX_ADDR));
    }
    assert Usable(p);
  }

  // ---- Header lists ----

  // 80-byte headers, each followed by a transaction count; `blockHash` is the double SHA-256.
  function ReadHeaders(blockHash: seq<byte> -> Hash, data: seq<byte>, pos: nat, count: nat): seq<PeerHeader>
    decreases 2 * count
  {
    if count == 0 then []
    else
      match ReadBytes(data, pos, 80)
      case Eof => []
      case Got(h, p1) =>
        [HeaderOf(blockHash, h)] + AfterHeader(blockHash, data, p1, count - 1)
  }

  function HeaderOf(blockHash: seq<byte> -> Hash, h: seq<byte>): PeerHeader
    requires |h| == 80
  {
    PeerHeader(blockHash(h), h[4..36])
  }

  // What follows a header: its transaction count, and if that can be read, the other headers.
  function AfterHeader(blockHash: seq<byte> -> Hash, data: seq<byte>, pos: nat, count: nat): seq<PeerHeader>
    decreases 2 * count + 1
  {
    match ReadVarint(data, pos)
    case Eof => []
    case Got(_, next) => ReadHeaders(blockHash, data, next, count)
  }

  function ParseHeaders(blockHash: seq<byte> -> Hash, payload: seq<byte>): seq<PeerHeader> {
    match ReadVarint(payload, 0)
    case Eof => []
    case Got(count, pos) => ReadHeaders(blockHash, payload, pos, Min(count, MAX_HEADERS))
  }

  method ScanHeaders(blockHash: seq<byte> -> Hash, payload: seq<byte>) returns (out: seq<PeerHeader>)
    ensures out == ParseHeaders(blockHash, payload)
  {
    out := [];
    var head := ReadVarint(payload, 0);
    if head.Eof? {
      return;
    }
    var count: nat, pos: nat := Min(head.value, MAX_HEADERS), head.pos;
    for i := 0 to count
      invariant out + ReadHeaders(blockHash, payload, pos, count - i) == ParseHeaders(blockHash, payload)
    {
      var hdr := ReadBytes(payload, pos, 80);
      if hdr.Eof? { break; }
      ghost var before := out;
      out := out + [HeaderOf(blockHash, hdr.value)];
      var txs := ReadVarint(payload, hdr.pos);
      HeadersStep(blockHash, payload, pos, count - i, before);
      if txs.Eof? { break; }
      pos := txs.pos;
    }
  }

  // One header on: the header joins those read, and the rest follow its transaction count, if that can be read.
  lemma HeadersStep(blockHash: seq<byte> -> Hash, data: seq<byte>, pos: nat, count: nat, out: seq<PeerHeader>)
    requires count > 0 && ReadBytes(data, pos, 80).Got?
    ensures out + ReadHeaders(blockHash, data, pos, count)
         == out + [HeaderOf(blockHash, data[pos..pos + 80])] + AfterHeader(blockHash, data, pos + 80, count - 1)
  {}

  function EncodeHeaders(headers: seq<seq<byte>>): seq<byte> {
    if headers == [] then [] else headers[0] + [0] + EncodeHeaders(headers[1..])
  }

  function Reported(blockHash: seq<byte> -> Hash, headers: seq<seq<byte>>): seq<PeerHeader>
    requires forall i | 0 <= i < |headers| :: |headers[i]| == 80
  {
    seq(|headers|, i requires 0 <= i < |headers| => HeaderOf(blockHash, headers[i]))
  }

  lemma {:induction false} HeadersAt(blockHash: seq<byte> -> Hash, data: seq<byte>, pos: nat, headers: seq<seq<byte>>, count: nat)
    requires forall i | 0 <= i < |headers| :: |headers[i]| == 80
    requires At(data, pos, EncodeHeaders(headers)) && count <= |headers|
    ensures ReadHeaders(blockHash, data, pos, count) == Reported(blockHash, headers[..count])
    decreases count
  {
    if count > 0 {
      var h, rest := headers[0], headers[1..];
      AtParts(data, pos, h + [0], EncodeHeaders(rest));
      AtParts(data, pos, h, [0]);
      VarintAt(data, pos + 80, 0);
      HeadersAt(blockHash, data, pos + 81, rest, count - 1);
      ReportedFirst(blockHash, headers, count);
    }
  }

  lemma ReportedFirst(blockHash: seq<byte> -> Hash, headers: seq<seq<byte>>, n: nat)
    requires (forall i | 0 <= i < |headers| :: |headers[i]| == 80) && 0 < n <= |headers|
    ensures Reported(blockHash, headers[..n])
         == [HeaderOf(blockHash, headers[0])] + Reported(blockHash, headers[1..][..n - 1])
  {
    assert headers[..n][0] == headers[0];
    assert headers[..n][1..] == headers[1..][..n - 1];
  }

  // The headers of a reply arrive as they were sent; past 2000 the rest is cut off, and bytes after them do not count.
  lemma HeadersRoundTrip(blockHash: seq<byte> -> Hash, headers: seq<seq<byte>>, after: seq<byte>)
    requires forall i | 0 <= i < |headers| :: |headers[i]| == 80
    requires |headers| < 0x1_0000_0000_0000_0000
    ensures ParseHeaders(blockHash, Varint(|headers|) + EncodeHeaders(headers) + after)
         == Reported(blockHash, headers[..Min(|headers|, MAX_HEADERS)])
  {
    var n := Varint(|headers|);
    var payload := n + EncodeHeaders(headers) + after;
    Parts(n, EncodeHeaders(headers), after);
    VarintAt(payload, 0, |headers|);
    HeadersAt(blockHash, payload, |n|, headers, Min(|headers|, MAX_HEADERS));
  }
}
