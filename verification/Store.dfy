// The shared node database (src/db.rs): every snapshot of every crawler is merged row by row, readers see only rows
// confirmed recently, and pruning deletes what no reader could see.
module Store {
  import opened Prelude
  import opened Peers
  import opened Time

  datatype Geo = Geo(lat: real, lon: real, country: string, countryCode: string, city: string)

  // The columns every applied write overwrites.
  datatype Core = Core(depth: nat, client: string, handshaked: bool, lastSeen: string, timesSeen: nat, online: bool)

  // The columns an applied write overwrites only with something: NULL keeps what is there.
  datatype Kept = Kept(lat: Option<real>, lon: Option<real>, country: Option<string>, countryCode: Option<string>,
                       city: Option<string>, latency: Option<nat>)

  datatype Row = Row(core: Core, firstSeen: string, kept: Kept)

  // One `INSERT ... ON CONFLICT`.
  datatype Write = Write(addr: string, row: Row)

  function Incoming(n: NodeInfo, geo: map<string, Geo>, generatedAt: string): Write {
    var lastSeen := if n.lastSeen == "" && n.online then generatedAt else n.lastSeen;
    var g := if n.addr in geo then Some(geo[n.addr]) else None;
    Write(n.addr, Row(
      Core(n.depth, n.client, n.handshaked, lastSeen, n.timesSeen, n.online), n.firstSeen,
      match g
      case Some(x) => Kept(Some(x.lat), Some(x.lon), Some(x.country), Some(x.countryCode), Some(x.city), n.latency)
      case None => Kept(None, None, None, None, None, n.latency)))
  }

  function Coalesce<T>(a: Option<T>, b: Option<T>): Option<T> { if a.Some? then a else b }

  function Combine(now: Kept, before: Kept): Kept {
    Kept(Coalesce(now.lat, before.lat), Coalesce(now.lon, before.lon), Coalesce(now.country, before.country),
         Coalesce(now.countryCode, before.countryCode), Coalesce(now.city, before.city),
         Coalesce(now.latency, before.latency))
  }

  // A failed probe never overwrites a row somebody handshook.
  function Merge(old': Row, new': Row): Row {
    if new'.core.handshaked || !old'.core.handshaked then
      Row(new'.core, if old'.firstSeen == "" then new'.firstSeen else old'.firstSeen, Combine(new'.kept, old'.kept))
    else old'
  }

  function Upsert(nodes: map<string, Row>, w: Write): map<string, Row> {
    nodes[w.addr := if w.addr in nodes then Merge(nodes[w.addr], w.row) else w.row]
  }

  function UpsertAll(nodes: map<string, Row>, writes: seq<Write>): map<string, Row> {
    if writes == [] then nodes
    else Upsert(UpsertAll(nodes, writes[..|writes| - 1]), writes[|writes| - 1])
  }

  function Writes(generatedAt: string, nodes: seq<NodeInfo>, geo: map<string, Geo>): seq<Write> {
    seq(|nodes|, i requires 0 <= i < |nodes| => Incoming(nodes[i], geo, generatedAt))
  }

  // ---- Reading and pruning ----

  // `online=1 AND last_seen >= cutoff`, or `online=1` alone.
  function FreshSince(cutoff: Option<string>, nodes: map<string, Row>): map<string, Row> {
    map a | a in nodes && nodes[a].core.online
            && (cutoff.Some? ==> !Before(nodes[a].core.lastSeen, cutoff.value)) :: nodes[a]
  }

  // What a reader with this window sees; a window of 0 means no cutoff.
  function Fresh(now: nat, age: nat, nodes: map<string, Row>): map<string, Row> {
    FreshSince(if age == 0 then None else Some(IsoSecsAgo(now, age)), nodes)
  }

  // The window in seconds, as 64-bit arithmetic gives it.
  function KeepSecs(keepDays: nat): nat { keepDays * 86400 % 0x1_0000_0000_0000_0000 }

  predicate Dead(row: Row, cutoff: string) {
    row.core.depth != 0 && (row.core.lastSeen == "" || Before(row.core.lastSeen, cutoff))
  }

  function PruneBefore(cutoff: string, nodes: map<string, Row>): map<string, Row> {
    map a | a in nodes && !Dead(nodes[a], cutoff) :: nodes[a]
  }

  function PruneNodes(now: nat, keepDays: nat, nodes: map<string, Row>): map<string, Row> {
    PruneBefore(IsoSecsAgo(now, KeepSecs(keepDays)), nodes)
  }

  function PruneEdges(nodes: map<string, Row>, edges: set<Edge>): set<Edge> {
    set e | e in edges && e.from in nodes && e.to in nodes
  }

  function EdgeSet(found: seq<Edge>): set<Edge> { set e | e in found }
}
