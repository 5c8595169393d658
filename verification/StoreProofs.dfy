// What the shared database keeps over any interleaving of crawlers, and what pruning cannot change.
module StoreProofs {
  import opened Prelude
  import opened Peers
  import opened Time
  import opened Store

  // ---- One address over any run of writes ----

  // The rows written for an address, in order.
  function RowsFor(addr: string, writes: seq<Write>): seq<Row> {
    if writes == [] then []
    else
      var front, w := writes[..|writes| - 1], writes[|writes| - 1];
      if w.addr == addr then RowsFor(addr, front) + [w.row] else RowsFor(addr, front)
  }

  predicate AnyHandshake(rows: seq<Row>) {
    exists i :: 0 <= i < |rows| && rows[i].core.handshaked
  }

  // The writes that count: those that handshook, and those nobody had handshaken before.
  function Applied(rows: seq<Row>): seq<Row> {
    if rows == [] then []
    else
      var front, r := rows[..|rows| - 1], rows[|rows| - 1];
      if r.core.handshaked || !AnyHandshake(front) then Applied(front) + [r] else Applied(front)
  }

  // The first non-empty first_seen.
  function FirstStamp(rows: seq<Row>): string {
    if rows == [] then ""
    else if FirstStamp(rows[..|rows| - 1]) != "" then FirstStamp(rows[..|rows| - 1])
    else rows[|rows| - 1].firstSeen
  }

  // The last measured value of one column.
  function LastKnown<T>(column: Row -> Option<T>, rows: seq<Row>): Option<T> {
    if rows == [] then None
    else if column(rows[|rows| - 1]).Some? then column(rows[|rows| - 1])
    else LastKnown(column, rows[..|rows| - 1])
  }

  function Lat(r: Row): Option<real> { r.kept.lat }
  function Lon(r: Row): Option<real> { r.kept.lon }
  function Country(r: Row): Option<string> { r.kept.country }
  function CountryCode(r: Row): Option<string> { r.kept.countryCode }
  function City(r: Row): Option<string> { r.kept.city }
  function Latency(r: Row): Option<nat> { r.kept.latency }

  // A row as a summary of the writes that count.
  function Summary(rows: seq<Row>): Row
    requires rows != []
  {
    Row(rows[|rows| - 1].core, FirstStamp(rows),
        Kept(LastKnown(Lat, rows), LastKnown(Lon, rows), LastKnown(Country, rows), LastKnown(CountryCode, rows),
             LastKnown(City, rows), LastKnown(Latency, rows)))
  }

  lemma SummaryPush(rows: seq<Row>, r: Row)
    requires rows != []
    ensures Summary(rows + [r])
         == Row(r.core, if FirstStamp(rows) == "" then r.firstSeen else FirstStamp(rows),
                Combine(r.kept, Summary(rows).kept))
  {
    assert (rows + [r])[..|rows|] == rows;
  }

  lemma LastKnownOne<T>(column: Row -> Option<T>, r: Row)
    ensures LastKnown(column, [r]) == column(r)
  {
    assert [r][..0] == [];
    assert LastKnown(column, []) == None;
  }

  lemma SummaryOne(r: Row)
    ensures Summary([r]) == r
  {
    assert FirstStamp([]) == "" && [r][..0] == [];
    assert FirstStamp([r]) == r.firstSeen;
    assert r.kept == Kept(Lat(r), Lon(r), Country(r), CountryCode(r), City(r), Latency(r));
    LastKnownOne(Lat, r);
    LastKnownOne(Lon, r);
    LastKnownOne(Country, r);
    LastKnownOne(CountryCode, r);
    LastKnownOne(City, r);
    LastKnownOne(Latency, r);
  }

  lemma {:induction false} AppliedFacts(rows: seq<Row>)
    requires rows != []
    ensures Applied(rows) != []
    ensures Applied(rows)[|Applied(rows)| - 1].core.handshaked <==> AnyHandshake(rows)
  {
    var front, r := rows[..|rows| - 1], rows[|rows| - 1];
    if front != [] {
      AppliedFacts(front);
    }
    assert r.core.handshaked ==> AnyHandshake(rows);
    forall i | 0 <= i < |front| && front[i].core.handshaked ensures AnyHandshake(rows) {
      assert rows[i] == front[i];
    }
  }

  // The table after any writes of any crawlers, in any order, starting empty: a row for each address written, equal
  // to the summary of the writes that count for it.
  lemma {:induction false} TableIs(writes: seq<Write>, addr: string)
    ensures var rows := RowsFor(addr, writes);
      var nodes := UpsertAll(map[], writes);
      && (addr in nodes <==> rows != [])
      && (addr in nodes ==> Applied(rows) != [] && nodes[addr] == Summary(Applied(rows)))
  {
    if writes != [] {
      var front, w := writes[..|writes| - 1], writes[|writes| - 1];
      TableIs(front, addr);
      if w.addr == addr {
        RowPush(RowsFor(addr, front), w.row);
      }
    }
  }

  lemma RowPush(rows: seq<Row>, r: Row)
    ensures Applied(rows + [r]) != []
    ensures rows == [] ==> Summary(Applied(rows + [r])) == r
    ensures rows != [] ==> Applied(rows) != [] && Summary(Applied(rows + [r])) == Merge(Summary(Applied(rows)), r)
  {
    assert (rows + [r])[..|rows|] == rows;
    if rows == [] {
      assert Applied([]) == [] && Applied(rows + [r]) == [r];
      SummaryOne(r);
    } else {
      AppliedFacts(rows);
      SummaryPush(Applied(rows), r);
    }
  }

  // Transactions run one after another, so any interleaving of crawlers is one run of writes.
  lemma {:induction false} TransactionsConcatenate(nodes: map<string, Row>, first: seq<Write>, second: seq<Write>)
    ensures UpsertAll(UpsertAll(nodes, first), second) == UpsertAll(nodes, first + second)
  {
    if second == [] {
      assert first + second == first;
    } else {
      TransactionsConcatenate(nodes, first, second[..|second| - 1]);
      assert (first + second)[..|first + second| - 1] == first + second[..|second| - 1];
    }
  }

  // ---- Which row a listed node becomes ----

  // Column by column: the node's own values, the place of its address if one is known, and as last_seen its own stamp;
  // only an online node without one gets the snapshot's.
  predicate StoredAs(n: NodeInfo, generatedAt: string, geo: map<string, Geo>, row: Row) {
    && row.core.depth == n.depth && row.core.client == n.client && row.core.handshaked == n.handshaked
    && row.core.timesSeen == n.timesSeen && row.core.online == n.online
    && (n.lastSeen != "" ==> row.core.lastSeen == n.lastSeen)
    && (n.lastSeen == "" ==> row.core.lastSeen == if n.online then generatedAt else "")
    && row.firstSeen == n.firstSeen && row.kept.latency == n.latency
    && if n.addr in geo then
         && row.kept.lat == Some(geo[n.addr].lat) && row.kept.lon == Some(geo[n.addr].lon)
         && row.kept.country == Some(geo[n.addr].country) && row.kept.countryCode == Some(geo[n.addr].countryCode)
         && row.kept.city == Some(geo[n.addr].city)
       else
         && row.kept.lat == None && row.kept.lon == None && row.kept.country == None
         && row.kept.countryCode == None && row.kept.city == None
  }

  predicate DistinctNodes(snapshot: seq<NodeInfo>) {
    forall i, j | 0 <= i < j < |snapshot| :: snapshot[i].addr != snapshot[j].addr
  }

  // After a snapshot the row at each listed address is the node's, or the node's merged into the one before it.
  lemma SnapshotRow(nodes: map<string, Row>, generatedAt: string, snapshot: seq<NodeInfo>, geo: map<string, Geo>, i: nat)
    requires DistinctNodes(snapshot) && i < |snapshot|
    ensures var after := UpsertAll(nodes, Writes(generatedAt, snapshot, geo));
      snapshot[i].addr in after && RowAfter(nodes, snapshot[i], generatedAt, geo, after[snapshot[i].addr])
  {
    var writes := Writes(generatedAt, snapshot, geo);
    WrittenOnce(nodes, writes, i);
    assert StoredAs(snapshot[i], generatedAt, geo, writes[i].row);
  }

  // The row of a listed node after the snapshot.
  ghost predicate RowAfter(nodes: map<string, Row>, n: NodeInfo, generatedAt: string, geo: map<string, Geo>, after: Row) {
    exists row ::
      StoredAs(n, generatedAt, geo, row) && after == if n.addr in nodes then Merge(nodes[n.addr], row) else row
  }

  // Writing the same snapshot again at any other time changes nothing, as long as every online node carries its own
  // stamp: nothing is refreshed by being listed, and everything ages.
  lemma RestampedSnapshot(nodes: map<string, Row>, snapshot: seq<NodeInfo>, geo: map<string, Geo>, first: string, later: string)
    requires DistinctNodes(snapshot) && forall i | 0 <= i < |snapshot| && snapshot[i].online :: snapshot[i].lastSeen != ""
    ensures var once := UpsertAll(nodes, Writes(first, snapshot, geo));
      UpsertAll(once, Writes(later, snapshot, geo)) == once
  {
    var w := Writes(first, snapshot, geo);
    assert Writes(later, snapshot, geo) == w;
    RepeatedSnapshot(nodes, w);
  }

  // ---- What no later write takes away ----

  // Row t has everything row s promises: a handshake, a first-seen stamp and every known measurement.
  predicate Keeps<T>(a: Option<T>, b: Option<T>) { a.Some? ==> b.Some? }

  predicate Retains(s: Row, t: Row) {
    && (s.core.handshaked ==> t.core.handshaked)
    && (s.firstSeen != "" ==> t.firstSeen == s.firstSeen)
    && Keeps(s.kept.lat, t.kept.lat) && Keeps(s.kept.lon, t.kept.lon) && Keeps(s.kept.country, t.kept.country)
    && Keeps(s.kept.countryCode, t.kept.countryCode) && Keeps(s.kept.city, t.kept.city)
    && Keeps(s.kept.latency, t.kept.latency)
  }

  // Over any writes on any table: no row is lost, no handshake undone, no first sight moved, nothing known blanked.
  lemma {:induction false} NothingLost(nodes: map<string, Row>, writes: seq<Write>)
    ensures nodes.Keys <= UpsertAll(nodes, writes).Keys
    ensures forall a | a in nodes :: Retains(nodes[a], UpsertAll(nodes, writes)[a])
  {
    if writes != [] {
      var front, w := writes[..|writes| - 1], writes[|writes| - 1];
      NothingLost(nodes, front);
      var before, after := UpsertAll(nodes, front), UpsertAll(nodes, writes);
      forall a | a in nodes ensures a in after && Retains(nodes[a], after[a]) {
        assert a in before && Retains(nodes[a], before[a]);
      }
    }
  }

  // A write without a handshake changes nothing of a row that has one.
  lemma FailedProbeIsIgnored(nodes: map<string, Row>, w: Write)
    requires w.addr in nodes && nodes[w.addr].core.handshaked && !w.row.core.handshaked
    ensures Upsert(nodes, w) == nodes
  {
    assert nodes[w.addr := nodes[w.addr]] == nodes;
  }

  predicate DistinctAddresses(writes: seq<Write>) {
    forall i, j | 0 <= i < j < |writes| :: writes[i].addr != writes[j].addr
  }

  lemma {:induction false} UntouchedStays(nodes: map<string, Row>, writes: seq<Write>, addr: string)
    requires forall i | 0 <= i < |writes| :: writes[i].addr != addr
    ensures var after := UpsertAll(nodes, writes);
      (addr in after <==> addr in nodes) && (addr in nodes ==> after[addr] == nodes[addr])
  {
    if writes != [] {
      UntouchedStays(nodes, writes[..|writes| - 1], addr);
    }
  }

  lemma MergeTwice(old': Row, r: Row)
    ensures Merge(Merge(old', r), r) == Merge(old', r)
    ensures Merge(r, r) == r
  {}

  // The row a snapshot with distinct addresses leaves at one of them.
  lemma {:induction false} WrittenOnce(nodes: map<string, Row>, writes: seq<Write>, i: nat)
    requires DistinctAddresses(writes) && i < |writes|
    ensures var w := writes[i]; var after := UpsertAll(nodes, writes);
      w.addr in after && after[w.addr] == if w.addr in nodes then Merge(nodes[w.addr], w.row) else w.row
  {
    var front := writes[..|writes| - 1];
    if i < |front| {
      WrittenOnce(nodes, front, i);
    } else {
      UntouchedStays(nodes, front, writes[i].addr);
    }
  }

  // Writing the same snapshot again changes nothing.
  lemma RepeatedSnapshot(nodes: map<string, Row>, writes: seq<Write>)
    requires DistinctAddresses(writes)
    ensures var once := UpsertAll(nodes, writes); UpsertAll(once, writes) == once
  {
    var once := UpsertAll(nodes, writes);
    var twice := UpsertAll(once, writes);
    forall a ensures (a in twice <==> a in once) && (a in once ==> twice[a] == once[a]) {
      if i :| 0 <= i < |writes| && writes[i].addr == a {
        WrittenOnce(nodes, writes, i);
        WrittenOnce(once, writes, i);
        if a in nodes { MergeTwice(nodes[a], writes[i].row); } else { MergeTwice(writes[i].row, writes[i].row); }
      } else {
        UntouchedStays(once, writes, a);
      }
    }
  }

  // ---- Pruning ----

  lemma {:induction false} BeforeIrreflexive(s: string)
    ensures !Before(s, s)
  {
    if s != [] { BeforeIrreflexive(s[1..]); }
  }

  // If s is not before t and t is not before u, s is not before u.
  lemma {:induction false} NotBeforeTransitive(s: string, t: string, u: string)
    requires !Before(s, t) && !Before(t, u)
    ensures !Before(s, u)
  {
    if s != [] && t != [] && u != [] && s[0] == t[0] == u[0] {
      NotBeforeTransitive(s[1..], t[1..], u[1..]);
    }
  }

  lemma LaterCutoffSeesSame(nodes: map<string, Row>, pruned: string, read: string)
    requires !Before(read, pruned) && read != ""
    ensures FreshSince(Some(read), PruneBefore(pruned, nodes)) == FreshSince(Some(read), nodes)
  {
    forall a | a in FreshSince(Some(read), nodes) ensures !Dead(nodes[a], pruned) {
      NotBeforeTransitive(nodes[a].core.lastSeen, read, pruned);
    }
    assert FreshSince(Some(read), PruneBefore(pruned, nodes)).Keys == FreshSince(Some(read), nodes).Keys;
  }

  lemma EarlierCutoffHides(pruned: string, read: string) returns (nodes: map<string, Row>)
    requires Before(read, pruned)
    ensures FreshSince(Some(read), PruneBefore(pruned, nodes)) != FreshSince(Some(read), nodes)
  {
    nodes := map["x" := Row(Core(1, "", true, read, 0, true), "", Kept(None, None, None, None, None, None))];
    BeforeIrreflexive(read);
    assert "x" in FreshSince(Some(read), nodes);
    assert "x" !in PruneBefore(pruned, nodes);
    assert "x" !in FreshSince(Some(read), PruneBefore(pruned, nodes));
  }

  // The second a cutoff names.
  function SecsAgo(now: nat, secs: nat): nat { if secs <= now then now - secs else 0 }

  lemma CutoffOrder(later: nat, age: nat, now: nat, keep: nat)
    requires later < YEAR_10000 && now < YEAR_10000
    ensures Before(IsoSecsAgo(later, age), IsoSecsAgo(now, keep)) <==> SecsAgo(later, age) < SecsAgo(now, keep)
    ensures IsoSecsAgo(later, age) != ""
  {
    TextOrderIsTimeOrder(SecsAgo(later, age), SecsAgo(now, keep));
    TwentyCharacters(SecsAgo(later, age));
  }

  lemma ShortWindowSeesSame(nodes: map<string, Row>, now: nat, keepDays: nat, later: nat, age: nat)
    requires now < YEAR_10000 && later < YEAR_10000 && age > 0
    requires SecsAgo(now, KeepSecs(keepDays)) <= SecsAgo(later, age)
    ensures Fresh(later, age, PruneNodes(now, keepDays, nodes)) == Fresh(later, age, nodes)
  {
    CutoffOrder(later, age, now, KeepSecs(keepDays));
    LaterCutoffSeesSame(nodes, IsoSecsAgo(now, KeepSecs(keepDays)), IsoSecsAgo(later, age));
  }

  // A reader with aging disabled sees every row marked online, however old.
  lemma NoCutoffLoses(pruned: string) returns (nodes: map<string, Row>)
    ensures FreshSince(None, PruneBefore(pruned, nodes)) != FreshSince(None, nodes)
  {
    nodes := map["x" := Row(Core(1, "", true, "", 0, true), "", Kept(None, None, None, None, None, None))];
    assert "x" in FreshSince(None, nodes);
    assert "x" !in PruneBefore(pruned, nodes);
    assert "x" !in FreshSince(None, PruneBefore(pruned, nodes));
  }

  // Pruning hides nothing from a reader, whatever the database, if and only if the reader has a window and it reaches
  // no further back than the cutoff pruned at.
  lemma PruneIsExact(now: nat, keepDays: nat, later: nat, age: nat)
    requires now < YEAR_10000 && later < YEAR_10000
    ensures (forall nodes: map<string, Row> :: Fresh(later, age, PruneNodes(now, keepDays, nodes)) == Fresh(later, age, nodes))
        <==> age > 0 && SecsAgo(now, KeepSecs(keepDays)) <= SecsAgo(later, age)
  {
    var pruned, read := IsoSecsAgo(now, KeepSecs(keepDays)), IsoSecsAgo(later, age);
    CutoffOrder(later, age, now, KeepSecs(keepDays));
    if age == 0 {
      var nodes := NoCutoffLoses(pruned);
      assert Fresh(later, age, PruneNodes(now, keepDays, nodes)) != Fresh(later, age, nodes);
    } else if Before(read, pruned) {
      var nodes := EarlierCutoffHides(pruned, read);
      assert Fresh(later, age, PruneNodes(now, keepDays, nodes)) != Fresh(later, age, nodes);
    } else {
      forall nodes: map<string, Row>
        ensures Fresh(later, age, PruneNodes(now, keepDays, nodes)) == Fresh(later, age, nodes)
      {
        ShortWindowSeesSame(nodes, now, keepDays, later, age);
      }
    }
  }

  // In seconds: a row confirmed at second x survives pruning exactly when it is our own node's or x lies no more than
  // the days kept back, and a reader sees it exactly when it is online and x lies within its window, if it has one.
  lemma AgesAre(nodes: map<string, Row>, now: nat, keepDays: nat, age: nat, a: string, x: nat)
    requires now < YEAR_10000 && x < YEAR_10000 && keepDays * 86400 < 0x1_0000_0000_0000_0000
    requires a in nodes && nodes[a].core.lastSeen == IsoFromUnix(x)
    ensures a in PruneNodes(now, keepDays, nodes) <==> nodes[a].core.depth == 0 || now <= x + keepDays * 86400
    ensures a in Fresh(now, age, nodes) <==> nodes[a].core.online && (age == 0 || now <= x + age)
  {
    KeepSecsIs(keepDays);
    StampAge(x, now, keepDays * 86400);
    StampAge(x, now, age);
  }

  lemma KeepSecsIs(keepDays: nat)
    requires keepDays * 86400 < 0x1_0000_0000_0000_0000
    ensures KeepSecs(keepDays) == keepDays * 86400
  {
    DivModIs(keepDays * 86400, 0x1_0000_0000_0000_0000, 0, keepDays * 86400);
  }

  lemma StampAge(x: nat, now: nat, secs: nat)
    requires now < YEAR_10000 && x < YEAR_10000
    ensures IsoFromUnix(x) != "" && (Before(IsoFromUnix(x), IsoSecsAgo(now, secs)) <==> x + secs < now)
  {
    TwentyCharacters(x);
    TextOrderIsTimeOrder(x, SecsAgo(now, secs));
  }

  // So no reader, now or later, loses a node to pruning when its window is no longer than the days kept, as long as
  // their seconds fit in 64 bits.
  lemma PruneKeepsFresh(nodes: map<string, Row>, now: nat, keepDays: nat, later: nat, age: nat)
    requires now <= later < YEAR_10000
    requires 0 < age <= keepDays * 86400 < 0x1_0000_0000_0000_0000
    ensures Fresh(later, age, PruneNodes(now, keepDays, nodes)) == Fresh(later, age, nodes)
  {
    KeepSecsIs(keepDays);
    ShortWindowSeesSame(nodes, now, keepDays, later, age);
  }

  // 213503982334602 days are 61184 seconds too many for 64 bits: less than a day is kept then, and a reader with a
  // window of three days can lose a node.
  lemma PruneWraps() returns (nodes: map<string, Row>)
    ensures var keepDays, now := 213503982334602, 1700000000;
      Fresh(now, 3 * 86400, PruneNodes(now, keepDays, nodes)) != Fresh(now, 3 * 86400, nodes)
  {
    var keepDays, now := 213503982334602, 1700000000;
    assert KeepSecs(keepDays) == keepDays * 86400 - 0x1_0000_0000_0000_0000;
    PruneIsExact(now, keepDays, now, 3 * 86400);
    nodes :| Fresh(now, 3 * 86400, PruneNodes(now, keepDays, nodes)) != Fresh(now, 3 * 86400, nodes);
  }

  // After pruning every edge has both its ends, our own node is still there, and pruning again at the same cutoff
  // deletes nothing.
  lemma PruneSettles(nodes: map<string, Row>, edges: set<Edge>, cutoff: string)
    ensures var n := PruneBefore(cutoff, nodes);
      var e := PruneEdges(n, edges);
      && (forall x | x in e :: x.from in n && x.to in n)
      && (forall x | x in edges && x !in e :: x.from !in n || x.to !in n)
      && (forall a | a in nodes && nodes[a].core.depth == 0 :: a in n && n[a] == nodes[a])
      && PruneBefore(cutoff, n) == n
      && PruneEdges(n, e) == e
  {}
}
