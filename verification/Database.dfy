// The database as the program changes it in place (src/db.rs): snapshots merged row by row, and pruning.
module Database {
  import opened Peers
  import opened Time
  import opened Store
  import opened StoreProofs

  // Confirmed at the cutoff or later.
  predicate FromCutoffOn(row: Row, cutoff: string) { row.core.lastSeen != "" && !Before(row.core.lastSeen, cutoff) }

  lemma OneMore(nodes: map<string, Row>, writes: seq<Write>, i: nat)
    requires i < |writes|
    ensures UpsertAll(nodes, writes[..i + 1]) == Upsert(UpsertAll(nodes, writes[..i]), writes[i])
  {
    assert writes[..i + 1][..i] == writes[..i];
  }

  lemma Unchanged<K, V>(m: map<K, V>, k: K)
    requires k in m
    ensures m[k := m[k]] == m
  {}

  lemma SetPush(found: seq<Edge>, i: nat)
    requires i < |found|
    ensures EdgeSet(found[..i + 1]) == EdgeSet(found[..i]) + {found[i]}
  {
    assert found[..i + 1] == found[..i] + [found[i]];
  }

  class Db {
    var nodes: map<string, Row>
    var edges: set<Edge>

    constructor ()
      ensures nodes == map[] && edges == {}
    {
      nodes, edges := map[], {};
    }

    // One transaction of one crawler.
    method WriteSnapshot(generatedAt: string, snapshot: seq<NodeInfo>, found: seq<Edge>, geo: map<string, Geo>)
      modifies this
      ensures nodes == UpsertAll(old(nodes), Writes(generatedAt, snapshot, geo))
      ensures edges == old(edges) + EdgeSet(found)
      ensures DistinctNodes(snapshot) ==> forall i: nat | i < |snapshot| ::
        snapshot[i].addr in nodes && RowAfter(old(nodes), snapshot[i], generatedAt, geo, nodes[snapshot[i].addr])
    {
      ghost var writes := Writes(generatedAt, snapshot, geo);
      for i := 0 to |snapshot|
        invariant nodes == UpsertAll(old(nodes), writes[..i])
        invariant edges == old(edges)
      {
        OneMore(old(nodes), writes, i);
        var w := Incoming(snapshot[i], geo, generatedAt);
        if w.addr in nodes {
          if w.row.core.handshaked || !nodes[w.addr].core.handshaked {
            nodes := nodes[w.addr := Merge(nodes[w.addr], w.row)];
          } else {
            Unchanged(nodes, w.addr);
          }
        } else {
          nodes := nodes[w.addr := w.row];
        }
      }
      assert writes[..|snapshot|] == writes;
      for i := 0 to |found|
        invariant nodes == UpsertAll(old(nodes), writes)
        invariant edges == old(edges) + EdgeSet(found[..i])
      {
        SetPush(found, i);
        edges := edges + {found[i]};
      }
      assert found[..|found|] == found;
      if DistinctNodes(snapshot) {
        forall i: nat | i < |snapshot| { SnapshotRow(old(nodes), generatedAt, snapshot, geo, i); }
      }
    }

    // Refuses a window of no days. Otherwise both deletes happen, or neither: no reader, now or later, with a window no
    // longer than the days kept can tell the difference, every edge has both its ends, and only edges that lost one go.
    method PruneAndVacuum(now: nat, keepDays: nat) returns (ok: bool)
      modifies this
      ensures ok <==> keepDays != 0
      ensures !ok ==> nodes == old(nodes) && edges == old(edges)
      ensures ok ==> nodes == PruneNodes(now, keepDays, old(nodes)) && edges == PruneEdges(nodes, old(edges))
      ensures ok ==> forall a :: a in nodes <==>
        a in old(nodes) && (old(nodes)[a].core.depth == 0 || FromCutoffOn(old(nodes)[a], IsoSecsAgo(now, KeepSecs(keepDays))))
      ensures forall e :: e in edges <==> e in old(edges) && (ok ==> e.from in nodes && e.to in nodes)
      ensures keepDays * 86400 < 0x1_0000_0000_0000_0000 ==>
        forall later: nat, age: nat | now <= later < YEAR_10000 && 0 < age <= keepDays * 86400 ::
          Fresh(later, age, nodes) == Fresh(later, age, old(nodes))
    {
      if keepDays == 0 {
        return false;
      }
      var cutoff := IsoSecsAgo(now, KeepSecs(keepDays));
      DeleteDead(cutoff);
      DeleteLooseEdges();
      ok := true;
      if keepDays * 86400 < 0x1_0000_0000_0000_0000 {
        forall later: nat, age: nat | now <= later < YEAR_10000 && 0 < age <= keepDays * 86400
          ensures Fresh(later, age, nodes) == Fresh(later, age, old(nodes))
        {
          PruneKeepsFresh(old(nodes), now, keepDays, later, age);
        }
      }
    }

    // The first DELETE, row by row.
    method DeleteDead(cutoff: string)
      modifies this`nodes
      ensures nodes == PruneBefore(cutoff, old(nodes))
    {
      var todo := nodes.Keys;
      while todo != {}
        invariant todo <= nodes.Keys <= old(nodes).Keys
        invariant forall a | a in old(nodes) ::
          (a in nodes <==> a in todo || !Dead(old(nodes)[a], cutoff)) && (a in nodes ==> nodes[a] == old(nodes)[a])
        decreases todo
      {
        var addr :| addr in todo;
        todo := todo - {addr};
        if nodes[addr].core.depth != 0 && (nodes[addr].core.lastSeen == "" || Before(nodes[addr].core.lastSeen, cutoff)) {
          nodes := nodes - {addr};
        }
      }
    }

    // The second, edge by edge.
    method DeleteLooseEdges()
      modifies this`edges
      ensures edges == PruneEdges(nodes, old(edges))
    {
      var todo := edges;
      while todo != {}
        invariant todo <= edges <= old(edges)
        invariant forall e | e in old(edges) :: e in edges <==> e in todo || (e.from in nodes && e.to in nodes)
        decreases todo
      {
        var e :| e in todo;
        todo := todo - {e};
        if e.from !in nodes || e.to !in nodes {
          edges := edges - {e};
        }
      }
    }
  }
}
