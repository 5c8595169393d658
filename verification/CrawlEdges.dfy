// The edges of the map: who gossiped whom.
module CrawlEdges {
  import opened Prelude
  import opened Peers
  import opened Crawl
  import opened CrawlProgress
  import opened CrawlOutcome
  import opened CrawlStart

  // The edge is there because p named q.
  ghost predicate Drawn(cfg: Config, e: Edge, p: Peer, q: Peer) {
    Gossips(cfg, p, q) && e == Edge(cfg.show(p), cfg.show(q))
  }

  // The edges of one peer lead to peers it named: to all of them when there is no quota, and never to more than it.
  lemma EdgesOfOne(cfg: Config, p: Peer)
    ensures forall e | e in EdgesFrom(cfg, p) :: exists q :: Drawn(cfg, e, p, q)
    ensures cfg.edgesPerNode == 0 ==> forall e, q | Drawn(cfg, e, p, q) :: e in EdgesFrom(cfg, p)
    ensures cfg.edgesPerNode > 0 ==> |EdgesFrom(cfg, p)| <= cfg.edgesPerNode
  {
    if cfg.probe(p).Some? {
      var found := cfg.probe(p).value.peers;
      var allowed := AllowedPeers(cfg, found);
      FilterIn(cfg.Allowed, found);
      var edges := EdgesOf(cfg, p, allowed);
      forall e | e in edges ensures exists q :: Drawn(cfg, e, p, q) {
        var k :| 0 <= k < |edges| && edges[k] == e;
        assert allowed[k] in allowed;
        assert Drawn(cfg, e, p, allowed[k]);
      }
      if cfg.edgesPerNode == 0 {
        forall e, q | Drawn(cfg, e, p, q) ensures e in edges {
          var k :| 0 <= k < |allowed| && allowed[k] == q;
          assert edges[k] == e;
        }
      }
    }
  }

  lemma {:induction false} EdgesAre(cfg: Config, expanded: seq<Peer>)
    ensures forall e | e in AllEdges(cfg, expanded) :: exists p, q :: p in expanded && Drawn(cfg, e, p, q)
    ensures cfg.edgesPerNode == 0 ==> forall e, p, q | p in expanded && Drawn(cfg, e, p, q) :: e in AllEdges(cfg, expanded)
    ensures cfg.edgesPerNode > 0 ==> |AllEdges(cfg, expanded)| <= |expanded| * cfg.edgesPerNode
  {
    if expanded != [] {
      var front, p := expanded[..|expanded| - 1], expanded[|expanded| - 1];
      assert expanded == front + [p];
      EdgesAre(cfg, front);
      EdgesOfOne(cfg, p);
      OneMore(|front|, cfg.edgesPerNode);
    }
  }

  lemma OneMore(n: nat, k: nat)
    ensures (n + 1) * k == n * k + k
  {}

  // The edges of a finished unlimited fresh crawl: each joins a peer found to a crawlable one it named, and without a
  // quota every such pair is joined.
  lemma FreshCrawlEdges(text: AddrText, port: nat, cfg: Config, threads: nat, torThreads: nat, seeds: seq<Seed>,
                        schedule: seq<Event>)
    requires cfg.maxDepth == 0 && cfg.maxNodes == 0
    requires Follows(cfg, Start(text, port, cfg, threads, torThreads, None, seeds), schedule)
    requires Over(After(cfg, Start(text, port, cfg, threads, torThreads, None, seeds), schedule))
    ensures var t := After(cfg, Start(text, port, cfg, threads, torThreads, None, seeds), schedule);
      && (forall e | e in t.edges :: exists p, q :: ReachableFrom(cfg, seeds, p) && Drawn(cfg, e, p, q))
      && (cfg.edgesPerNode == 0 ==>
            forall e, p, q | ReachableFrom(cfg, seeds, p) && Drawn(cfg, e, p, q) :: e in t.edges)
  {
    FreshCrawlFindsAll(text, port, cfg, threads, torThreads, seeds, schedule);
    EdgesFollowed(cfg, seeds, After(cfg, Start(text, port, cfg, threads, torThreads, None, seeds), schedule));
  }

  lemma EdgesFollowed(cfg: Config, seeds: seq<Seed>, t: State)
    requires FoundAll(cfg, seeds, t)
    ensures forall e | e in t.edges :: exists p, q :: ReachableFrom(cfg, seeds, p) && Drawn(cfg, e, p, q)
    ensures cfg.edgesPerNode == 0 ==>
      forall e, p, q | ReachableFrom(cfg, seeds, p) && Drawn(cfg, e, p, q) :: e in t.edges
  {
    EdgesAre(cfg, t.expanded);
    forall e | e in t.edges ensures exists p, q :: ReachableFrom(cfg, seeds, p) && Drawn(cfg, e, p, q) {
      var p, q :| p in t.expanded && Drawn(cfg, e, p, q);
      assert p in t.seen;
    }
    if cfg.edgesPerNode == 0 {
      forall e, p, q | ReachableFrom(cfg, seeds, p) && Drawn(cfg, e, p, q) ensures e in t.edges {
        assert p in t.seen;
      }
    }
  }
}
