// What a crawl stores is what the split alarm is about: over an honest network the records of a finished crawl come from
// one genuine survey, so the alarm on them is exact (src/crawler.rs with src/p2p.rs and src/node.rs).
module CrawlSurvey {
  import opened Prelude
  import opened Peers
  import opened ChainSurvey
  import opened ChainSplit
  import opened ChainAlarm
  import opened Crawl
  import opened CrawlProgress
  import opened CrawlOutcome
  import opened CrawlStart

  // Our chain up to the tip, each peer's own chain, and what the crawl was told to survey: the whole locator, and the
  // reference height below the tip. Every peer that answers answers honestly.
  ghost predicate HonestNetwork(cfg: Config, ours: seq<Hash>, tip: nat, chains: Peer -> seq<Hash>) {
    && tip > LOCATOR_START_LAG && |ours| == tip + 1
    && cfg.locator == Fetched(NodeOf(ours), Heights(tip)) && cfg.refHeight == tip - 6
    && (forall p: Peer :: Coherent(ours, chains(p)))
    && (forall p: Peer, q: Peer :: Coherent(chains(p), chains(q)))
    && forall p: Peer | cfg.probe(p).Some? :: cfg.probe(p).value.headers == HonestReply(chains(p), cfg.locator)
  }

  // What is known of a seed beforehand is no survey.
  predicate Unsurveyed(seeds: seq<Seed>) {
    forall x | x in seeds && x.known.Some? :: x.known.value.chainHash == ""
  }

  // The record of p as part of the survey; a peer that did not answer reported nothing, as if it had no chain.
  ghost function SurveyOf(cfg: Config, ours: seq<Hash>, tip: nat, chains: Peer -> seq<Hash>, p: Peer, n: NodeInfo): Survey
    requires tip > LOCATOR_START_LAG
  {
    Survey(n, ours, cfg.locator, tip - CHAIN_REF_LAG, if cfg.probe(p).Some? then chains(p) else [])
  }

  lemma EmptyChain(ours: seq<Hash>, locator: seq<LocatorEntry>, target: int)
    ensures Coherent(ours, []) && (Coherent(ours, ours) ==> Coherent([], ours))
    ensures PeerHashAt(HonestReply([], locator), locator, target) == ""
  {}

  lemma {:induction false} FirstMentionKnown(cfg: Config, seeds: seq<Seed>, p: Peer)
    requires Unsurveyed(seeds)
    ensures KnownBefore(cfg, seeds, p).Some? ==> KnownBefore(cfg, seeds, p).value.chainHash == ""
  {
    MentionIn(cfg, seeds, p);
  }

  lemma {:induction false} MentionIn(cfg: Config, seeds: seq<Seed>, p: Peer)
    ensures FirstMention(cfg, seeds, p).Some? ==> FirstMention(cfg, seeds, p).value in seeds
  {
    if seeds != [] {
      MentionIn(cfg, seeds[..|seeds| - 1], p);
      assert forall x | x in seeds[..|seeds| - 1] :: x in seeds;
    }
  }

  // Whatever is stored of a peer is a genuine record of the survey.
  lemma StoredIsGenuine(cfg: Config, ours: seq<Hash>, tip: nat, chains: Peer -> seq<Hash>, seeds: seq<Seed>, p: Peer,
                        d: nat, n: NodeInfo)
    requires HonestNetwork(cfg, ours, tip, chains) && Unsurveyed(seeds) && Stored(cfg, seeds, p, d, n)
    ensures Genuine(SurveyOf(cfg, ours, tip, chains, p, n)) && Full(SurveyOf(cfg, ours, tip, chains, p, n))
    ensures cfg.probe(p).Some? ==> n.handshaked
  {
    LocatorComplete(NodeOf(ours), ours, tip);
    EmptyChain(ours, cfg.locator, cfg.refHeight);
    FirstMentionKnown(cfg, seeds, p);
  }

  // The records of the crawl in any order of its peers, and the survey they make.
  function Listed(nodes: map<Peer, NodeInfo>, order: seq<Peer>): seq<NodeInfo>
    requires forall i | 0 <= i < |order| :: order[i] in nodes
  {
    seq(|order|, i requires 0 <= i < |order| => nodes[order[i]])
  }

  ghost function SurveyRecords(cfg: Config, ours: seq<Hash>, tip: nat, chains: Peer -> seq<Hash>,
                               nodes: map<Peer, NodeInfo>, order: seq<Peer>): seq<Survey>
    requires tip > LOCATOR_START_LAG && forall i | 0 <= i < |order| :: order[i] in nodes
  {
    seq(|order|, i requires 0 <= i < |order| => SurveyOf(cfg, ours, tip, chains, order[i], nodes[order[i]]))
  }

  // The peer answered, holds this block at the reference height, and shares our block at the anchor floor.
  ghost predicate OnBlock(cfg: Config, ours: seq<Hash>, tip: nat, chains: Peer -> seq<Hash>, block: Hash, p: Peer)
    requires tip > LOCATOR_START_LAG
  {
    && cfg.probe(p).Some?
    && tip - 6 < |chains(p)| && chains(p)[tip - 6] == block
    && Shares(ours, chains(p), AnchorFloor(tip))
  }

  ghost function OnBlockAs(cfg: Config, ours: seq<Hash>, tip: nat, chains: Peer -> seq<Hash>, block: Hash): Peer -> nat
    requires tip > LOCATOR_START_LAG
  {
    (p: Peer) => if OnBlock(cfg, ours, tip, chains, block, p) then 1 else 0
  }

  // Two blocks with k of these peers each.
  ghost predicate TwoCampsOf(cfg: Config, ours: seq<Hash>, tip: nat, chains: Peer -> seq<Hash>, peers: seq<Peer>, k: nat)
    requires tip > LOCATOR_START_LAG
  {
    exists b: Hash, c: Hash ::
      && b != c && Total(OnBlockAs(cfg, ours, tip, chains, b), peers) >= k
      && Total(OnBlockAs(cfg, ours, tip, chains, c), peers) >= k
  }

  // Every listed peer is stored as the network and the seeds determine.
  ghost predicate AllStored(cfg: Config, seeds: seq<Seed>, nodes: map<Peer, NodeInfo>, order: seq<Peer>) {
    forall i | 0 <= i < |order| :: order[i] in nodes && exists d: nat :: Stored(cfg, seeds, order[i], d, nodes[order[i]])
  }

  lemma RecordsAreWorld(cfg: Config, ours: seq<Hash>, tip: nat, chains: Peer -> seq<Hash>, seeds: seq<Seed>,
                        nodes: map<Peer, NodeInfo>, order: seq<Peer>)
    requires HonestNetwork(cfg, ours, tip, chains) && Unsurveyed(seeds) && AllStored(cfg, seeds, nodes, order)
    ensures var records := SurveyRecords(cfg, ours, tip, chains, nodes, order);
      && World(records) && Infos(records) == Listed(nodes, order)
      && forall r | r in records :: Full(r) && r.target == tip - CHAIN_REF_LAG
  {
    var records := SurveyRecords(cfg, ours, tip, chains, nodes, order);
    forall i | 0 <= i < |records| ensures Genuine(records[i]) && Full(records[i]) {
      var d: nat :| Stored(cfg, seeds, order[i], d, nodes[order[i]]);
      StoredIsGenuine(cfg, ours, tip, chains, seeds, order[i], d, nodes[order[i]]);
    }
    forall i, j | 0 <= i < |records| && 0 <= j < |records| ensures Coherent(records[i].chain, records[j].chain) {
      EmptyChain(records[i].chain, [], 0);
      EmptyChain(records[j].chain, [], 0);
    }
  }

  lemma CountedAlike(cfg: Config, ours: seq<Hash>, tip: nat, chains: Peer -> seq<Hash>, seeds: seq<Seed>, block: Hash,
                     p: Peer, n: NodeInfo)
    requires HonestNetwork(cfg, ours, tip, chains) && Unsurveyed(seeds) && exists d: nat :: Stored(cfg, seeds, p, d, n)
    ensures AnchoredAs(block)(SurveyOf(cfg, ours, tip, chains, p, n)) == OnBlockAs(cfg, ours, tip, chains, block)(p)
  {
    var d: nat :| Stored(cfg, seeds, p, d, n);
    StoredIsGenuine(cfg, ours, tip, chains, seeds, p, d, n);
  }

  lemma AnchoredCount(cfg: Config, ours: seq<Hash>, tip: nat, chains: Peer -> seq<Hash>, seeds: seq<Seed>,
                      nodes: map<Peer, NodeInfo>, order: seq<Peer>, block: Hash)
    requires HonestNetwork(cfg, ours, tip, chains) && Unsurveyed(seeds) && AllStored(cfg, seeds, nodes, order)
    ensures Total(AnchoredAs(block), SurveyRecords(cfg, ours, tip, chains, nodes, order))
         == Total(OnBlockAs(cfg, ours, tip, chains, block), order)
  {
    var records := SurveyRecords(cfg, ours, tip, chains, nodes, order);
    forall i | 0 <= i < |records|
      ensures AnchoredAs(block)(records[i]) == OnBlockAs(cfg, ours, tip, chains, block)(order[i])
    {
      CountedAlike(cfg, ours, tip, chains, seeds, block, order[i], nodes[order[i]]);
    }
    TotalMatch(AnchoredAs(block), records, OnBlockAs(cfg, ours, tip, chains, block), order);
  }

  lemma AlarmOnStored(cfg: Config, ours: seq<Hash>, tip: nat, chains: Peer -> seq<Hash>, seeds: seq<Seed>,
                      nodes: map<Peer, NodeInfo>, order: seq<Peer>, k: nat)
    requires HonestNetwork(cfg, ours, tip, chains) && Unsurveyed(seeds) && AllStored(cfg, seeds, nodes, order) && k > 0
    ensures TwoClusters(Listed(nodes, order), k) <==> TwoCampsOf(cfg, ours, tip, chains, order, k)
  {
    var records := SurveyRecords(cfg, ours, tip, chains, nodes, order);
    RecordsAreWorld(cfg, ours, tip, chains, seeds, nodes, order);
    FullSurveyIsExact(records, k, tip - CHAIN_REF_LAG);
    forall b: Hash { AnchoredCount(cfg, ours, tip, chains, seeds, nodes, order, b); }
    if SplitAboveFloor(records, k) {
      var b: Hash, c: Hash :| b != c && Total(AnchoredAs(b), records) >= k && Total(AnchoredAs(c), records) >= k;
      assert Total(OnBlockAs(cfg, ours, tip, chains, b), order) >= k;
    }
    if TwoCampsOf(cfg, ours, tip, chains, order, k) {
      var b: Hash, c: Hash :|
        && b != c && Total(OnBlockAs(cfg, ours, tip, chains, b), order) >= k
        && Total(OnBlockAs(cfg, ours, tip, chains, c), order) >= k;
      assert Total(AnchoredAs(b), records) >= k;
    }
  }

  // From the first probe to the alarm: when a fresh crawl without limits is over, under any schedule, two clusters of k
  // among the records it stored exist if and only if two blocks at the reference height have k peers each that gossip
  // reaches, that answered, and that share our block at the anchor floor.
  lemma CrawlAlarmIsExact(text: AddrText, port: nat, cfg: Config, threads: nat, torThreads: nat, seeds: seq<Seed>,
                          schedule: seq<Event>, ours: seq<Hash>, tip: nat, chains: Peer -> seq<Hash>, order: seq<Peer>, k: nat)
    requires cfg.maxDepth == 0 && cfg.maxNodes == 0 && k > 0
    requires HonestNetwork(cfg, ours, tip, chains) && Unsurveyed(seeds)
    requires var s := Start(text, port, cfg, threads, torThreads, None, seeds);
      && Follows(cfg, s, schedule) && Over(After(cfg, s, schedule))
      && (forall i, j | 0 <= i < j < |order| :: order[i] != order[j])
      && (forall p: Peer :: p in order <==> p in After(cfg, s, schedule).nodes)
    ensures forall p: Peer :: p in order <==> ReachableFrom(cfg, seeds, p)
    ensures var t := After(cfg, Start(text, port, cfg, threads, torThreads, None, seeds), schedule);
      && (forall i | 0 <= i < |order| :: order[i] in t.nodes)
      && (TwoClusters(Listed(t.nodes, order), k) <==> TwoCampsOf(cfg, ours, tip, chains, order, k))
  {
    var t := After(cfg, Start(text, port, cfg, threads, torThreads, None, seeds), schedule);
    FreshCrawlFindsAll(text, port, cfg, threads, torThreads, seeds, schedule);
    forall i | 0 <= i < |order|
      ensures order[i] in t.nodes && exists d: nat :: Stored(cfg, seeds, order[i], d, t.nodes[order[i]])
    {
      assert order[i] in order;
    }
    AlarmOnStored(cfg, ours, tip, chains, seeds, t.nodes, order, k);
  }
}
