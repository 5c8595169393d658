// What the split alarm means when the peers are honest (src/node.rs over src/main.rs and src/p2p.rs). A record keeps the
// block hash of the survey it was made in; a crawl resumed from a file mixes records of surveys at different heights.
module ChainAlarm {
  import opened Prelude
  import opened Peers
  import opened ChainSurvey
  import opened ChainSplit
  import Wire

  // A record and the survey it was made in: our chain then, the locator sent, the reference height, the peer's chain.
  datatype Survey = Survey(info: NodeInfo, ours: seq<Hash>, locator: seq<LocatorEntry>, target: nat, chain: seq<Hash>)

  // The record carries what the peer's honest reply was placed as.
  ghost predicate Genuine(r: Survey) {
    && OnOurChain(r.ours, r.locator) && Coherent(r.ours, r.chain)
    && r.info.chainHash == PeerHashAt(HonestReply(r.chain, r.locator), r.locator, r.target)
  }

  // Records of honest peers, and all their chains together: a block hash fixes its height and its history.
  ghost predicate World(records: seq<Survey>) {
    && (forall r | r in records :: Genuine(r))
    && (forall q, r | q in records && r in records :: Coherent(q.chain, r.chain))
  }

  function Infos(records: seq<Survey>): seq<NodeInfo> {
    seq(|records|, i requires 0 <= i < |records| => records[i].info)
  }

  function Targets(records: seq<Survey>): seq<nat> {
    seq(|records|, i requires 0 <= i < |records| => records[i].target)
  }

  // The peer answered, its reply reached the reference height, and this is its block there.
  ghost predicate Holds(r: Survey, block: Hash) {
    && r.info.handshaked && r.target < |r.chain| && r.chain[r.target] == block
    && Covered(r.ours, r.chain, r.locator, r.target)
  }

  ghost function HoldsAs(block: Hash): Survey -> nat { (r: Survey) => if Holds(r, block) then 1 else 0 }

  ghost function HoldsAtAs(height: nat, block: Hash): Survey -> nat {
    (r: Survey) => if Holds(r, block) && r.target == height then 1 else 0
  }

  ghost function Holders(records: seq<Survey>, block: Hash): nat { Total(HoldsAs(block), records) }

  ghost function HoldersAt(records: seq<Survey>, height: nat, block: Hash): nat {
    Total(HoldsAtAs(height, block), records)
  }

  ghost predicate TwoBlocks(records: seq<Survey>, k: nat) {
    exists b: Hash, c: Hash :: b != c && Holders(records, b) >= k && Holders(records, c) >= k
  }

  // A chain split: at one height two blocks, each reported from there by k peers that hold it.
  ghost predicate SplitAt(records: seq<Survey>, k: nat, height: nat) {
    exists b: Hash, c: Hash ::
      b != c && HoldersAt(records, height, b) >= k && HoldersAt(records, height, c) >= k
  }

  ghost predicate RealSplit(records: seq<Survey>, k: nat) { exists height :: SplitAt(records, k, height) }

  // ---- Clusters are blocks ----

  lemma SameBlock(a: Hash, b: Hash)
    ensures HashHex(a) != "" && (HashHex(a) == HashHex(b) <==> a == b)
  {
    HashHexLength(a);
    if HashHex(a) == HashHex(b) { HashHexInjective(a, b); }
  }

  // A record with this text of a hash is counted for a block exactly when the text is the block's.
  lemma CountedPlaced(n: NodeInfo, placed: Hash, block: Hash)
    requires n.handshaked && n.chainHash == HashHex(placed)
    ensures ReportedAs(HashHex(block))(n) == if placed == block then 1 else 0
  {
    SameBlock(placed, block);
  }

  lemma CountedUnplaced(n: NodeInfo, block: Hash)
    requires n.chainHash == "" || !n.handshaked
    ensures ReportedAs(HashHex(block))(n) == 0
  {}

  // One record is counted for a block exactly when its peer holds it.
  lemma CountedIff(r: Survey, block: Hash)
    requires Genuine(r)
    ensures ReportedAs(HashHex(block))(r.info) == HoldsAs(block)(r)
  {
    Placement(r.ours, r.chain, r.locator, r.target);
    if r.info.handshaked && r.target < |r.chain| && Covered(r.ours, r.chain, r.locator, r.target) {
      CountedPlaced(r.info, r.chain[r.target], block);
    } else {
      CountedUnplaced(r.info, block);
    }
  }

  // A block's cluster is exactly the peers that hold it, whatever surveys the records come from.
  lemma ClusterIs(records: seq<Survey>, block: Hash)
    requires forall r | r in records :: Genuine(r)
    ensures Cluster(Infos(records), HashHex(block)) == Holders(records, block)
  {
    forall i | 0 <= i < |records| ensures ReportedAs(HashHex(block))(Infos(records)[i]) == HoldsAs(block)(records[i]) {
      assert records[i] in records;
      CountedIff(records[i], block);
    }
    TotalMatch(ReportedAs(HashHex(block)), Infos(records), HoldsAs(block), records);
  }

  lemma HeldBlock(records: seq<Survey>, h: string) returns (block: Hash)
    requires (forall r | r in records :: Genuine(r)) && Cluster(Infos(records), h) > 0
    ensures h == HashHex(block) && Holders(records, block) == Cluster(Infos(records), h)
  {
    var i := SomePeer(Infos(records), h);
    var r := records[i];
    assert r in records;
    NeverMisplaced(r.ours, r.chain, r.locator, r.target);
    block := r.chain[r.target];
    ClusterIs(records, block);
  }

  // Two clusters of k are two blocks held by k peers each, at whatever heights.
  lemma ClustersAreBlocks(records: seq<Survey>, k: nat)
    requires (forall r | r in records :: Genuine(r)) && k > 0
    ensures TwoClusters(Infos(records), k) <==> TwoBlocks(records, k)
  {
    if TwoClusters(Infos(records), k) {
      var g, h :| g != h && Cluster(Infos(records), g) >= k && Cluster(Infos(records), h) >= k;
      var b := HeldBlock(records, g);
      var c := HeldBlock(records, h);
    }
    if TwoBlocks(records, k) {
      var b: Hash, c: Hash :| b != c && Holders(records, b) >= k && Holders(records, c) >= k;
      ClusterIs(records, b);
      ClusterIs(records, c);
      SameBlock(b, c);
    }
  }

  // ---- When two clusters are a split ----

  function IsTarget(height: nat): nat -> nat { (t: nat) => if t == height then 1 else 0 }

  // Two different reference heights, each of at least k records.
  ghost predicate TwoTargets(targets: seq<nat>, k: nat) {
    exists x: nat, y: nat :: x != y && Total(IsTarget(x), targets) >= k && Total(IsTarget(y), targets) >= k
  }

  lemma {:induction false} SomeHolder(records: seq<Survey>, block: Hash) returns (r: Survey)
    requires Holders(records, block) > 0
    ensures r in records && Holds(r, block)
  {
    var k := SomewhereIn(HoldsAs(block), records);
    r := records[k];
  }

  lemma HeldHeight(q: Survey, r: Survey, block: Hash)
    requires Coherent(q.chain, r.chain) && Holds(r, block)
    ensures HoldsAs(block)(q) == HoldsAtAs(r.target, block)(q) <= IsTarget(r.target)(q.target)
  {}

  // All holders of a block were surveyed at the height it stands at.
  lemma HeldAtOneHeight(records: seq<Survey>, block: Hash, r: Survey)
    requires World(records) && r in records && Holds(r, block)
    ensures Holders(records, block) == HoldersAt(records, r.target, block)
    ensures Holders(records, block) <= Total(IsTarget(r.target), Targets(records))
  {
    forall i | 0 <= i < |records|
      ensures HoldsAs(block)(records[i]) == HoldsAtAs(r.target, block)(records[i])
      ensures HoldsAs(block)(records[i]) <= IsTarget(r.target)(Targets(records)[i])
    {
      assert records[i] in records && Coherent(records[i].chain, r.chain);
      HeldHeight(records[i], r, block);
    }
    TotalMatch(HoldsAs(block), records, HoldsAtAs(r.target, block), records);
    TotalWithin(HoldsAs(block), records, IsTarget(r.target), Targets(records));
  }

  // With fewer than two reference heights of k records, two clusters of k are a split.
  lemma AlarmIsReal(records: seq<Survey>, k: nat)
    requires World(records) && k > 0 && TwoClusters(Infos(records), k) && !TwoTargets(Targets(records), k)
    ensures RealSplit(records, k)
  {
    ClustersAreBlocks(records, k);
    var b: Hash, c: Hash :| b != c && Holders(records, b) >= k && Holders(records, c) >= k;
    var q := SomeHolder(records, b);
    var r := SomeHolder(records, c);
    HeldAtOneHeight(records, b, q);
    HeldAtOneHeight(records, c, r);
    assert q.target == r.target;
    assert SplitAt(records, k, q.target);
  }

  // Two blocks held by k peers each whose replies reached the reference height always show. Peers on a fork too deep for
  // their reply to be placed hold nothing here, however many they are (DeepSplitIsSilent).
  lemma RealSplitShows(records: seq<Survey>, k: nat)
    requires World(records) && k > 0 && RealSplit(records, k)
    ensures TwoClusters(Infos(records), k)
  {
    var height :| SplitAt(records, k, height);
    var b: Hash, c: Hash :| b != c && HoldersAt(records, height, b) >= k && HoldersAt(records, height, c) >= k;
    TotalWithin(HoldsAtAs(height, b), records, HoldsAs(b), records);
    TotalWithin(HoldsAtAs(height, c), records, HoldsAs(c), records);
    assert Holders(records, b) >= k && Holders(records, c) >= k;
    ClustersAreBlocks(records, k);
  }

  // One survey: the alarm is exact.
  lemma OneSurveyIsExact(records: seq<Survey>, k: nat, height: nat)
    requires World(records) && k > 0 && forall r | r in records :: r.target == height
    ensures TwoClusters(Infos(records), k) <==> SplitAt(records, k, height)
  {
    if TwoClusters(Infos(records), k) {
      OneTarget(records, height, k);
      AlarmIsReal(records, k);
      var x :| SplitAt(records, k, x);
      var b: Hash, c: Hash :| b != c && HoldersAt(records, x, b) >= k && HoldersAt(records, x, c) >= k;
      var i := SomewhereIn(HoldsAtAs(x, b), records);
      assert records[i] in records;
    }
    if SplitAt(records, k, height) { RealSplitShows(records, k); }
  }

  lemma OneTarget(records: seq<Survey>, height: nat, k: nat)
    requires k > 0 && forall r | r in records :: r.target == height
    ensures !TwoTargets(Targets(records), k)
  {
    forall x: nat | x != height ensures Total(IsTarget(x), Targets(records)) == 0 {
      forall i | 0 <= i < |records| ensures IsTarget(x)(Targets(records)[i]) == 0 { assert records[i] in records; }
      TotalZero(IsTarget(x), Targets(records));
    }
  }

  // With the full locator a peer holds its block exactly when it shares our block at the anchor floor.
  lemma HoldsIffAnchored(r: Survey, block: Hash)
    requires Genuine(r) && Full(r)
    ensures Holds(r, block) <==>
      r.info.handshaked && r.target < |r.chain| && r.chain[r.target] == block
      && Shares(r.ours, r.chain, AnchorFloor(r.target + CHAIN_REF_LAG))
  {
    var tip := r.target + CHAIN_REF_LAG;
    LocatorComplete(NodeOf(r.ours), r.ours, tip);
    CoveredIffAnchored(r.ours, r.chain, r.locator, tip);
  }

  ghost function AnchoredAs(block: Hash): Survey -> nat {
    (r: Survey) => if Anchored(r, block) then 1 else 0
  }

  // The peer answered, has this block at the reference height, and shares our block at the anchor floor.
  ghost predicate Anchored(r: Survey, block: Hash) {
    && r.target + CHAIN_REF_LAG > LOCATOR_START_LAG
    && r.info.handshaked && r.target < |r.chain| && r.chain[r.target] == block
    && Shares(r.ours, r.chain, AnchorFloor(r.target + CHAIN_REF_LAG))
  }

  ghost predicate SplitAboveFloor(records: seq<Survey>, k: nat) {
    exists b: Hash, c: Hash ::
      b != c && Total(AnchoredAs(b), records) >= k && Total(AnchoredAs(c), records) >= k
  }

  lemma AnchoredHolders(records: seq<Survey>, height: nat, block: Hash)
    requires World(records) && forall r | r in records :: Full(r) && r.target == height
    ensures HoldersAt(records, height, block) == Total(AnchoredAs(block), records)
  {
    forall i | 0 <= i < |records| ensures HoldsAtAs(height, block)(records[i]) == AnchoredAs(block)(records[i]) {
      assert records[i] in records;
      HoldsIffAnchored(records[i], block);
    }
    TotalMatch(HoldsAtAs(height, block), records, AnchoredAs(block), records);
  }

  // One survey with the full locator raises the alarm exactly when two blocks at the reference height have k peers each
  // that share our block at the anchor floor.
  lemma FullSurveyIsExact(records: seq<Survey>, k: nat, height: nat)
    requires World(records) && k > 0 && forall r | r in records :: Full(r) && r.target == height
    ensures TwoClusters(Infos(records), k) <==> SplitAboveFloor(records, k)
  {
    OneSurveyIsExact(records, k, height);
    if SplitAt(records, k, height) {
      var b: Hash, c: Hash :| b != c && HoldersAt(records, height, b) >= k && HoldersAt(records, height, c) >= k;
      AnchoredHolders(records, height, b);
      AnchoredHolders(records, height, c);
    }
    if SplitAboveFloor(records, k) {
      var b: Hash, c: Hash :| b != c && Total(AnchoredAs(b), records) >= k && Total(AnchoredAs(c), records) >= k;
      AnchoredHolders(records, height, b);
      AnchoredHolders(records, height, c);
    }
  }

  // Our node answers for its own chain.
  function NodeOf(ours: seq<Hash>): int -> Option<Hash> {
    (h: int) => if 0 <= h < |ours| then Some(ours[h]) else None
  }

  // The survey the program makes at the tip of our chain, no fetch failing.
  ghost predicate Full(r: Survey) {
    && r.target + CHAIN_REF_LAG > LOCATOR_START_LAG && |r.ours| == r.target + CHAIN_REF_LAG + 1
    && r.locator == Fetched(NodeOf(r.ours), Heights(r.target + CHAIN_REF_LAG))
  }

  // ---- When they are not ----

  const MAX_HEIGHT := 0x8000_0000_0000_0000

  lemma {:induction false} LeLength(n: nat, k: nat)
    ensures |Wire.LeBytes(n, k)| == k
  {
    if k > 0 { LeLength(n / 256, k - 1); }
  }

  lemma {:induction false} Pow256Grows(a: nat, b: nat)
    requires a <= b
    ensures Wire.Pow256(a) <= Wire.Pow256(b)
  {
    if a < b { Pow256Grows(a, b - 1); }
  }

  // Different hashes for different heights.
  function Block(height: nat): Hash {
    LeLength(height, 32);
    Wire.LeBytes(height, 32)
  }

  lemma BlocksDiffer(x: nat, y: nat)
    requires x < 2 * MAX_HEIGHT && y < 2 * MAX_HEIGHT && Block(x) == Block(y)
    ensures x == y
  {
    Wire.Pow256s();
    Pow256Grows(8, 32);
    Wire.LeRoundTrip(x, 32);
    Wire.LeRoundTrip(y, 32);
  }

  function Chain(n: nat): seq<Hash> { seq(n, i requires 0 <= i < n => Block(i)) }

  lemma ChainCoherent(m: nat, n: nat)
    requires m <= n <= 2 * MAX_HEIGHT
    ensures Coherent(Chain(m), Chain(n)) && Coherent(Chain(n), Chain(n))
  {
    forall i, j | 0 <= i < n && 0 <= j < n && Chain(n)[i] == Chain(n)[j] ensures i == j { BlocksDiffer(i, j); }
    forall i | 0 <= i < m ensures Chain(m)[i] == Chain(n)[i] && Chain(m)[..i] == Chain(n)[..i] {}
  }

  // The record of a peer on the one chain, surveyed in full at this reference height.
  ghost function RecordAt(n: nat, target: nat): Survey {
    var ours := Chain(target + CHAIN_REF_LAG + 1);
    Survey(NodeInfo("", 1, "", HashHex(Block(target)), true, "", "", 0, true, None), ours,
           Fetched(NodeOf(ours), Heights(target + CHAIN_REF_LAG)), target, Chain(n))
  }

  lemma RecordGenuine(n: nat, target: nat)
    requires 6 < target < MAX_HEIGHT && target + CHAIN_REF_LAG < n <= 2 * MAX_HEIGHT
    ensures Genuine(RecordAt(n, target)) && Full(RecordAt(n, target))
  {
    var tip, ours := target + CHAIN_REF_LAG, Chain(target + CHAIN_REF_LAG + 1);
    ChainCoherent(tip + 1, n);
    LocatorComplete(NodeOf(ours), ours, tip);
    SurveyPlaces(NodeOf(ours), ours, Chain(n), tip);
    FloorShared(tip, n);
    assert Chain(n)[target] == Block(target);
  }

  lemma FloorShared(tip: int, n: nat)
    requires LOCATOR_START_LAG < tip < n
    ensures Shares(Chain(tip + 1), Chain(n), AnchorFloor(tip))
  {
    HeightsSpaced(tip, 0);
    HeightAt(tip, AnchorIndex(tip));
    var floor := AnchorFloor(tip);
    assert Chain(tip + 1)[floor] == Block(floor) == Chain(n)[floor];
  }

  // One chain, surveyed at these reference heights.
  ghost function OneChain(n: nat, targets: seq<nat>): seq<Survey> {
    seq(|targets|, i requires 0 <= i < |targets| => RecordAt(n, targets[i]))
  }

  lemma OneChainWorld(n: nat, targets: seq<nat>)
    requires forall t | t in targets :: 6 < t < MAX_HEIGHT && t + CHAIN_REF_LAG < n
    requires n <= 2 * MAX_HEIGHT
    ensures World(OneChain(n, targets)) && Targets(OneChain(n, targets)) == targets
    ensures forall r | r in OneChain(n, targets) :: Full(r) && r.chain == Chain(n)
  {
    ChainCoherent(n, n);
    forall r | r in OneChain(n, targets) ensures Genuine(r) && Full(r) && r.chain == Chain(n) {
      var i :| 0 <= i < |targets| && r == RecordAt(n, targets[i]);
      assert targets[i] in targets;
      RecordGenuine(n, targets[i]);
    }
  }

  lemma OneChainCluster(n: nat, targets: seq<nat>, height: nat)
    ensures Cluster(Infos(OneChain(n, targets)), HashHex(Block(height))) >= Total(IsTarget(height), targets)
  {
    HashHexLength(Block(height));
    TotalWithin(IsTarget(height), targets, ReportedAs(HashHex(Block(height))), Infos(OneChain(n, targets)));
  }

  // On one chain there is no split.
  lemma OneChainNoSplit(records: seq<Survey>, chain: seq<Hash>, k: nat)
    requires k > 0 && forall r | r in records :: r.chain == chain
    ensures !RealSplit(records, k)
  {
    forall height: nat, b: Hash, c: Hash
      | HoldersAt(records, height, b) >= k && HoldersAt(records, height, c) >= k
      ensures b == c
    {
      var i := SomewhereIn(HoldsAtAs(height, b), records);
      var j := SomewhereIn(HoldsAtAs(height, c), records);
      assert records[i] in records && records[j] in records;
    }
  }

  // A false alarm: on one chain, honest peers surveyed in full at two reference heights, k or more at each, give two
  // clusters of k.
  lemma FalseAlarm(targets: seq<nat>, k: nat) returns (records: seq<Survey>)
    requires k > 0 && TwoTargets(targets, k) && forall t | t in targets :: 6 < t < MAX_HEIGHT
    ensures World(records) && Targets(records) == targets && (forall r | r in records :: Full(r))
    ensures forall r | r in records :: r.chain == Chain(MAX_HEIGHT + CHAIN_REF_LAG)
    ensures TwoClusters(Infos(records), k) && !RealSplit(records, k)
  {
    var n := MAX_HEIGHT + CHAIN_REF_LAG;
    records := OneChain(n, targets);
    OneChainWorld(n, targets);
    OneChainNoSplit(records, Chain(n), k);
    var x: nat, y: nat :| x != y && Total(IsTarget(x), targets) >= k && Total(IsTarget(y), targets) >= k;
    TwoTexts(targets, x, y);
    OneChainCluster(n, targets, x);
    OneChainCluster(n, targets, y);
  }

  lemma TwoTexts(targets: seq<nat>, x: nat, y: nat)
    requires forall t | t in targets :: 6 < t < MAX_HEIGHT
    requires x != y && Total(IsTarget(x), targets) > 0 && Total(IsTarget(y), targets) > 0
    ensures HashHex(Block(x)) != HashHex(Block(y))
  {
    var i := SomewhereIn(IsTarget(x), targets);
    var j := SomewhereIn(IsTarget(y), targets);
    assert targets[i] in targets && targets[j] in targets;
    if Block(x) == Block(y) { BlocksDiffer(x, y); }
    SameBlock(Block(x), Block(y));
  }

  // The alarm means a split, whoever the honest peers are and whatever their chains, exactly when no two reference
  // heights have k records each. Records of one survey always qualify; a resumed file's need not.
  lemma AlarmMeansSplit(targets: seq<nat>, k: nat)
    requires k > 0 && forall t | t in targets :: 6 < t < MAX_HEIGHT
    ensures (forall records | World(records) && Targets(records) == targets && TwoClusters(Infos(records), k) ::
               RealSplit(records, k))
        <==> !TwoTargets(targets, k)
  {
    if TwoTargets(targets, k) {
      var records := FalseAlarm(targets, k);
    } else {
      forall records | World(records) && Targets(records) == targets && TwoClusters(Infos(records), k)
        ensures RealSplit(records, k)
      {
        AlarmIsReal(records, k);
      }
    }
  }

  function Repeat(height: nat, n: nat): seq<nat> { seq(n, _ => height) }

  lemma {:induction false} Repeated(height: nat, n: nat)
    ensures Total(IsTarget(height), Repeat(height, n)) == n
  {
    if n > 0 {
      Repeated(height, n - 1);
      assert Repeat(height, n)[..n - 1] == Repeat(height, n - 1);
    }
  }

  // Ten records restored from a survey at one height and ten made at another raise the alarm on a network with a
  // single chain.
  lemma StaleRecordsAlarm(before: nat, now: nat) returns (records: seq<Survey>)
    requires 6 < before < MAX_HEIGHT && 6 < now < MAX_HEIGHT && before != now
    ensures World(records) && |records| == 2 * MIN_SPLIT_CLUSTER
    ensures (forall i | 0 <= i < 10 :: records[i].target == before) && (forall i | 10 <= i < 20 :: records[i].target == now)
    ensures (forall r | r in records :: Full(r)) && (forall q, r | q in records && r in records :: q.chain == r.chain)
    ensures TwoClusters(Infos(records), MIN_SPLIT_CLUSTER)
  {
    var stale, current := Repeat(before, 10), Repeat(now, 10);
    Repeated(before, 10);
    Repeated(now, 10);
    TotalConcat(IsTarget(before), stale, current);
    TotalConcat(IsTarget(now), stale, current);
    assert TwoTargets(stale + current, 10);
    records := FalseAlarm(stale + current, 10);
    assert |Targets(records)| == 20;
    forall i | 0 <= i < 20 ensures records[i].target == (stale + current)[i] { assert Targets(records)[i] == records[i].target; }
  }

  // ---- Forks below the anchor floor ----

  // The one chain up to height f, other blocks from there on.
  function ForkBlock(height: nat, f: nat): Hash { if height < f then Block(height) else Block(MAX_HEIGHT + height) }

  function Fork(n: nat, f: nat): seq<Hash> { seq(n, i requires 0 <= i < n => ForkBlock(i, f)) }

  lemma ForkBlocksDiffer(i: nat, j: nat, f: nat)
    requires i < MAX_HEIGHT && j < MAX_HEIGHT
    ensures ForkBlock(i, f) == ForkBlock(j, f) ==> i == j
    ensures Block(i) == ForkBlock(j, f) ==> i == j && j < f
  {
    if ForkBlock(i, f) == ForkBlock(j, f) {
      BlocksDiffer(if i < f then i else MAX_HEIGHT + i, if j < f then j else MAX_HEIGHT + j);
    }
    if Block(i) == ForkBlock(j, f) { BlocksDiffer(i, if j < f then j else MAX_HEIGHT + j); }
  }

  lemma SamePrefix(n: nat, f: nat, i: nat)
    requires i < n && i < f
    ensures Chain(n)[..i] == Fork(n, f)[..i]
  {}

  lemma ForkCoherent(n: nat, f: nat)
    requires n <= MAX_HEIGHT
    ensures Coherent(Chain(n), Fork(n, f)) && Coherent(Fork(n, f), Chain(n)) && Coherent(Fork(n, f), Fork(n, f))
  {
    var ours, fork := Chain(n), Fork(n, f);
    ChainCoherent(n, n);
    forall i, j | 0 <= i < n && 0 <= j < n && fork[i] == fork[j] ensures i == j { ForkBlocksDiffer(i, j, f); }
    forall i, j | 0 <= i < n && 0 <= j < n && ours[i] == fork[j] ensures i == j && ours[..i] == fork[..j] {
      ForkBlocksDiffer(i, j, f);
      SamePrefix(n, f, i);
    }
  }

  lemma ForkParts(tip: nat, f: nat)
    requires 1044 < tip < MAX_HEIGHT && 0 < f <= tip - 1044
    ensures Shares(Chain(tip + 1), Fork(tip + 1, f), f - 1)
    ensures Fork(tip + 1, f)[tip - CHAIN_REF_LAG] != Chain(tip + 1)[tip - CHAIN_REF_LAG]
    ensures !Shares(Chain(tip + 1), Fork(tip + 1, f), AnchorFloor(tip))
  {
    AnchorFloorIs(tip);
    ForkShares(tip + 1, f);
    ForkDiffers(tip + 1, f, tip - CHAIN_REF_LAG);
    ForkDiffers(tip + 1, f, tip - 1044);
  }

  lemma ForkShares(n: nat, f: nat)
    requires 0 < f <= n
    ensures Shares(Chain(n), Fork(n, f), f - 1)
  {
    assert Chain(n)[f - 1] == Block(f - 1) == Fork(n, f)[f - 1];
  }

  lemma ForkDiffers(n: nat, f: nat, height: nat)
    requires f <= height < n <= MAX_HEIGHT
    ensures Fork(n, f)[height] != Chain(n)[height] && !Shares(Chain(n), Fork(n, f), height)
  {
    ForkBlocksDiffer(height, height, f);
  }

  // A peer whose chain parts from ours at the anchor floor or deeper is not placed: it shares all our blocks below f,
  // has another one at the reference height, and its honest reply says nothing.
  lemma DeepForkIsUnknown(tip: nat, f: nat)
    requires 1044 < tip < MAX_HEIGHT && 0 < f <= tip - 1044
    ensures var ours, theirs := Chain(tip + 1), Fork(tip + 1, f);
      var locator, target := Fetched(NodeOf(ours), Heights(tip)), tip - CHAIN_REF_LAG;
      && Coherent(ours, theirs) && Shares(ours, theirs, f - 1) && theirs[target] != ours[target]
      && PeerHashAt(HonestReply(theirs, locator), locator, target) == ""
  {
    ForkCoherent(tip + 1, f);
    ForkParts(tip, f);
    SurveyPlaces(NodeOf(Chain(tip + 1)), Chain(tip + 1), Fork(tip + 1, f), tip);
  }

  // An answering peer on this chain, surveyed in full from our chain at this tip.
  ghost function RecordOn(tip: nat, chain: seq<Hash>): Survey
    requires tip > LOCATOR_START_LAG
  {
    var ours, target := Chain(tip + 1), tip - CHAIN_REF_LAG;
    var locator := Fetched(NodeOf(ours), Heights(tip));
    Survey(NodeInfo("", 1, "", PeerHashAt(HonestReply(chain, locator), locator, target), true, "", "", 0, true, None),
           ours, locator, target, chain)
  }

  // m peers on our chain and n on the fork.
  ghost function TwoCamps(tip: nat, f: nat, m: nat, n: nat): seq<Survey>
    requires tip > LOCATOR_START_LAG
  {
    seq(m, _ => RecordOn(tip, Chain(tip + 1))) + seq(n, _ => RecordOn(tip, Fork(tip + 1, f)))
  }

  lemma RecordOnGenuine(tip: nat, chain: seq<Hash>)
    requires LOCATOR_START_LAG < tip && Coherent(Chain(tip + 1), chain)
    ensures Genuine(RecordOn(tip, chain)) && Full(RecordOn(tip, chain))
  {
    LocatorComplete(NodeOf(Chain(tip + 1)), Chain(tip + 1), tip);
  }

  lemma TwoCampsAre(tip: nat, f: nat, m: nat, n: nat)
    requires tip > LOCATOR_START_LAG
    ensures forall r | r in TwoCamps(tip, f, m, n) ::
      r == RecordOn(tip, Chain(tip + 1)) || r == RecordOn(tip, Fork(tip + 1, f))
  {}

  lemma TwoCampsWorld(tip: nat, f: nat, m: nat, n: nat)
    requires LOCATOR_START_LAG < tip < MAX_HEIGHT
    ensures World(TwoCamps(tip, f, m, n))
    ensures forall r | r in TwoCamps(tip, f, m, n) :: Full(r) && r.target == tip - CHAIN_REF_LAG
  {
    var records, ours, fork := TwoCamps(tip, f, m, n), Chain(tip + 1), Fork(tip + 1, f);
    TwoCampsAre(tip, f, m, n);
    ChainCoherent(tip + 1, tip + 1);
    ForkCoherent(tip + 1, f);
    RecordOnGenuine(tip, ours);
    RecordOnGenuine(tip, fork);
    forall r | r in records ensures r.chain == ours || r.chain == fork {}
  }

  // A split below the anchor floor raises nothing, however many peers are on either side.
  lemma DeepSplitIsSilent(tip: nat, f: nat, m: nat, n: nat, k: nat)
    requires 1044 < tip < MAX_HEIGHT && 0 < f <= tip - 1044 && k > 0
    ensures World(TwoCamps(tip, f, m, n)) && (forall r | r in TwoCamps(tip, f, m, n) :: Full(r))
    ensures Fork(tip + 1, f)[tip - CHAIN_REF_LAG] != Chain(tip + 1)[tip - CHAIN_REF_LAG]
    ensures !TwoClusters(Infos(TwoCamps(tip, f, m, n)), k)
  {
    var records, ours := TwoCamps(tip, f, m, n), Chain(tip + 1);
    TwoCampsAre(tip, f, m, n);
    TwoCampsWorld(tip, f, m, n);
    ForkParts(tip, f);
    FullSurveyIsExact(records, k, tip - CHAIN_REF_LAG);
    forall b: Hash | Total(AnchoredAs(b), records) >= k ensures b == ours[tip - CHAIN_REF_LAG] {
      var i := SomewhereIn(AnchoredAs(b), records);
      assert records[i] in records;
    }
  }
}
