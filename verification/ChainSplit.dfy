// The split assessment (src/node.rs): peers clustered by the block hash they reported at the reference height.
module ChainSplit {
  import opened Prelude
  import opened Peers

  datatype ChainTip = ChainTip(height: int, branchlen: int, status: string)

  datatype Split = Split(split: bool, activeHeight: int, forks: seq<ChainTip>, longestFork: int, rejected: nat,
                         responded: nat, distinct: nat, largest: nat, second: nat)

  const MIN_REJECTED_FORK_LEN := 1
  const REJECT_RECENCY := 2016
  const MIN_SPLIT_CLUSTER := 10

  predicate Reported(n: NodeInfo) { n.handshaked && n.chainHash != "" }

  function ReportedAs(hash: string): NodeInfo -> nat {
    (n: NodeInfo) => if Reported(n) && n.chainHash == hash then 1 else 0
  }

  function CountReported(n: NodeInfo): nat { if Reported(n) then 1 else 0 }

  // How many peers reported this hash.
  function Cluster(peers: seq<NodeInfo>, hash: string): nat { Total(ReportedAs(hash), peers) }

  // ---- Counting ----

  function Keep(keep: ChainTip -> bool, tips: seq<ChainTip>): seq<ChainTip> {
    if tips == [] then []
    else
      var front, t := tips[..|tips| - 1], tips[|tips| - 1];
      if keep(t) then Keep(keep, front) + [t] else Keep(keep, front)
  }

  function ActiveHeight(tips: seq<ChainTip>): int {
    if tips == [] then 0
    else if tips[0].status == "active" then tips[0].height
    else ActiveHeight(tips[1..])
  }

  function LongestFork(forks: seq<ChainTip>): int {
    if forks == [] then 0
    else if |forks| == 1 then forks[0].branchlen
    else
      var front, last := LongestFork(forks[..|forks| - 1]), forks[|forks| - 1].branchlen;
      if last > front then last else front
  }

  predicate IsFork(t: ChainTip) { t.branchlen > 0 }

  // A branch our node rejected, near our tip.
  predicate Rejected(activeHeight: int, t: ChainTip) {
    && t.status == "invalid" && t.branchlen >= MIN_REJECTED_FORK_LEN
    && (activeHeight == 0 || -REJECT_RECENCY <= activeHeight - t.height <= REJECT_RECENCY)
  }

  // The counts are those of the clusters, no more and no less.
  ghost predicate Counts(counts: map<string, nat>, peers: seq<NodeInfo>) {
    && (forall h :: h in counts <==> Cluster(peers, h) > 0)
    && (forall h | h in counts :: counts[h] == Cluster(peers, h))
  }

  function InsertSize(x: nat, sizes: seq<nat>): seq<nat> {
    if sizes == [] || sizes[|sizes| - 1] >= x then sizes + [x]
    else InsertSize(x, sizes[..|sizes| - 1]) + [sizes[|sizes| - 1]]
  }

  predicate Descending(sizes: seq<nat>) {
    forall i, j | 0 <= i < j < |sizes| :: sizes[i] >= sizes[j]
  }

  function Reaches(k: nat): nat -> nat { (x: nat) => if x >= k then 1 else 0 }

  lemma {:induction false} InsertSizeSorts(x: nat, sizes: seq<nat>)
    requires Descending(sizes)
    ensures Descending(InsertSize(x, sizes))
    ensures |InsertSize(x, sizes)| == |sizes| + 1
    ensures forall y :: y in InsertSize(x, sizes) <==> y in sizes || y == x
  {
    if sizes != [] && sizes[|sizes| - 1] < x {
      var front, last := sizes[..|sizes| - 1], sizes[|sizes| - 1];
      InsertSizeSorts(x, front);
      assert sizes == front + [last];
      assert forall i | 0 <= i < |front| + 1 :: InsertSize(x, front)[i] in InsertSize(x, front);
    }
  }

  lemma {:induction false} InsertSizeTotal(f: nat -> nat, x: nat, sizes: seq<nat>)
    ensures Total(f, InsertSize(x, sizes)) == Total(f, sizes) + f(x)
  {
    if sizes == [] || sizes[|sizes| - 1] >= x {
      TotalPush(f, sizes, x);
    } else {
      var front, last := sizes[..|sizes| - 1], sizes[|sizes| - 1];
      InsertSizeTotal(f, x, front);
      TotalPush(f, InsertSize(x, front), last);
    }
  }

  function ClusterSize(peers: seq<NodeInfo>): string -> nat { (h: string) => Cluster(peers, h) }

  function BigCluster(peers: seq<NodeInfo>, k: nat): string -> nat {
    (h: string) => if Cluster(peers, h) >= k then 1 else 0
  }

  predicate Distinct(keys: seq<string>) {
    forall i, j | 0 <= i < j < |keys| :: keys[i] != keys[j]
  }

  // Every hash reported by somebody, once.
  ghost predicate Hashes(peers: seq<NodeInfo>, keys: seq<string>) {
    Distinct(keys) && forall h :: h in keys <==> Cluster(peers, h) > 0
  }

  lemma {:induction false} CountsPush(peers: seq<NodeInfo>, n: NodeInfo, h: string)
    ensures Cluster(peers + [n], h) == Cluster(peers, h) + ReportedAs(h)(n)
  {
    TotalPush(ReportedAs(h), peers, n);
  }

  function IsKey(h: string): string -> nat { (x: string) => if x == h then 1 else 0 }

  lemma {:induction false} KeyOnce(keys: seq<string>, h: string)
    requires Distinct(keys)
    ensures Total(IsKey(h), keys) == if h in keys then 1 else 0
  {
    if keys != [] {
      var front, last := keys[..|keys| - 1], keys[|keys| - 1];
      KeyOnce(front, h);
      assert keys == front + [last];
    }
  }

  lemma {:induction false} TotalPlus(f: string -> nat, g: string -> nat, e: string -> nat, xs: seq<string>)
    requires forall x :: e(x) == f(x) + g(x)
    ensures Total(e, xs) == Total(f, xs) + Total(g, xs)
  {
    if xs != [] { TotalPlus(f, g, e, xs[..|xs| - 1]); }
  }

  // The clusters partition the peers that reported a hash.
  lemma {:induction false} ClustersPartition(peers: seq<NodeInfo>, keys: seq<string>)
    requires Distinct(keys)
    requires forall i | 0 <= i < |peers| && Reported(peers[i]) :: peers[i].chainHash in keys
    ensures Total(ClusterSize(peers), keys) == Total(CountReported, peers)
  {
    if peers == [] {
      TotalZero(ClusterSize(peers), keys);
    } else {
      var front, n := peers[..|peers| - 1], peers[|peers| - 1];
      ClustersPartition(front, keys);
      KeyOnce(keys, n.chainHash);
      if Reported(n) {
        TotalPlus(ClusterSize(front), IsKey(n.chainHash), ClusterSize(peers), keys);
      } else {
        TotalMatch(ClusterSize(front), keys, ClusterSize(peers), keys);
      }
    }
  }

  // ---- Largest and second ----

  ghost predicate SomeCluster(peers: seq<NodeInfo>, k: nat) {
    exists h :: Cluster(peers, h) >= k
  }

  ghost predicate TwoClusters(peers: seq<NodeInfo>, k: nat) {
    exists g, h :: g != h && Cluster(peers, g) >= k && Cluster(peers, h) >= k
  }

  lemma {:induction false} SecondReaches(sizes: seq<nat>, k: nat)
    requires Descending(sizes) && k > 0
    ensures Total(Reaches(k), sizes) >= 1 <==> |sizes| > 0 && sizes[0] >= k
    ensures Total(Reaches(k), sizes) >= 2 <==> |sizes| > 1 && sizes[1] >= k
  {
    if |sizes| > 2 {
      SecondReaches(sizes[..|sizes| - 1], k);
    } else if |sizes| == 2 {
      assert Total(Reaches(k), sizes[..1]) == Total(Reaches(k), sizes[..1][..0]) + Reaches(k)(sizes[0]);
    }
  }

  lemma BigClusters(peers: seq<NodeInfo>, keys: seq<string>, k: nat)
    requires Hashes(peers, keys) && k > 0
    ensures Total(BigCluster(peers, k), keys) >= 1 <==> SomeCluster(peers, k)
    ensures Total(BigCluster(peers, k), keys) >= 2 <==> TwoClusters(peers, k)
  {
    var f := BigCluster(peers, k);
    if h :| Cluster(peers, h) >= k {
      var i :| 0 <= i < |keys| && keys[i] == h;
      TotalAtLeast(f, keys, i);
    }
    if g, h :| g != h && Cluster(peers, g) >= k && Cluster(peers, h) >= k {
      var i :| 0 <= i < |keys| && keys[i] == g;
      var j :| 0 <= j < |keys| && keys[j] == h;
      TotalPair(f, keys, if i < j then i else j, if i < j then j else i);
    }
    if Total(f, keys) >= 1 {
      var i := SomewhereIn(f, keys);
    }
    if Total(f, keys) >= 2 {
      var i, j := TwoPlaces(f, keys);
    }
  }

  lemma {:induction false} TwoPlaces(f: string -> nat, xs: seq<string>) returns (i: nat, j: nat)
    requires Total(f, xs) > 1 && forall x :: f(x) <= 1
    ensures i < j < |xs| && f(xs[i]) > 0 && f(xs[j]) > 0
  {
    if f(xs[|xs| - 1]) > 0 {
      j := |xs| - 1;
      i := SomewhereIn(f, xs[..j]);
    } else {
      i, j := TwoPlaces(f, xs[..|xs| - 1]);
    }
  }

  // ---- The assessment ----

  method CountClusters(peers: seq<NodeInfo>) returns (counts: map<string, nat>)
    ensures Counts(counts, peers)
  {
    counts := map[];
    for i := 0 to |peers|
      invariant Counts(counts, peers[..i])
    {
      var n := peers[i];
      assert peers[..i + 1] == peers[..i] + [n];
      forall h ensures Cluster(peers[..i + 1], h) == Cluster(peers[..i], h) + ReportedAs(h)(n) {
        CountsPush(peers[..i], n, h);
      }
      if n.handshaked && n.chainHash != "" {
        counts := counts[n.chainHash := (if n.chainHash in counts then counts[n.chainHash] else 0) + 1];
      }
    }
    assert peers[..|peers|] == peers;
  }

  lemma SizesReach(peers: seq<NodeInfo>, counts: map<string, nat>, keys: seq<string>, sizes: seq<nat>)
    requires Counts(counts, peers) && Distinct(keys) && Descending(sizes)
    requires forall h :: h in keys <==> h in counts
    requires forall k: nat :: Total(Reaches(k), sizes) == Total(BigCluster(peers, k), keys)
    ensures Total(ClusterSize(peers), keys) == Total(CountReported, peers)
    ensures forall k: nat | k > 0 :: (|sizes| > 0 && sizes[0] >= k <==> SomeCluster(peers, k))
    ensures forall k: nat | k > 0 :: (|sizes| > 1 && sizes[1] >= k <==> TwoClusters(peers, k))
  {
    forall i | 0 <= i < |peers| && Reported(peers[i]) ensures peers[i].chainHash in keys {
      TotalAtLeast(ReportedAs(peers[i].chainHash), peers, i);
    }
    ClustersPartition(peers, keys);
    forall k: nat | k > 0
      ensures |sizes| > 0 && sizes[0] >= k <==> SomeCluster(peers, k)
      ensures |sizes| > 1 && sizes[1] >= k <==> TwoClusters(peers, k)
    {
      SecondReaches(sizes, k);
      BigClusters(peers, keys, k);
    }
  }

  // The cluster sizes, largest first, and their sum.
  method SortSizes(peers: seq<NodeInfo>, counts: map<string, nat>) returns (sizes: seq<nat>, sum: nat)
    requires Counts(counts, peers)
    ensures Descending(sizes) && |sizes| == |counts|
    ensures sum == Total(CountReported, peers)
    ensures forall k: nat | k > 0 :: (|sizes| > 0 && sizes[0] >= k <==> SomeCluster(peers, k))
    ensures forall k: nat | k > 0 :: (|sizes| > 1 && sizes[1] >= k <==> TwoClusters(peers, k))
  {
    sizes, sum := [], 0;
    ghost var keys: seq<string> := [];
    var todo := counts.Keys;
    while todo != {}
      invariant todo <= counts.Keys
      invariant Distinct(keys) && forall h :: h in keys <==> h in counts && h !in todo
      invariant Descending(sizes) && |sizes| == |keys| == |counts| - |todo|
      invariant sum == Total(ClusterSize(peers), keys)
      invariant forall k: nat :: Total(Reaches(k), sizes) == Total(BigCluster(peers, k), keys)
      decreases todo
    {
      var h :| h in todo;
      InsertSizeSorts(counts[h], sizes);
      forall k: nat ensures Total(Reaches(k), InsertSize(counts[h], sizes)) == Total(BigCluster(peers, k), keys + [h]) {
        InsertSizeTotal(Reaches(k), counts[h], sizes);
        TotalPush(BigCluster(peers, k), keys, h);
      }
      TotalPush(ClusterSize(peers), keys, h);
      sizes := InsertSize(counts[h], sizes);
      sum := sum + counts[h];
      keys := keys + [h];
      todo := todo - {h};
    }
    SizesReach(peers, counts, keys, sizes);
  }

  // A branch of at least one block.
  predicate ForksOff(t: ChainTip) { t.branchlen >= 1 }

  // The forks among the tips, by their positions: all of them, in order, and no others.
  ghost predicate ForksAt(forks: seq<ChainTip>, tips: seq<ChainTip>, at: seq<nat>) {
    && |at| == |forks| && Ascending(at, |tips|)
    && (forall i | 0 <= i < |at| :: forks[i] == tips[at[i]])
    && forall n: nat | n < |tips| :: n in at <==> ForksOff(tips[n])
  }

  ghost predicate AreForks(forks: seq<ChainTip>, tips: seq<ChainTip>) { exists at: seq<nat> :: ForksAt(forks, tips, at) }

  lemma ForksPush(forks: seq<ChainTip>, tips: seq<ChainTip>, at: seq<nat>, t: ChainTip)
    requires ForksAt(forks, tips, at)
    ensures !ForksOff(t) ==> ForksAt(forks, tips + [t], at)
    ensures ForksOff(t) ==> ForksAt(forks + [t], tips + [t], at + [|tips|])
  {
    AscendingPush(at, |tips|);
  }

  lemma {:induction false} KeepsForks(tips: seq<ChainTip>) returns (at: seq<nat>)
    ensures ForksAt(Keep(IsFork, tips), tips, at)
  {
    if tips == [] {
      at := [];
    } else {
      var front, t := tips[..|tips| - 1], tips[|tips| - 1];
      var before := KeepsForks(front);
      assert tips == front + [t];
      ForksPush(Keep(IsFork, front), front, before, t);
      at := if ForksOff(t) then before + [|front|] else before;
    }
  }

  // The height of the first active tip, 0 when there is none.
  lemma {:induction false} ActiveHeightIs(tips: seq<ChainTip>)
    ensures forall i | 0 <= i < |tips| && tips[i].status == "active" && (forall j | 0 <= j < i :: tips[j].status != "active") ::
      ActiveHeight(tips) == tips[i].height
    ensures (forall t | t in tips :: t.status != "active") ==> ActiveHeight(tips) == 0
  {
    if tips != [] && tips[0].status != "active" {
      ActiveHeightIs(tips[1..]);
      forall i | 0 <= i < |tips| && tips[i].status == "active" && (forall j | 0 <= j < i :: tips[j].status != "active")
        ensures ActiveHeight(tips) == tips[i].height
      {
        assert tips[1..][i - 1] == tips[i];
        forall j | 0 <= j < i - 1 ensures tips[1..][j].status != "active" { assert tips[1..][j] == tips[j + 1]; }
      }
    }
  }

  lemma {:induction false} LongestForkIs(forks: seq<ChainTip>)
    ensures forks == [] ==> LongestFork(forks) == 0
    ensures forall t | t in forks :: t.branchlen <= LongestFork(forks)
    ensures forks != [] ==> exists t :: t in forks && t.branchlen == LongestFork(forks)
  {
    if |forks| > 1 {
      var front, last := forks[..|forks| - 1], forks[|forks| - 1];
      LongestForkIs(front);
      assert forks == front + [last];
    } else if |forks| == 1 {
      assert forks[0] in forks && forks == [forks[0]];
    }
  }

  // A tip our node rejected near its own: a branch of at least one block marked invalid, whose height lies within 2016
  // of ours when ours is known.
  ghost predicate RejectedNear(a: int, t: ChainTip) {
    t.status == "invalid" && t.branchlen >= 1 && (a == 0 || (a - 2016 <= t.height && t.height <= a + 2016))
  }

  ghost function RejectedCount(a: int): ChainTip -> nat { (t: ChainTip) => if RejectedNear(a, t) then 1 else 0 }

  lemma {:induction false} RejectedIs(a: int, tips: seq<ChainTip>)
    ensures |Keep(t => Rejected(a, t), Keep(IsFork, tips))| == Total(RejectedCount(a), tips)
  {
    if tips != [] { RejectedIs(a, tips[..|tips| - 1]); }
  }

  lemma SomeRejected(a: int, tips: seq<ChainTip>)
    ensures Total(RejectedCount(a), tips) > 0 <==> exists t :: t in tips && RejectedNear(a, t)
  {
    if t :| t in tips && RejectedNear(a, t) {
      var n: nat :| n < |tips| && tips[n] == t;
      TotalAtLeast(RejectedCount(a), tips, n);
    }
    if Total(RejectedCount(a), tips) > 0 {
      var n := SomewhereIn(RejectedCount(a), tips);
      assert tips[n] in tips;
    }
  }

  method AssessChainSplit(tips: seq<ChainTip>, peers: seq<NodeInfo>) returns (r: Split)
    ensures r.activeHeight == ActiveHeight(tips) && r.forks == Keep(IsFork, tips)
    ensures r.longestFork == LongestFork(r.forks)
    ensures r.rejected == |Keep(t => Rejected(r.activeHeight, t), r.forks)|
    ensures r.responded == Total(CountReported, peers)
    ensures r.distinct == |set n | n in peers && Reported(n) :: n.chainHash|
    ensures forall k: nat | k > 0 :: (r.largest >= k <==> SomeCluster(peers, k))
    ensures forall k: nat | k > 0 :: (r.second >= k <==> TwoClusters(peers, k))
    ensures forall i | 0 <= i < |tips| && tips[i].status == "active" && (forall j | 0 <= j < i :: tips[j].status != "active") ::
      r.activeHeight == tips[i].height
    ensures (forall t | t in tips :: t.status != "active") ==> r.activeHeight == 0
    ensures AreForks(r.forks, tips)
    ensures if r.forks == [] then r.longestFork == 0
            else (forall t | t in r.forks :: t.branchlen <= r.longestFork) && exists t :: t in r.forks && t.branchlen == r.longestFork
    ensures r.rejected == Total(RejectedCount(r.activeHeight), tips)
    ensures r.split <==> TwoClusters(peers, 10) || exists t :: t in tips && RejectedNear(r.activeHeight, t)
  {
    ActiveHeightIs(tips);
    ghost var at := KeepsForks(tips);
    LongestForkIs(Keep(IsFork, tips));
    RejectedIs(ActiveHeight(tips), tips);
    SomeRejected(ActiveHeight(tips), tips);
    var activeHeight := ActiveHeight(tips);
    var forks := Keep(IsFork, tips);
    var rejected := |Keep(t => Rejected(activeHeight, t), forks)|;
    var counts := CountClusters(peers);
    ReportedHashes(peers, counts);
    var sizes, responded := SortSizes(peers, counts);
    var largest := if |sizes| > 0 then sizes[0] else 0;
    var second := if |sizes| > 1 then sizes[1] else 0;
    r := Split(rejected > 0 || second >= MIN_SPLIT_CLUSTER, activeHeight, forks, LongestFork(forks), rejected,
               responded, |counts|, largest, second);
  }

  lemma ReportedHashes(peers: seq<NodeInfo>, counts: map<string, nat>)
    requires Counts(counts, peers)
    ensures counts.Keys == set n | n in peers && Reported(n) :: n.chainHash
  {
    forall h | h in counts ensures exists n :: n in peers && Reported(n) && n.chainHash == h {
      var i := SomePeer(peers, h);
      assert peers[i] in peers;
    }
    forall n | n in peers && Reported(n) ensures n.chainHash in counts {
      var i :| 0 <= i < |peers| && peers[i] == n;
      TotalAtLeast(ReportedAs(n.chainHash), peers, i);
    }
  }

  lemma {:induction false} SomePeer(peers: seq<NodeInfo>, h: string) returns (i: nat)
    requires Cluster(peers, h) > 0
    ensures i < |peers| && Reported(peers[i]) && peers[i].chainHash == h
  {
    var n := peers[|peers| - 1];
    if Reported(n) && n.chainHash == h { i := |peers| - 1; } else { i := SomePeer(peers[..|peers| - 1], h); }
  }
}
