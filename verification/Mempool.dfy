// The feerate needed for the next block (src/rpc.rs): a greedy walk over the pending transactions.
module Mempool {
  import opened Prelude

  const BLOCK_VSIZE := 1_000_000

  // A pending transaction; those without a positive size are filtered out before.
  datatype Tx = Tx(rate: real, vsize: nat)

  function Size(t: Tx): nat { t.vsize }

  function SizeAbove(rate: real): Tx -> nat { (t: Tx) => if t.rate > rate then t.vsize else 0 }

  function SizeFrom(rate: real): Tx -> nat { (t: Tx) => if t.rate >= rate then t.vsize else 0 }

  // The rate at which a block fills: a listed rate that less than a block pays more than, and at least a block pays.
  predicate IsNextRate(txs: seq<Tx>, rate: real) {
    && (exists i :: 0 <= i < |txs| && txs[i].rate == rate)
    && Total(SizeAbove(rate), txs) < BLOCK_VSIZE <= Total(SizeFrom(rate), txs)
  }

  predicate Descending(txs: seq<Tx>) {
    forall i, j | 0 <= i < j < |txs| :: txs[i].rate >= txs[j].rate
  }

  function Insert(t: Tx, sorted: seq<Tx>): seq<Tx> {
    if sorted == [] || sorted[|sorted| - 1].rate >= t.rate then sorted + [t]
    else Insert(t, sorted[..|sorted| - 1]) + [sorted[|sorted| - 1]]
  }

  // A stable sort, highest rate first.
  function Sort(txs: seq<Tx>): seq<Tx> {
    if txs == [] then [] else Insert(txs[|txs| - 1], Sort(txs[..|txs| - 1]))
  }

  lemma DescendingPush(txs: seq<Tx>, t: Tx)
    requires Descending(txs) && forall i | 0 <= i < |txs| :: txs[i].rate >= t.rate
    ensures Descending(txs + [t])
  {}

  lemma AllAbove(t: Tx, front: seq<Tx>, r: seq<Tx>, last: Tx)
    requires multiset(r) == multiset(front) + multiset{t}
    requires t.rate >= last.rate && forall i | 0 <= i < |front| :: front[i].rate >= last.rate
    ensures forall i | 0 <= i < |r| :: r[i].rate >= last.rate
  {
    forall i | 0 <= i < |r| ensures r[i].rate >= last.rate {
      assert r[i] in multiset(r);
      assert r[i] in multiset(front) || r[i] == t;
    }
  }

  lemma {:induction false} InsertSorts(t: Tx, sorted: seq<Tx>)
    requires Descending(sorted)
    ensures Descending(Insert(t, sorted))
    ensures multiset(Insert(t, sorted)) == multiset(sorted) + multiset{t}
  {
    if sorted != [] && sorted[|sorted| - 1].rate < t.rate {
      var front, last := sorted[..|sorted| - 1], sorted[|sorted| - 1];
      InsertSorts(t, front);
      assert sorted == front + [last];
      AllAbove(t, front, Insert(t, front), last);
      DescendingPush(Insert(t, front), last);
    } else {
      DescendingPush(sorted, t);
    }
  }

  lemma {:induction false} SortSorts(txs: seq<Tx>)
    ensures Descending(Sort(txs)) && multiset(Sort(txs)) == multiset(txs)
  {
    if txs != [] {
      SortSorts(txs[..|txs| - 1]);
      InsertSorts(txs[|txs| - 1], Sort(txs[..|txs| - 1]));
      assert txs == txs[..|txs| - 1] + [txs[|txs| - 1]];
    }
  }

  // Sums do not depend on the order.
  lemma {:induction false} TotalPermuted(f: Tx -> nat, xs: seq<Tx>, ys: seq<Tx>)
    requires multiset(xs) == multiset(ys)
    ensures Total(f, xs) == Total(f, ys)
  {
    assert |multiset(xs)| == |xs| && |multiset(ys)| == |ys|;
    if xs != [] {
      var front, x := xs[..|xs| - 1], xs[|xs| - 1];
      assert xs == front + [x];
      assert x in multiset(xs);
      var i :| 0 <= i < |ys| && ys[i] == x;
      var rest := ys[..i] + ys[i + 1..];
      assert ys == ys[..i] + [x] + ys[i + 1..];
      assert multiset(rest) == multiset(ys) - multiset{x};
      TotalPermuted(f, front, rest);
      TotalConcat(f, ys[..i], ys[i + 1..]);
      TotalConcat(f, ys[..i] + [x], ys[i + 1..]);
      TotalPush(f, ys[..i], x);
    }
  }

  // In descending order, everything paying more than the k-th rate comes before it, and the k-th and all before it
  // pay at least as much.
  lemma SortedSums(txs: seq<Tx>, k: nat)
    requires Descending(txs) && k < |txs|
    ensures Total(SizeAbove(txs[k].rate), txs) <= Total(Size, txs[..k])
    ensures Total(SizeFrom(txs[k].rate), txs) >= Total(Size, txs[..k + 1])
  {
    PaysMore(txs, k);
    PaysAtLeast(txs, k);
  }

  lemma PaysMore(txs: seq<Tx>, k: nat)
    requires Descending(txs) && k < |txs|
    ensures Total(SizeAbove(txs[k].rate), txs) <= Total(Size, txs[..k])
  {
    var rate, rest := txs[k].rate, txs[k..];
    assert txs == txs[..k] + rest;
    TotalConcat(SizeAbove(rate), txs[..k], rest);
    forall i | 0 <= i < |rest| ensures SizeAbove(rate)(rest[i]) == 0 {
      assert rest[i] == txs[k + i] && txs[k + i].rate <= rate;
    }
    TotalZero(SizeAbove(rate), rest);
    TotalLess(SizeAbove(rate), Size, txs[..k]);
  }

  lemma PaysAtLeast(txs: seq<Tx>, k: nat)
    requires Descending(txs) && k < |txs|
    ensures Total(SizeFrom(txs[k].rate), txs) >= Total(Size, txs[..k + 1])
  {
    var rate, front := txs[k].rate, txs[..k + 1];
    assert txs == front + txs[k + 1..];
    TotalConcat(SizeFrom(rate), front, txs[k + 1..]);
    forall i | 0 <= i < |front| ensures SizeFrom(rate)(front[i]) == Size(front[i]) {
      assert front[i] == txs[i] && txs[i].rate >= rate;
    }
    TotalMatch(SizeFrom(rate), front, Size, front);
  }

  // The walk: whatever descending order the sort gives, the answer is the rate at which a block fills, and there is
  // none exactly when the mempool is smaller than a block.
  method WalkDescending(txs: seq<Tx>, ghost original: seq<Tx>) returns (r: Option<real>)
    requires Descending(txs) && multiset(txs) == multiset(original)
    ensures r.None? <==> Total(Size, original) < BLOCK_VSIZE
    ensures r.Some? ==> IsNextRate(original, r.value)
  {
    var acc := 0;
    for k := 0 to |txs|
      invariant acc == Total(Size, txs[..k])
      invariant acc < BLOCK_VSIZE
    {
      assert txs[..k + 1] == txs[..k] + [txs[k]];
      TotalPush(Size, txs[..k], txs[k]);
      acc := acc + txs[k].vsize;
      if acc >= BLOCK_VSIZE {
        r := Some(txs[k].rate);
        SortedSums(txs, k);
        SameForEveryOrder(txs, original, txs[k].rate);
        assert txs == txs[..k + 1] + txs[k + 1..];
        TotalConcat(Size, txs[..k + 1], txs[k + 1..]);
        TotalPermuted(Size, txs, original);
        return;
      }
    }
    assert txs[..|txs|] == txs;
    TotalPermuted(Size, txs, original);
    r := None;
  }

  method NextBlockFeerate(rates: seq<Tx>) returns (r: Option<real>)
    ensures r.None? <==> Total(Size, rates) < 1_000_000
    ensures r.Some? ==> IsNextRate(rates, r.value)
    ensures r.Some? ==> Total(SizeAbove(r.value), rates) < 1_000_000 <= Total(SizeFrom(r.value), rates)
  {
    SortSorts(rates);
    r := WalkDescending(Sort(rates), rates);
  }

  // No two rates both fill the block, so the answer is the same for every order of the mempool and of ties.
  lemma NextRateIsUnique(txs: seq<Tx>, r: real, s: real)
    requires IsNextRate(txs, r) && IsNextRate(txs, s)
    ensures r == s
  {
    if r < s { TotalLess(SizeFrom(s), SizeAbove(r), txs); }
    if s < r { TotalLess(SizeFrom(r), SizeAbove(s), txs); }
  }

  lemma SameForEveryOrder(xs: seq<Tx>, ys: seq<Tx>, rate: real)
    requires multiset(xs) == multiset(ys)
    ensures IsNextRate(xs, rate) <==> IsNextRate(ys, rate)
  {
    TotalPermuted(SizeAbove(rate), xs, ys);
    TotalPermuted(SizeFrom(rate), xs, ys);
    assert forall t :: t in xs <==> t in multiset(xs);
    assert forall t :: t in ys <==> t in multiset(ys);
    assert (exists i :: 0 <= i < |xs| && xs[i].rate == rate) <==> exists t :: t in xs && t.rate == rate;
    assert (exists i :: 0 <= i < |ys| && ys[i].rate == rate) <==> exists t :: t in ys && t.rate == rate;
  }
}
