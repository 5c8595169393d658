// A 32-bit accumulator that takes bit groups of one width in and gives groups of another out, its high bits falling off
// on the way: what both loops of base32 (src/p2p.rs) work on.
module Accumulator {
  import opened Prelude
  import opened Bits

  const WORD := 0x1_0000_0000

  // ---- Arithmetic ----

  lemma {:induction false} Pow2Add(a: nat, b: nat)
    ensures Pow2(a + b) == Pow2(a) * Pow2(b)
  {
    if b > 0 {
      Pow2Add(a, b - 1);
      Double(Pow2(a), Pow2(b - 1));
    }
  }

  lemma WordIs()
    ensures Pow2(32) == WORD
  {
    assert Pow2(8) == 256;
    assert Pow2(16) == 0x1_0000;
    assert Pow2(24) == 0x100_0000;
  }

  lemma SplitProduct(word: nat, m: nat, p: nat, q: nat, r: nat)
    requires word == m * q + r
    ensures word * p == m * p * q + r * p
  {
    assert word * p == (m * q) * p + r * p;
    assert (m * q) * p == m * p * q;
  }

  lemma Associates(a: nat, b: nat, c: nat)
    ensures a * b * c == a * (b * c)
  {}

  lemma Distributes(m: nat, q: int, k: int)
    ensures m * q - m * k == m * (q - k)
  {}

  // Shifting by a factor p in a word of m * p * rest values and adding v keeps the last m * p of them.
  lemma ShiftParts(word: nat, m: nat, p: nat, rest: nat, v: nat)
    requires m > 0 && p > 0 && rest > 0 && v < p && m * p * rest > 0
    ensures (word * p % (m * p * rest) + v) % (m * p) == word % m * p + v
  {
    var q, r := word / m, word % m;
    var high, k := word * p % (m * p * rest), word * p / (m * p * rest);
    SplitProduct(word, m, p, q, r);
    DivMod(word * p, m * p * rest);
    MulLess(p, r, m);
    Keeps(high, m * p, rest, k, q, r * p);
    DivModIs(high + v, m * p, q - rest * k, r * p + v);
  }

  lemma DivMod(x: nat, m: nat)
    requires m > 0
    ensures x == m * (x / m) + x % m
  {}

  lemma Keeps(high: int, mp: nat, rest: nat, k: nat, q: nat, low: nat)
    requires mp * rest * k + high == mp * q + low
    ensures high == mp * (q - rest * k) + low
  {
    Associates(mp, rest, k);
    Distributes(mp, q, rest * k);
  }

  // The shifted word has room for v.
  lemma ShiftRoom(word: nat, p: nat, high: nat)
    requires p > 0 && high > 0 && p * high > 0
    ensures word * p % (p * high) + p <= p * high
  {
    var k, low := word * p / (p * high), word * p % (p * high);
    DivMod(word * p, p * high);
    assert p * high * k + low == p * word + 0;
    Keeps(low, p, high, k, word, 0);
    Multiple(low, p, word - high * k, high);
  }

  lemma Multiple(low: nat, p: nat, t: int, high: nat)
    requires p > 0 && low == p * t && low < p * high
    ensures low + p <= p * high
  {
    if t >= high { MulAtLeast(p, high, t); } else { MulLess(p, t, high); }
  }

  lemma MulAtLeast(p: nat, a: nat, b: int)
    requires a <= b
    ensures p * a <= p * b
  {}

  lemma ShiftIn(word: nat, n: nat, g: nat, v: nat)
    requires n + g <= 32 && v < Pow2(g)
    ensures (word * Pow2(g) % WORD + v) % Pow2(n + g) == word % Pow2(n) * Pow2(g) + v
    ensures word * Pow2(g) % WORD + v < WORD
  {
    WordIs();
    Pow2Add(n, g);
    Pow2Add(n + g, 32 - n - g);
    ShiftParts(word, Pow2(n), Pow2(g), Pow2(32 - n - g), v);
    Pow2Add(g, 32 - g);
    ShiftRoom(word, Pow2(g), Pow2(32 - g));
  }

  lemma SplitOff(word: nat, p: nat, c: nat, a: nat, b: nat)
    requires p > 0 && a < c && b < p && p * c > 0 && word % (p * c) == a * p + b
    ensures word / p % c == a && word % p == b
  {
    var q := word / (p * c);
    Associates(p, c, q);
    assert word == p * (c * q) + a * p + b == p * (c * q + a) + b;
    DivModIs(word, p, c * q + a, b);
    DivModIs(c * q + a, c, q, a);
  }

  // ---- The accumulator ----

  // What a loop has done with the bits it has read: whole groups of w given out, and the rest held in the low bits.
  ghost predicate Holding(w: nat, all: seq<bit>, values: seq<nat>, word: nat, nbits: nat) {
    && w * |values| + nbits == |all|
    && word < WORD
    && Fit(w, values) && Join(w, values) == all[..w * |values|]
    && word % Pow2(nbits) == FromBits(all[w * |values|..])
  }

  lemma Nothing(w: nat)
    ensures Holding(w, [], [], 0, 0)
  {
    assert w * 0 == 0;
    assert Pow2(0) == 1;
  }

  // Taking g bits in: they join those held, whatever falls off the top.
  lemma TakeBits(word: nat, held: seq<bit>, g: nat, v: nat)
    requires |held| + g <= 32 && v < Pow2(g) && word % Pow2(|held|) == FromBits(held)
    ensures (word * Pow2(g) % WORD + v) % Pow2(|held| + g) == FromBits(held + ToBits(v, g))
    ensures word * Pow2(g) % WORD + v < WORD
  {
    FromToBits(v, g);
    FromConcat(held, ToBits(v, g));
    ShiftIn(word, |held|, g, v);
  }

  lemma CutAfter(all: seq<bit>, more: seq<bit>, next: seq<bit>, done: nat)
    requires next == all + more && done <= |all|
    ensures next[..done] == all[..done] && next[done..] == all[done..] + more
  {}

  lemma TakeIn(w: nat, g: nat, p: nat, all: seq<bit>, next: seq<bit>, values: seq<nat>, word: nat, nbits: nat, v: nat)
    requires Holding(w, all, values, word, nbits) && nbits + g <= 32 && v < p == Pow2(g)
    requires next == all + ToBits(v, g)
    ensures Holding(w, next, values, word * p % WORD + v, nbits + g)
  {
    ToBitsLength(v, g);
    TakeBits(word, all[w * |values|..], g, v);
    CutAfter(all, ToBits(v, g), next, w * |values|);
  }

  // The same of a whole value of g bits.
  lemma TakeOne(w: nat, g: nat, p: nat, read: seq<nat>, next: seq<nat>, values: seq<nat>, word: nat, nbits: nat, v: nat)
    requires Holding(w, Join(g, read), values, word, nbits) && nbits + g <= 32 && v < p == Pow2(g)
    requires next == read + [v]
    ensures Holding(w, Join(g, next), values, word * p % WORD + v, nbits + g)
  {
    JoinPush(g, read, v);
    TakeIn(w, g, p, Join(g, read), Join(g, next), values, word, nbits, v);
  }

  // Giving a group out: the w bits above the last n are the first w held, and the last n are the rest.
  lemma GiveBits(word: nat, held: seq<bit>, w: nat, n: nat)
    requires |held| == n + w && word % Pow2(n + w) == FromBits(held)
    ensures word / Pow2(n) % Pow2(w) == FromBits(held[..w]) < Pow2(w)
    ensures word % Pow2(n) == FromBits(held[w..])
  {
    assert held == held[..w] + held[w..];
    FromConcat(held[..w], held[w..]);
    ToFromBits(held[w..]);
    ToFromBits(held[..w]);
    Pow2Add(n, w);
    SplitOff(word, Pow2(n), Pow2(w), FromBits(held[..w]), FromBits(held[w..]));
  }

  lemma GroupRead(w: nat, all: seq<bit>, values: seq<nat>, done: nat, v: nat)
    requires Fit(w, values) && done == w * |values| && done + w <= |all| && Join(w, values) == all[..done]
    requires v < Pow2(w) && v == FromBits(all[done..][..w])
    ensures Fit(w, values + [v]) && Join(w, values + [v]) == all[..done + w]
  {
    JoinPush(w, values, v);
    ToFromBits(all[done..][..w]);
    NextGroup(all, done, w);
  }

  lemma NextGroup(all: seq<bit>, done: nat, w: nat)
    requires done + w <= |all|
    ensures all[..done] + all[done..][..w] == all[..done + w]
    ensures all[done..][w..] == all[done + w..]
  {}

  lemma GiveOut(w: nat, p: nat, all: seq<bit>, values: seq<nat>, word: nat, nbits: nat)
    requires Holding(w, all, values, word, nbits) && w <= nbits && p == Pow2(w)
    ensures 0 <= word / Pow2(nbits - w) % p < p
    ensures Holding(w, all, values + [word / Pow2(nbits - w) % p], word, nbits - w)
  {
    GiveBits(word, all[w * |values|..], w, nbits - w);
    HoldLess(w, all, values, word, nbits, word / Pow2(nbits - w) % Pow2(w));
  }

  lemma HoldLess(w: nat, all: seq<bit>, values: seq<nat>, word: nat, nbits: nat, v: nat)
    requires Holding(w, all, values, word, nbits) && w <= nbits
    requires v < Pow2(w) && v == FromBits(all[w * |values|..][..w])
    requires word % Pow2(nbits - w) == FromBits(all[w * |values|..][w..])
    ensures Holding(w, all, values + [v], word, nbits - w)
  {
    var done := w * |values|;
    GroupRead(w, all, values, done, v);
    NextGroup(all, done, w);
    OneGroupMore(w, values, v);
  }

  lemma OneGroupMore(w: nat, values: seq<nat>, v: nat)
    ensures w * |values + [v]| == w * |values| + w
  {}
}
