// Recovery phrases (src/web/entropy.js): the "Generating the mnemonic" section of BIP-39 and the check the page runs
// on what it generated. SHA-256 is a parameter; the word list is any list of 2048 distinct words.
module Bip39 {
  import opened Prelude
  import opened Bits

  // The word list and the hash.
  datatype Page = Page(words: seq<string>, sha256: seq<byte> -> seq<byte>) {
    ghost predicate Valid() {
      && |words| == 2048
      && (forall i, j | 0 <= i < j < |words| :: words[i] != words[j])
      && (forall m :: |sha256(m)| == 32)
    }
  }

  // `slice(0, n)`, which stops at the end.
  function Head(bits: seq<bit>, n: nat): seq<bit> { if n <= |bits| then bits[..n] else bits }

  // `slice(n)`.
  function Rest(bits: seq<bit>, n: nat): seq<bit> { if n <= |bits| then bits[n..] else [] }

  // `WORDLIST.indexOf`, for a listed word.
  function IndexOf(words: seq<string>, w: string): nat
    requires w in words
  {
    if words[0] == w then 0 else 1 + IndexOf(words[1..], w)
  }

  // The entropy followed by the first bits of its hash, one for every four bytes.
  function AllBits(page: Page, entropy: seq<byte>): seq<bit> {
    Bytes(entropy) + Head(Bytes(page.sha256(entropy)), |entropy| / 4)
  }

  // The last group may be short: `slice` takes what there is.
  function Chunks(bits: seq<bit>): seq<nat> {
    if bits == [] then []
    else if |bits| < 11 then [FromBits(bits)]
    else [FromBits(bits[..11])] + Chunks(bits[11..])
  }

  function WordsAt(page: Page, indices: seq<nat>): seq<string>
    requires forall i | 0 <= i < |indices| :: indices[i] < |page.words|
  {
    seq(|indices|, i requires 0 <= i < |indices| => page.words[indices[i]])
  }

  lemma {:induction false} ChunksFit(bits: seq<bit>)
    ensures Fit(11, Chunks(bits))
  {
    if bits != [] {
      assert Pow2(11) == 2048 by { assert Pow2(5) == 32; }
      if |bits| < 11 {
        ToFromBits(bits);
        Pow2Grows(|bits|, 11);
      } else {
        ToFromBits(bits[..11]);
        ChunksFit(bits[11..]);
      }
    }
  }

  lemma {:induction false} Pow2Grows(a: nat, b: nat)
    requires a <= b
    ensures Pow2(a) <= Pow2(b)
  {
    if a < b { Pow2Grows(a, b - 1); }
  }

  lemma Pow2Of11()
    ensures Pow2(8) == 256 && Pow2(11) == 2048
  {
    assert Pow2(5) == 32;
  }

  function Mnemonic(page: Page, entropy: seq<byte>): seq<string>
    requires |page.words| == 2048
  {
    Pow2Of11();
    ChunksFit(AllBits(page, entropy));
    WordsAt(page, Chunks(AllBits(page, entropy)))
  }

  // The loop of `entropyToMnemonic`: eleven bits at a time, each group an index into the list.
  method EntropyToMnemonic(page: Page, entropy: seq<byte>) returns (words: seq<string>)
    requires |page.words| == 2048
    ensures words == Mnemonic(page, entropy)
  {
    var entBits := Bytes(entropy);
    var csLen := |entropy| * 8 / 32;
    var hashBits := Head(Bytes(page.sha256(entropy)), csLen);
    var allBits := entBits + hashBits;
    words := [];
    ghost var done: seq<nat> := [];
    var i := 0;
    while i < |allBits|
      invariant Below(done) && Cut(done, allBits, i) == Chunks(allBits)
      invariant words == WordsAt(page, done)
      decreases |allBits| - i
    {
      var group := GroupAt(allBits, i);
      CutStep(done, allBits, i);
      WordsPush(page, done, FromBits(group));
      words := words + [page.words[FromBits(group)]];
      done := done + [FromBits(group)];
      i := i + 11;
    }
    assert allBits == AllBits(page, entropy);
  }

  lemma WordsPush(page: Page, indices: seq<nat>, v: nat)
    requires |page.words| == 2048 && Below(indices) && v < 2048
    ensures Below(indices + [v]) && WordsAt(page, indices + [v]) == WordsAt(page, indices) + [page.words[v]]
  {}

  predicate Below(indices: seq<nat>) { forall i | 0 <= i < |indices| :: indices[i] < 2048 }

  // The groups read so far and those still ahead.
  ghost function Cut(done: seq<nat>, bits: seq<bit>, i: nat): seq<nat> { done + Chunks(Rest(bits, i)) }

  function GroupAt(bits: seq<bit>, i: nat): seq<bit>
    requires i < |bits|
  {
    if i + 11 <= |bits| then bits[i..i + 11] else bits[i..]
  }

  lemma CutStep(done: seq<nat>, bits: seq<bit>, i: nat)
    requires i < |bits| && Below(done) && Cut(done, bits, i) == Chunks(bits)
    ensures FromBits(GroupAt(bits, i)) < 2048
    ensures Cut(done + [FromBits(GroupAt(bits, i))], bits, i + 11) == Chunks(bits)
  {
    ChunksBelow(bits);
    ChunkStep(bits, i);
    OneMore(Chunks(bits), done, FromBits(GroupAt(bits, i)), Chunks(Rest(bits, i + 11)));
  }

  lemma OneMore(all: seq<nat>, done: seq<nat>, v: nat, ahead: seq<nat>)
    requires Below(all) && all == done + ([v] + ahead)
    ensures v < 2048 && done + [v] + ahead == all
  {
    assert all[|done|] == v;
  }

  lemma ChunksBelow(bits: seq<bit>)
    ensures Below(Chunks(bits))
  {
    Pow2Of11();
    ChunksFit(bits);
  }

  lemma ChunkStep(bits: seq<bit>, i: nat)
    requires i < |bits|
    ensures Chunks(Rest(bits, i)) == [FromBits(GroupAt(bits, i))] + Chunks(Rest(bits, i + 11))
  {
    var rest := Rest(bits, i);
    if |rest| >= 11 {
      assert rest[..11] == bits[i..i + 11] && rest[11..] == Rest(bits, i + 11);
    } else {
      assert Chunks(Rest(bits, i + 11)) == [];
    }
  }

  predicate Listed(page: Page, words: seq<string>) { forall i | 0 <= i < |words| :: words[i] in page.words }

  function Indices(page: Page, words: seq<string>): seq<nat>
    requires Listed(page, words)
  {
    seq(|words|, i requires 0 <= i < |words| => IndexOf(page.words, words[i]))
  }

  // `verifyMnemonic`: the entropy and the checksum are read back off the words, and the hash of what was read decides.
  predicate VerifyMnemonic(page: Page, words: seq<string>, entropy: seq<byte>)
    requires Listed(page, words)
  {
    VerifyBits(page, Join(11, Indices(page, words)), entropy)
  }

  predicate VerifyBits(page: Page, idxBits: seq<bit>, entropy: seq<byte>) {
    var reconstructed := Groups(8, Head(idxBits, 8 * |entropy|));
    var csBits := Rest(idxBits, 8 * |entropy|);
    GroupsAreBytes(Head(idxBits, 8 * |entropy|));
    Head(Bytes(page.sha256(reconstructed)), |csBits|) == csBits && reconstructed == entropy
  }

  lemma {:induction false} GroupsAreBytes(bits: seq<bit>)
    ensures forall i | 0 <= i < |Groups(8, bits)| :: 0 <= Groups(8, bits)[i] < 256
    decreases |bits|
  {
    if |bits| >= 8 {
      ToFromBits(bits[..8]);
      assert Pow2(8) == 256;
      GroupsAreBytes(bits[8..]);
    }
  }

  // ---- Both directions ----

  lemma {:induction false} IndexOfIs(words: seq<string>, i: nat)
    requires i < |words| && forall j, k | 0 <= j < k < |words| :: words[j] != words[k]
    ensures IndexOf(words, words[i]) == i
  {
    if i > 0 {
      assert words[1..][i - 1] == words[i];
      IndexOfIs(words[1..], i - 1);
    }
  }

  lemma {:induction false} IndexOfBack(words: seq<string>, w: string)
    requires w in words
    ensures IndexOf(words, w) < |words| && words[IndexOf(words, w)] == w
  {
    if words[0] != w { IndexOfBack(words[1..], w); }
  }

  lemma {:induction false} ChunksAreGroups(bits: seq<bit>, k: nat)
    requires |bits| == 11 * k
    ensures Chunks(bits) == Groups(11, bits)
    decreases |bits|
  {
    if k > 0 { ChunksAreGroups(bits[11..], k - 1); }
  }

  // For an entropy of 4k bytes, whose hash has at least k bits.
  lemma AllBitsShape(page: Page, entropy: seq<byte>, k: nat)
    requires page.Valid() && |entropy| == 4 * k && k <= 256
    ensures var bits := AllBits(page, entropy);
      && |bits| == 33 * k
      && bits[..32 * k] == Bytes(entropy)
      && bits[32 * k..] == Head(Bytes(page.sha256(entropy)), k)
      && |Head(Bytes(page.sha256(entropy)), k)| == k
  {
    JoinLength(8, entropy);
    JoinLength(8, page.sha256(entropy));
  }

  lemma MnemonicIndices(page: Page, entropy: seq<byte>, k: nat)
    requires page.Valid() && |entropy| == 4 * k && k <= 256
    ensures var words := Mnemonic(page, entropy);
      && |words| == 3 * k && Listed(page, words)
      && Join(11, Indices(page, words)) == AllBits(page, entropy)
  {
    var bits := AllBits(page, entropy);
    AllBitsShape(page, entropy, k);
    Pow2Of11();
    ChunksAreGroups(bits, 3 * k);
    JoinOfGroups(11, 3 * k, bits);
    ChunksFit(bits);
    var words := Mnemonic(page, entropy);
    forall i | 0 <= i < |words| ensures IndexOf(page.words, words[i]) == Chunks(bits)[i] {
      IndexOfIs(page.words, Chunks(bits)[i]);
    }
    assert Indices(page, words) == Groups(11, bits);
  }

  // Every entropy of 4k bytes gives exactly 3k words, and the page accepts its own phrase.
  lemma GeneratedIsAccepted(page: Page, entropy: seq<byte>, k: nat)
    requires page.Valid() && |entropy| == 4 * k && k <= 256
    ensures var words := Mnemonic(page, entropy);
      |words| == 3 * k && Listed(page, words) && VerifyMnemonic(page, words, entropy)
  {
    MnemonicIndices(page, entropy, k);
    AllBitsShape(page, entropy, k);
    Pow2Of11();
    GroupsOfJoin(8, entropy, []);
    assert Bytes(entropy) + [] == Bytes(entropy);
  }

  // The bits of an accepted phrase are the entropy's bits and the first bits of its hash.
  lemma AcceptedBits(page: Page, idxBits: seq<bit>, entropy: seq<byte>, k: nat)
    requires page.Valid() && |entropy| == 4 * k && |idxBits| == 33 * k && k <= 256
    requires VerifyBits(page, idxBits, entropy)
    ensures idxBits == AllBits(page, entropy)
  {
    var data, check := idxBits[..32 * k], idxBits[32 * k..];
    BytesBack(data, entropy, k);
    assert |check| == k;
    assert idxBits == data + check;
  }

  lemma BytesBack(data: seq<bit>, entropy: seq<byte>, k: nat)
    requires |data| == 32 * k && Groups(8, data) == entropy
    ensures data == Bytes(entropy)
  {
    JoinOfGroups(8, 4 * k, data);
  }

  // Any 3k listed words the page accepts for an entropy of 4k bytes are that entropy's phrase.
  lemma AcceptedIsGenerated(page: Page, words: seq<string>, entropy: seq<byte>, k: nat)
    requires page.Valid() && |entropy| == 4 * k && |words| == 3 * k && k <= 256
    requires Listed(page, words) && VerifyMnemonic(page, words, entropy)
    ensures words == Mnemonic(page, entropy)
  {
    var indices := Indices(page, words);
    var idxBits := Join(11, indices);
    JoinLength(11, indices);
    AcceptedBits(page, idxBits, entropy, k);
    forall i | 0 <= i < |words| ensures indices[i] < 2048 && page.words[indices[i]] == words[i] {
      IndexOfBack(page.words, words[i]);
    }
    Pow2Of11();
    ChunksAreGroups(idxBits, 3 * k);
    GroupsOfJoin(11, indices, []);
    assert idxBits + [] == idxBits;
  }
}
