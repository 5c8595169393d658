// Which chain is a peer on? An exponentially spaced block locator built from our own chain (src/main.rs), the
// peer's `headers` reply, and the placement of that reply at one reference height (src/p2p.rs).
module ChainSurvey {
  import opened Prelude

  type Hash = h: seq<byte> | |h| == 32 witness seq(32, _ => 0)

  // A header as the peer reported it: its own hash and its parent's.
  datatype PeerHeader = PeerHeader(hash: Hash, prev: Hash)

  datatype LocatorEntry = LocatorEntry(hash: Hash, height: int)

  const CHAIN_REF_LAG := 6
  const LOCATOR_START_LAG := 12
  const MAX_LOCATOR := 24
  const MAX_HEADERS := 2000

  // ---- Text of a hash ----

  function HexDigit(d: nat): char
    requires d < 16
  {
    if d < 10 then (d + '0' as int) as char else (d - 10 + 'a' as int) as char
  }

  function HexByte(b: byte): string {
    [HexDigit(b / 16), HexDigit(b % 16)]
  }

  // Hex of a hash, last byte first.
  function HashHex(h: seq<byte>): string {
    if h == [] then "" else HexByte(h[|h| - 1]) + HashHex(h[..|h| - 1])
  }

  lemma HexByteInjective(a: byte, b: byte)
    requires HexByte(a) == HexByte(b)
    ensures a == b
  {
    assert HexDigit(a / 16) == HexByte(a)[0] == HexDigit(b / 16);
    assert HexDigit(a % 16) == HexByte(a)[1] == HexDigit(b % 16);
  }

  // Two hashes with the same text are the same hash.
  lemma {:induction false} HashHexInjective(g: seq<byte>, h: seq<byte>)
    requires HashHex(g) == HashHex(h)
    ensures g == h
  {
    HashHexLength(g);
    HashHexLength(h);
    if g != [] {
      var a, b := g[|g| - 1], h[|h| - 1];
      assert HexByte(a) == HashHex(g)[..2] == HexByte(b);
      HexByteInjective(a, b);
      assert HashHex(g[..|g| - 1]) == HashHex(g)[2..] == HashHex(h[..|h| - 1]);
      HashHexInjective(g[..|g| - 1], h[..|h| - 1]);
      assert g == g[..|g| - 1] + [a] && h == h[..|h| - 1] + [b];
    }
  }

  lemma {:induction false} HashHexLength(h: seq<byte>)
    ensures |HashHex(h)| == 2 * |h|
  {
    if h != [] { HashHexLength(h[..|h| - 1]); }
  }

  // Two digits a byte, the last byte first and its high half first.
  lemma {:induction false} HashHexIs(h: seq<byte>)
    ensures |HashHex(h)| == 2 * |h|
    ensures forall i: nat | i < |h| :: HexAt(HashHex(h), 2 * i, h[|h| - 1 - i])
  {
    if h != [] {
      var rest, last := h[..|h| - 1], h[|h| - 1];
      HashHexIs(rest);
      HexByteIs(last);
      forall i: nat | i < |h| ensures HexAt(HashHex(h), 2 * i, h[|h| - 1 - i]) {
        if i == 0 {
          HexFirst(HexByte(last), HashHex(rest), last);
        } else {
          assert HexAt(HashHex(rest), 2 * (i - 1), rest[|rest| - 1 - (i - 1)]);
          HexLater(HexByte(last), HashHex(rest), 2 * (i - 1), h[|h| - 1 - i]);
        }
      }
    }
  }

  lemma HexFirst(first: string, rest: string, b: byte)
    requires HexAt(first, 0, b)
    ensures HexAt(first + rest, 0, b)
  {}

  lemma HexLater(first: string, rest: string, at: nat, b: byte)
    requires |first| == 2 && HexAt(rest, at, b)
    ensures HexAt(first + rest, at + 2, b)
  {}

  ghost predicate HexAt(text: string, at: nat, b: byte) {
    at + 1 < |text| && text[at] == "0123456789abcdef"[b / 16] && text[at + 1] == "0123456789abcdef"[b % 16]
  }

  lemma HexByteIs(b: byte)
    ensures HexAt(HexByte(b), 0, b)
  {}

  // ---- The locator ----

  // How far below the tip the k-th locator entry lies: ten steps of one block, then doubling.
  function Offset(k: nat): nat {
    if k <= 10 then 12 + k else 20 + Pow2(k - 9)
  }

  // The heights of entries k, k+1, ... of the locator.
  function HeightsFrom(tip: int, k: nat): seq<int>
    decreases MAX_LOCATOR - k
  {
    if k < MAX_LOCATOR && tip - Offset(k) > 0 then [tip - Offset(k)] + HeightsFrom(tip, k + 1) else []
  }

  function Heights(tip: int): seq<int> {
    HeightsFrom(tip, 0)
  }

  // Entry i lies Offset(k + i) below the tip and above genesis; the locator stops only at 24 entries or at genesis.
  ghost predicate Spaced(tip: int, k: nat, heights: seq<int>) {
    && (forall i | 0 <= i < |heights| :: heights[i] == tip - Offset(k + i) && heights[i] > 0)
    && k + |heights| <= 24
    && (k + |heights| < 24 ==> tip <= Offset(k + |heights|))
  }

  lemma {:induction false} HeightsSpaced(tip: int, k: nat)
    requires k <= MAX_LOCATOR
    ensures Spaced(tip, k, HeightsFrom(tip, k))
    decreases MAX_LOCATOR - k
  {
    var heights := HeightsFrom(tip, k);
    if heights != [] {
      HeightsSpaced(tip, k + 1);
      var rest := HeightsFrom(tip, k + 1);
      forall i | 0 <= i < |heights| ensures heights[i] == tip - Offset(k + i) && heights[i] > 0 {
        if i > 0 { assert heights[i] == rest[i - 1] == tip - Offset(k + 1 + (i - 1)); }
      }
    }
  }

  // The entries whose hash the node could fetch; a failed fetch leaves a gap.
  function Fetched(fetch: int -> Option<Hash>, heights: seq<int>): seq<LocatorEntry> {
    if heights == [] then []
    else
      var rest := Fetched(fetch, heights[..|heights| - 1]);
      var h := heights[|heights| - 1];
      match fetch(h)
      case Some(hash) => rest + [LocatorEntry(hash, h)]
      case None => rest
  }

  // The entries stand for the heights at these positions.
  ghost predicate FetchedAt(fetch: int -> Option<Hash>, heights: seq<int>, out: seq<LocatorEntry>, at: seq<nat>) {
    && |at| == |out| && Ascending(at, |heights|)
    && (forall i | 0 <= i < |at| :: out[i].height == heights[at[i]] && fetch(out[i].height) == Some(out[i].hash))
    && forall n: nat | n < |heights| :: n in at <==> fetch(heights[n]).Some?
  }

  lemma FetchedPush(fetch: int -> Option<Hash>, heights: seq<int>, out: seq<LocatorEntry>, at: seq<nat>, h: int)
    requires FetchedAt(fetch, heights, out, at)
    ensures fetch(h).None? ==> FetchedAt(fetch, heights + [h], out, at)
    ensures fetch(h).Some? ==>
      FetchedAt(fetch, heights + [h], out + [LocatorEntry(fetch(h).value, h)], at + [|heights|])
  {
    AscendingPush(at, |heights|);
  }

  // Every height whose hash was fetched has its entry, in the order of the heights, and nothing else has one: a failed
  // fetch leaves a gap and does not stop the loop.
  lemma {:induction false} FetchedAre(fetch: int -> Option<Hash>, heights: seq<int>) returns (at: seq<nat>)
    ensures FetchedAt(fetch, heights, Fetched(fetch, heights), at)
  {
    if heights == [] {
      at := [];
    } else {
      var front, h := heights[..|heights| - 1], heights[|heights| - 1];
      var before := FetchedAre(fetch, front);
      assert heights == front + [h];
      FetchedPush(fetch, front, Fetched(fetch, front), before, h);
      at := if fetch(h).Some? then before + [|front|] else before;
    }
  }

  lemma OffsetStep(n: nat)
    ensures Offset(n + 1) == Offset(n) + if n + 1 <= 10 then 1 else Pow2(n - 9)
  {
    assert Pow2(1) == 2;
    if n >= 10 { assert Pow2(n - 8) == 2 * Pow2(n - 9); }
  }

  // The first loop of `build_locator` takes exactly the heights tip - Offset(0), tip - Offset(1), ... while they are
  // positive and fewer than 24.
  method LocatorHeights(tip: int) returns (heights: seq<int>)
    ensures heights == Heights(tip)
  {
    heights := [];
    var h, step, n := tip - LOCATOR_START_LAG, 1, 0;
    while h > 0 && |heights| < MAX_LOCATOR
      invariant n == |heights| <= MAX_LOCATOR
      invariant h == tip - Offset(n)
      invariant step == if n <= 10 then 1 else Pow2(n - 10)
      invariant heights + HeightsFrom(tip, n) == Heights(tip)
      decreases MAX_LOCATOR - |heights|
    {
      OffsetStep(n);
      TakeHeight(tip, heights);
      heights := heights + [h];
      n := n + 1;
      if n > 10 {
        step := step * 2;
      }
      h := h - step;
    }
  }

  lemma TakeHeight(tip: int, heights: seq<int>)
    requires |heights| < MAX_LOCATOR && tip - Offset(|heights|) > 0
    ensures heights + [tip - Offset(|heights|)] + HeightsFrom(tip, |heights| + 1) == heights + HeightsFrom(tip, |heights|)
  {
    var h, rest := tip - Offset(|heights|), HeightsFrom(tip, |heights| + 1);
    assert heights + [h] + rest == heights + ([h] + rest);
  }

  // The second loop asks our node for the hash at each height.
  method BuildLocator(fetch: int -> Option<Hash>, tip: int) returns (out: seq<LocatorEntry>)
    ensures out == Fetched(fetch, Heights(tip))
  {
    var heights := LocatorHeights(tip);
    out := [];
    for i := 0 to |heights|
      invariant out == Fetched(fetch, heights[..i])
    {
      assert heights[..i + 1][..i] == heights[..i];
      match fetch(heights[i]) {
        case Some(hash) => out := out + [LocatorEntry(hash, heights[i])];
        case None =>
      }
    }
    assert heights[..|heights|] == heights;
  }

  // ---- Placing a reply ----

  // The height of the first entry carrying this hash.
  function FindEntry(locator: seq<LocatorEntry>, hash: Hash): Option<int> {
    if locator == [] then None
    else if locator[0].hash == hash then Some(locator[0].height)
    else FindEntry(locator[1..], hash)
  }

  function PeerHashAt(headers: seq<PeerHeader>, locator: seq<LocatorEntry>, target: int): string {
    if headers == [] then ""
    else
      match FindEntry(locator, headers[0].prev)
      case None => ""
      case Some(base) =>
        var idx := target - base - 1;
        if 0 <= idx < |headers| then HashHex(headers[idx].hash) else ""
  }

  // ---- An honest peer ----

  // A chain lists block hashes by height, genesis at 0. No two blocks have the same hash, and equal hashes in two
  // chains mean equal histories: a block commits to its parent.
  ghost predicate Coherent(ours: seq<Hash>, theirs: seq<Hash>) {
    && (forall i, j | 0 <= i < |theirs| && 0 <= j < |theirs| :: theirs[i] == theirs[j] ==> i == j)
    && (forall i, j | 0 <= i < |ours| && 0 <= j < |theirs| :: ours[i] == theirs[j] ==>
          i == j && ours[..i] == theirs[..i])
  }

  predicate Shares(ours: seq<Hash>, theirs: seq<Hash>, height: int) {
    0 <= height < |ours| && height < |theirs| && ours[height] == theirs[height]
  }

  // The height of the newest locator hash on the peer's chain; genesis when it knows none of them.
  ghost function ForkPoint(theirs: seq<Hash>, locator: seq<Hash>): nat {
    if locator == [] then 0
    else if exists i :: 0 <= i < |theirs| && theirs[i] == locator[0] then
      var i :| 0 <= i < |theirs| && theirs[i] == locator[0];
      i
    else ForkPoint(theirs, locator[1..])
  }

  // Headers base+1, base+2, ... of the peer's chain, at most 2000 of them.
  ghost function HeadersFrom(theirs: seq<Hash>, base: nat): seq<PeerHeader> {
    if base >= |theirs| then []
    else
      var n := if |theirs| - base - 1 < MAX_HEADERS then |theirs| - base - 1 else MAX_HEADERS;
      seq(n, i requires 0 <= i < n => PeerHeader(theirs[base + 1 + i], theirs[base + i]))
  }

  function Hashes(locator: seq<LocatorEntry>): seq<Hash> {
    seq(|locator|, i requires 0 <= i < |locator| => locator[i].hash)
  }

  ghost function HonestReply(theirs: seq<Hash>, locator: seq<LocatorEntry>): seq<PeerHeader> {
    HeadersFrom(theirs, ForkPoint(theirs, Hashes(locator)))
  }

  // Every entry is a block of our chain above genesis.
  ghost predicate OnOurChain(ours: seq<Hash>, locator: seq<LocatorEntry>) {
    forall e | e in locator :: 0 < e.height < |ours| && ours[e.height] == e.hash
  }

  // The newest shared entry of the locator, by position.
  ghost predicate NewestShared(ours: seq<Hash>, theirs: seq<Hash>, locator: seq<LocatorEntry>, j: nat) {
    && j < |locator|
    && Shares(ours, theirs, locator[j].height)
    && forall i | 0 <= i < j :: !Shares(ours, theirs, locator[i].height)
  }

  // The peer's reply, which starts above its newest shared entry, is long enough to reach the target.
  ghost predicate Covered(ours: seq<Hash>, theirs: seq<Hash>, locator: seq<LocatorEntry>, target: nat) {
    exists j: nat :: NewestShared(ours, theirs, locator, j) && 0 < target - locator[j].height <= MAX_HEADERS
  }

  lemma {:induction false} ForkPointIs(ours: seq<Hash>, theirs: seq<Hash>, locator: seq<LocatorEntry>, j: nat)
    requires Coherent(ours, theirs) && OnOurChain(ours, locator)
    requires NewestShared(ours, theirs, locator, j)
    ensures ForkPoint(theirs, Hashes(locator)) == locator[j].height
  {
    var e := locator[0];
    assert e in locator;
    if j > 0 {
      assert Hashes(locator)[1..] == Hashes(locator[1..]);
      assert NewestShared(ours, theirs, locator[1..], j - 1);
      ForkPointIs(ours, theirs, locator[1..], j - 1);
    } else {
      assert theirs[e.height] == Hashes(locator)[0];
    }
  }

  lemma {:induction false} ForkPointNone(ours: seq<Hash>, theirs: seq<Hash>, locator: seq<LocatorEntry>)
    requires Coherent(ours, theirs) && OnOurChain(ours, locator)
    requires forall i | 0 <= i < |locator| :: !Shares(ours, theirs, locator[i].height)
    ensures ForkPoint(theirs, Hashes(locator)) == 0
  {
    if locator != [] {
      assert locator[0] in locator && !Shares(ours, theirs, locator[0].height);
      assert Hashes(locator)[1..] == Hashes(locator[1..]);
      ForkPointNone(ours, theirs, locator[1..]);
    }
  }

  lemma {:induction false} FindEntryIs(ours: seq<Hash>, theirs: seq<Hash>, locator: seq<LocatorEntry>, b: nat)
    requires Coherent(ours, theirs) && OnOurChain(ours, locator) && b < |theirs|
    ensures var f := FindEntry(locator, theirs[b]);
      && (f.Some? ==> f.value == b)
      && (f.None? ==> forall i | 0 <= i < |locator| :: locator[i].height != b || !Shares(ours, theirs, b))
  {
    if locator != [] {
      assert locator[0] in locator;
      FindEntryIs(ours, theirs, locator[1..], b);
    }
  }

  lemma {:induction false} FirstShared(ours: seq<Hash>, theirs: seq<Hash>, locator: seq<LocatorEntry>)
    returns (found: bool, j: nat)
    ensures found ==> NewestShared(ours, theirs, locator, j)
    ensures !found ==> forall i | 0 <= i < |locator| :: !Shares(ours, theirs, locator[i].height)
  {
    found, j := false, 0;
    while j < |locator|
      invariant j <= |locator|
      invariant forall i | 0 <= i < j :: !Shares(ours, theirs, locator[i].height)
    {
      if Shares(ours, theirs, locator[j].height) {
        found := true;
        return;
      }
      j := j + 1;
    }
  }

  lemma PlacementFrom(ours: seq<Hash>, theirs: seq<Hash>, locator: seq<LocatorEntry>, target: nat, j: nat)
    requires Coherent(ours, theirs) && OnOurChain(ours, locator)
    requires NewestShared(ours, theirs, locator, j)
    ensures PeerHashAt(HonestReply(theirs, locator), locator, target)
         == if target < |theirs| && 0 < target - locator[j].height <= MAX_HEADERS then HashHex(theirs[target]) else ""
  {
    ForkPointIs(ours, theirs, locator, j);
    var base := locator[j].height;
    FindEntryIs(ours, theirs, locator, base);
    var headers := HonestReply(theirs, locator);
    if headers != [] {
      assert headers[0].prev == theirs[base];
      assert FindEntry(locator, theirs[base]) == Some(base);
      assert 0 <= target - base - 1 < |headers| ==> headers[target - base - 1].hash == theirs[target];
    }
  }

  // What an honest peer's reply is placed as, for any locator on our chain: its own block at the target when its
  // newest shared entry lies fewer than 2001 blocks below the target, and nothing otherwise.
  lemma Placement(ours: seq<Hash>, theirs: seq<Hash>, locator: seq<LocatorEntry>, target: nat)
    requires Coherent(ours, theirs) && OnOurChain(ours, locator)
    ensures PeerHashAt(HonestReply(theirs, locator), locator, target)
         == if target < |theirs| && Covered(ours, theirs, locator, target) then HashHex(theirs[target]) else ""
  {
    var found, j := FirstShared(ours, theirs, locator);
    if found {
      PlacementFrom(ours, theirs, locator, target, j);
      assert forall k: nat :: NewestShared(ours, theirs, locator, k) ==> k == j;
    } else {
      ForkPointNone(ours, theirs, locator);
      if theirs != [] {
        FindEntryIs(ours, theirs, locator, 0);
        FindEntryAbove(ours, locator, theirs[0]);
        assert FindEntry(locator, theirs[0]).None?;
      }
      assert !Covered(ours, theirs, locator, target);
    }
  }

  lemma {:induction false} FindEntryAbove(ours: seq<Hash>, locator: seq<LocatorEntry>, hash: Hash)
    requires OnOurChain(ours, locator)
    ensures var f := FindEntry(locator, hash); f.Some? ==> 0 < f.value
  {
    if locator != [] {
      assert locator[0] in locator;
      FindEntryAbove(ours, locator[1..], hash);
    }
  }

  // No honest peer is ever given a hash that is not its own block at the target, whatever gaps the locator has.
  lemma NeverMisplaced(ours: seq<Hash>, theirs: seq<Hash>, locator: seq<LocatorEntry>, target: nat)
    requires Coherent(ours, theirs) && OnOurChain(ours, locator)
    ensures var placed := PeerHashAt(HonestReply(theirs, locator), locator, target);
      placed != "" ==> target < |theirs| && placed == HashHex(theirs[target])
  {
    Placement(ours, theirs, locator, target);
  }

  // ---- The exact reach of the locator ----

  lemma OffsetTable()
    ensures Offset(0) == 12 && Offset(19) == 1044 && Offset(20) == 2068
  {
    assert Pow2(5) == 32;
    assert Pow2(10) == 1024 && Pow2(11) == 2048;
  }

  lemma {:induction false} OffsetMonotone(i: nat, k: nat)
    requires i <= k
    ensures Offset(i) <= Offset(k)
  {
    if i < k {
      OffsetMonotone(i, k - 1);
      OffsetStep(k - 1);
    }
  }

  // Our node answers for its own chain, up to its tip.
  ghost predicate Answers(fetch: int -> Option<Hash>, ours: seq<Hash>) {
    forall h | 0 <= h < |ours| :: fetch(h) == Some(ours[h])
  }

  lemma {:induction false} FetchedAll(fetch: int -> Option<Hash>, ours: seq<Hash>, heights: seq<int>)
    requires Answers(fetch, ours)
    requires forall i | 0 <= i < |heights| :: 0 <= heights[i] < |ours|
    ensures |Fetched(fetch, heights)| == |heights|
    ensures forall i | 0 <= i < |heights| :: Fetched(fetch, heights)[i] == LocatorEntry(ours[heights[i]], heights[i])
  {
    if heights != [] {
      FetchedAll(fetch, ours, heights[..|heights| - 1]);
    }
  }

  // The oldest locator height from which a 2000-header reply still covers the reference height.
  function AnchorFloor(tip: int): int
    requires tip > LOCATOR_START_LAG
  {
    HeightsSpaced(tip, 0);
    Heights(tip)[AnchorIndex(tip)]
  }

  lemma AnchorFloorIs(tip: int)
    requires tip > 1044
    ensures AnchorFloor(tip) == tip - 1044
  {
    OffsetTable();
    HeightsSpaced(tip, 0);
    var n := |Heights(tip)|;
    if n <= 19 { OffsetMonotone(n, 19); }
    HeightAt(tip, AnchorIndex(tip));
  }

  // The fully fetched locator lists our blocks at the heights tip - Offset(i), newest first.
  ghost predicate Complete(ours: seq<Hash>, tip: int, locator: seq<LocatorEntry>) {
    && |locator| == |Heights(tip)|
    && OnOurChain(ours, locator)
    && forall i | 0 <= i < |locator| :: locator[i].height == tip - Offset(i)
  }

  lemma HeightAt(tip: int, i: nat)
    requires i < |Heights(tip)|
    ensures 0 < Heights(tip)[i] == tip - Offset(i) <= tip - LOCATOR_START_LAG
  {
    HeightsSpaced(tip, 0);
    assert Heights(tip)[i] == tip - Offset(0 + i);
    OffsetMonotone(0, i);
  }

  lemma LocatorComplete(fetch: int -> Option<Hash>, ours: seq<Hash>, tip: int)
    requires tip > LOCATOR_START_LAG && |ours| == tip + 1 && Answers(fetch, ours)
    ensures Complete(ours, tip, Fetched(fetch, Heights(tip)))
  {
    var heights := Heights(tip);
    forall i: nat | i < |heights| ensures 0 < heights[i] == tip - Offset(i) < |ours| {
      HeightAt(tip, i);
    }
    FetchedAll(fetch, ours, heights);
  }

  // The survey's reach, exactly: with every hash of the locator fetched, an honest peer is placed if and only if it
  // has reached the reference height and shares our block at the anchor floor; it is then given its own block.
  lemma SurveyPlaces(fetch: int -> Option<Hash>, ours: seq<Hash>, theirs: seq<Hash>, tip: int)
    requires tip > LOCATOR_START_LAG && |ours| == tip + 1
    requires Answers(fetch, ours) && Coherent(ours, theirs)
    ensures Reaches(ours, theirs, Fetched(fetch, Heights(tip)), tip)
  {
    LocatorComplete(fetch, ours, tip);
    CompleteReaches(ours, theirs, Fetched(fetch, Heights(tip)), tip);
  }

  ghost predicate Reaches(ours: seq<Hash>, theirs: seq<Hash>, locator: seq<LocatorEntry>, tip: int)
    requires tip > LOCATOR_START_LAG
  {
    PeerHashAt(HonestReply(theirs, locator), locator, tip - 6)
    == if tip - 6 < |theirs| && Shares(ours, theirs, AnchorFloor(tip)) then HashHex(theirs[tip - 6]) else ""
  }

  lemma CompleteReaches(ours: seq<Hash>, theirs: seq<Hash>, locator: seq<LocatorEntry>, tip: int)
    requires tip > LOCATOR_START_LAG && Coherent(ours, theirs) && Complete(ours, tip, locator)
    ensures Reaches(ours, theirs, locator, tip)
  {
    Placement(ours, theirs, locator, tip - CHAIN_REF_LAG);
    CoveredIffAnchored(ours, theirs, locator, tip);
  }

  // The last entry that counts, by position.
  function AnchorIndex(tip: int): nat
    requires |Heights(tip)| > 0
  {
    if |Heights(tip)| > 19 then 19 else |Heights(tip)| - 1
  }

  lemma CoveredIffAnchored(ours: seq<Hash>, theirs: seq<Hash>, locator: seq<LocatorEntry>, tip: int)
    requires tip > LOCATOR_START_LAG && Coherent(ours, theirs) && Complete(ours, tip, locator)
    ensures Covered(ours, theirs, locator, tip - CHAIN_REF_LAG) <==> Shares(ours, theirs, AnchorFloor(tip))
  {
    HeightsSpaced(tip, 0);
    var last := AnchorIndex(tip);
    HeightAt(tip, last);
    assert AnchorFloor(tip) == locator[last].height;
    var found, j := FirstShared(ours, theirs, locator);
    if found {
      NewestIsUnique(ours, theirs, locator, tip - CHAIN_REF_LAG, j);
      AnchorReach(tip, j);
      if j <= last {
        OffsetMonotone(j, last);
        SharesBelow(ours, theirs, locator[j].height, AnchorFloor(tip));
      }
    }
  }

  lemma NewestIsUnique(ours: seq<Hash>, theirs: seq<Hash>, locator: seq<LocatorEntry>, target: nat, j: nat)
    requires NewestShared(ours, theirs, locator, j)
    ensures Covered(ours, theirs, locator, target) <==> 0 < target - locator[j].height <= MAX_HEADERS
    ensures forall i | 0 <= i < |locator| && Shares(ours, theirs, locator[i].height) :: j <= i
  {
    assert forall k: nat :: NewestShared(ours, theirs, locator, k) ==> k == j;
  }

  // A reply that starts above entry j reaches the reference height exactly when j is at most the anchor index.
  lemma AnchorReach(tip: int, j: nat)
    requires j < |Heights(tip)|
    ensures j <= AnchorIndex(tip) <==> 0 < (tip - CHAIN_REF_LAG) - (tip - Offset(j)) <= MAX_HEADERS
  {
    OffsetTable();
    OffsetMonotone(0, j);
    if j <= 19 { OffsetMonotone(j, 19); } else { OffsetMonotone(20, j); }
  }

  lemma SharesBelow(ours: seq<Hash>, theirs: seq<Hash>, height: int, below: int)
    requires Coherent(ours, theirs) && Shares(ours, theirs, height)
    requires 0 <= below <= height
    ensures Shares(ours, theirs, below)
  {
    if below < height {
      assert ours[..height][below] == theirs[..height][below];
    }
  }
}
