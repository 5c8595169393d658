// Base32 of onion addresses (src/p2p.rs): an encoder whose 32-bit accumulator drops its high bits on the way, and the
// decoder of its tests. The reference is section 6 of RFC 4648, lowercase and unpadded: the whole bit string in
// groups of five.
module Base32 {
  import opened Prelude
  import opened Bits
  import opened Accumulator

  function Symbol(v: nat): char
    requires v < 32
  {
    if v < 26 then (v + 'a' as int) as char else (v - 26 + '2' as int) as char
  }

  // The position of a character in the alphabet.
  function Value(c: char): Option<nat> {
    if 'a' <= c <= 'z' then Some(c as int - 'a' as int)
    else if '2' <= c <= '7' then Some(c as int - '2' as int + 26)
    else None
  }

  lemma ValueOfSymbol(v: nat)
    requires v < 32
    ensures Value(Symbol(v)) == Some(v)
  {}

  lemma SymbolIs(v: nat)
    requires v < 32
    ensures Symbol(v) == "abcdefghijklmnopqrstuvwxyz234567"[v]
  {}

  function Zeros(n: nat): seq<bit> { if n == 0 then [] else Zeros(n - 1) + [0] }

  lemma {:induction false} ZerosAre(n: nat)
    ensures |Zeros(n)| == n && FromBits(Zeros(n)) == 0
  {
    if n > 0 { ZerosAre(n - 1); }
  }

  // Zero bits that complete the last group of five.
  function Padding(bits: seq<bit>): seq<bit> { Zeros((5 - |bits| % 5) % 5) }

  // The five-bit values of the padded bit string.
  function Values(data: seq<byte>): seq<nat> { Groups(5, Bytes(data) + Padding(Bytes(data))) }

  function Symbols(values: seq<nat>): string
    requires Fit(5, values)
  {
    assert Pow2(5) == 32;
    seq(|values|, i requires 0 <= i < |values| => Symbol(values[i]))
  }

  lemma PaddedLength(bits: seq<bit>)
    ensures |bits + Padding(bits)| == 5 * ((|bits| + 4) / 5)
    ensures |Padding(bits)| < 5
  {
    ZerosAre((5 - |bits| % 5) % 5);
    RoundUp(|bits|);
  }

  lemma RoundUp(n: nat)
    ensures n + (5 - n % 5) % 5 == 5 * ((n + 4) / 5)
  {
    var q, r := n / 5, n % 5;
    if r == 0 { DivModIs(n + 4, 5, q, 4); } else { DivModIs(n + 4, 5, q + 1, r - 1); }
  }

  lemma ValuesFit(data: seq<byte>)
    ensures Fit(5, Values(data))
    ensures |Values(data)| == (8 * |data| + 4) / 5
    ensures Join(5, Values(data)) == Bytes(data) + Padding(Bytes(data))
  {
    JoinLength(8, data);
    PaddedLength(Bytes(data));
    JoinOfGroups(5, (8 * |data| + 4) / 5, Bytes(data) + Padding(Bytes(data)));
  }

  // The reference encoding.
  function Encode(data: seq<byte>): string {
    ValuesFit(data);
    Symbols(Values(data))
  }

  // ---- The encoder's loop ----

  lemma TakeByte(data: seq<byte>, i: nat, values: seq<nat>, word: nat, nbits: nat)
    requires i < |data| && Holding(5, Bytes(data[..i]), values, word, nbits) && nbits <= 4
    ensures Holding(5, Bytes(data[..i + 1]), values, word * 256 % WORD + data[i], nbits + 8)
  {
    assert Pow2(8) == 256 && data[..i + 1] == data[..i] + [data[i]];
    TakeOne(5, 8, 256, data[..i], data[..i + 1], values, word, nbits, data[i]);
  }

  lemma ValuesAre(data: seq<byte>, values: seq<nat>)
    requires Fit(5, values) && Join(5, values) == Bytes(data) + Padding(Bytes(data))
    ensures values == Values(data)
  {
    GroupsOfJoin(5, values, []);
    assert Join(5, values) + [] == Join(5, values);
  }

  lemma NothingLeft(data: seq<byte>, values: seq<nat>, word: nat)
    requires Holding(5, Bytes(data), values, word, 0)
    ensures values == Values(data)
  {
    var all := Bytes(data);
    assert all[..5 * |values|] == all;
    assert |all| % 5 == 0;
    assert Join(5, values) == all + Padding(all);
    ValuesAre(data, values);
  }

  lemma {:induction false} ZerosAreBits(n: nat)
    ensures ToBits(0, n) == Zeros(n)
  {
    if n > 0 { ZerosAreBits(n - 1); }
  }

  // What is left, moved up to a whole symbol.
  lemma LastBits(word: nat, held: seq<bit>)
    requires 0 < |held| < 5 && word % Pow2(|held|) == FromBits(held)
    ensures word * Pow2(5 - |held|) % WORD % 32 < 32
    ensures ToBits(word * Pow2(5 - |held|) % WORD % 32, 5) == held + Zeros(5 - |held|)
  {
    assert Pow2(5) == 32;
    ZerosAreBits(5 - |held|);
    ZerosAre(5 - |held|);
    TakeBits(word, held, 5 - |held|, 0);
    ToFromBits(held + Zeros(5 - |held|));
  }

  lemma LastJoined(all: seq<bit>, values: seq<nat>, word: nat, nbits: nat)
    requires Holding(5, all, values, word, nbits) && 0 < nbits < 5
    ensures word * Pow2(5 - nbits) % WORD % 32 < 32
    ensures Join(5, values + [word * Pow2(5 - nbits) % WORD % 32]) == all + Zeros(5 - nbits)
  {
    LastBits(word, all[5 * |values|..]);
    JoinLast(5, all, values, 5 * |values|, word * Pow2(5 - nbits) % WORD % 32, Zeros(5 - nbits));
  }

  lemma JoinLast(w: nat, all: seq<bit>, values: seq<nat>, n: nat, v: nat, padding: seq<bit>)
    requires n <= |all|
    requires Join(w, values) == all[..n] && ToBits(v, w) == all[n..] + padding
    ensures Join(w, values + [v]) == all + padding
  {
    var done, held := all[..n], all[n..];
    JoinPush(w, values, v);
    assert all == done + held;
    Reassociate(done, held, padding);
  }

  lemma FitPush(values: seq<nat>, v: nat)
    requires Fit(5, values) && v < 32
    ensures Fit(5, values + [v])
  {
    assert Pow2(5) == 32;
  }

  lemma WriteLast(data: seq<byte>, values: seq<nat>, word: nat, nbits: nat)
    requires Holding(5, Bytes(data), values, word, nbits) && 0 < nbits < 5
    ensures word * Pow2(5 - nbits) % WORD % 32 < 32
    ensures values + [word * Pow2(5 - nbits) % WORD % 32] == Values(data)
  {
    LastJoined(Bytes(data), values, word, nbits);
    LeftOver(5 * |values|, nbits);
    LastValue(data, values, nbits, word * Pow2(5 - nbits) % WORD % 32);
  }

  lemma LastValue(data: seq<byte>, values: seq<nat>, nbits: nat, v: nat)
    requires nbits < 5 && Fit(5, values) && v < 32
    requires Join(5, values + [v]) == Bytes(data) + Zeros(5 - nbits)
    requires (5 - |Bytes(data)| % 5) % 5 == 5 - nbits
    ensures values + [v] == Values(data)
  {
    FitPush(values, v);
    ValuesAre(data, values + [v]);
  }

  lemma LeftOver(done: nat, nbits: nat)
    requires done % 5 == 0 && 0 < nbits < 5
    ensures (5 - (done + nbits) % 5) % 5 == 5 - nbits
  {}

  lemma SymbolsPush(values: seq<nat>, v: nat)
    requires Fit(5, values) && v < 32
    ensures Fit(5, values + [v]) && Symbols(values + [v]) == Symbols(values) + [Symbol(v)]
  {
    assert Pow2(5) == 32;
  }

  // Whole symbols are written while five bits are held.
  method WriteSymbols(start: string, word: nat, held: nat, ghost all: seq<bit>, ghost written: seq<nat>)
    returns (out: string, nbits: nat, ghost values: seq<nat>)
    requires held <= 12 && Holding(5, all, written, word, held) && start == Symbols(written)
    ensures nbits < 5 && Holding(5, all, values, word, nbits) && out == Symbols(values)
  {
    out, nbits, values := start, held, written;
    while nbits >= 5
      invariant nbits <= 12
      invariant Holding(5, all, values, word, nbits)
      invariant out == Symbols(values)
    {
      GiveSymbol(all, values, word, nbits);
      nbits := nbits - 5;
      var v: nat := word / Pow2(nbits) % 32;
      SymbolsPush(values, v);
      out := out + [Symbol(v)];
      values := values + [v];
    }
  }

  lemma GiveSymbol(all: seq<bit>, values: seq<nat>, word: nat, nbits: nat)
    requires Holding(5, all, values, word, nbits) && nbits >= 5
    ensures word / Pow2(nbits - 5) % 32 < 32
    ensures Holding(5, all, values + [word / Pow2(nbits - 5) % 32], word, nbits - 5)
  {
    assert Pow2(5) == 32;
    GiveOut(5, 32, all, values, word, nbits);
  }

  method Base32Lower(data: seq<byte>) returns (out: string)
    ensures out == Encode(data)
  {
    out := "";
    var word: nat, nbits: nat := 0, 0;
    ghost var values: seq<nat> := [];
    Nothing(5);
    for i := 0 to |data|
      invariant nbits < 5
      invariant Holding(5, Bytes(data[..i]), values, word, nbits)
      invariant out == Symbols(values)
    {
      TakeByte(data, i, values, word, nbits);
      word := word * 256 % WORD + data[i];
      nbits := nbits + 8;
      out, nbits, values := WriteSymbols(out, word, nbits, Bytes(data[..i + 1]), values);
    }
    assert data[..|data|] == data;
    ValuesFit(data);
    if nbits == 0 { NothingLeft(data, values, word); }
    if nbits > 0 {
      WriteLast(data, values, word, nbits);
      SymbolsPush(values, word * Pow2(5 - nbits) % WORD % 32);
      out := out + [Symbol(word * Pow2(5 - nbits) % WORD % 32)];
    }
  }

  // ---- The decoder ----

  predicate IsBase32(s: string) { forall i | 0 <= i < |s| :: Value(s[i]).Some? }

  function ValuesOf(s: string): seq<nat>
    requires IsBase32(s)
  {
    seq(|s|, i requires 0 <= i < |s| => Value(s[i]).value)
  }

  // What the decoder returns: the whole bytes of the bit string.
  function Decode(s: string): seq<nat>
    requires IsBase32(s)
  {
    Groups(8, Join(5, ValuesOf(s)))
  }

  lemma ValueFits(c: char)
    ensures Value(c).Some? ==> Value(c).value < 32
  {}

  // The bits of the first characters of a string.
  ghost function BitsOf(s: string, n: nat): seq<bit>
    requires n <= |s| && IsBase32(s[..n])
  {
    Join(5, ValuesOf(s[..n]))
  }

  lemma NextCharacter(s: string, i: nat)
    requires i < |s| && IsBase32(s[..i]) && Value(s[i]).Some?
    ensures IsBase32(s[..i + 1]) && ValuesOf(s[..i + 1]) == ValuesOf(s[..i]) + [Value(s[i]).value]
  {
    assert s[..i + 1] == s[..i] + [s[i]];
  }

  lemma TakeCharacter(s: string, i: nat, values: seq<nat>, word: nat, nbits: nat)
    requires i < |s| && IsBase32(s[..i]) && Value(s[i]).Some? && nbits < 8
    requires Holding(8, BitsOf(s, i), values, word, nbits)
    ensures IsBase32(s[..i + 1])
    ensures Holding(8, BitsOf(s, i + 1), values, word * 32 % WORD + Value(s[i]).value, nbits + 5)
  {
    assert Pow2(5) == 32;
    ValueFits(s[i]);
    NextCharacter(s, i);
    TakeOne(8, 5, 32, ValuesOf(s[..i]), ValuesOf(s[..i + 1]), values, word, nbits, Value(s[i]).value);
  }

  lemma GiveByte(all: seq<bit>, values: seq<nat>, word: nat, nbits: nat)
    requires Holding(8, all, values, word, nbits) && nbits >= 8
    ensures 0 <= word / Pow2(nbits - 8) % 256 < 256
    ensures Holding(8, all, values + [word / Pow2(nbits - 8) % 256], word, nbits - 8)
  {
    assert Pow2(8) == 256;
    GiveOut(8, 256, all, values, word, nbits);
  }

  // The whole bytes are out; fewer than eight bits are left over.
  lemma BytesRead(s: string, values: seq<nat>, word: nat, nbits: nat)
    requires IsBase32(s) && nbits < 8 && IsBase32(s[..|s|]) && Holding(8, BitsOf(s, |s|), values, word, nbits)
    ensures values == Decode(s)
  {
    assert s[..|s|] == s;
    var all := BitsOf(s, |s|);
    var rest := all[8 * |values|..];
    assert all == Join(8, values) + rest;
    GroupsOfJoin(8, values, rest);
  }

  // A byte is written once eight bits are held.
  method WriteByte(start: seq<nat>, word: nat, held: nat, ghost all: seq<bit>) returns (out: seq<nat>, nbits: nat)
    requires held <= 12 && Holding(8, all, start, word, held)
    ensures nbits < 8 && Holding(8, all, out, word, nbits)
  {
    out, nbits := start, held;
    if nbits >= 8 {
      GiveByte(all, out, word, nbits);
      nbits := nbits - 8;
      out := out + [word / Pow2(nbits) % 256];
    }
  }

  // The decoder's loop: five bits in for each character, a byte out as soon as eight are held. It gives up at the first
  // character that is not in the alphabet.
  method Base32Decode(s: string) returns (out: Option<seq<nat>>)
    ensures out.Some? <==> IsBase32(s)
    ensures out.Some? ==> out.value == Decode(s)
  {
    var bytes: seq<nat> := [];
    var word: nat, nbits: nat := 0, 0;
    Nothing(8);
    for i := 0 to |s|
      invariant nbits < 8 && IsBase32(s[..i])
      invariant Holding(8, BitsOf(s, i), bytes, word, nbits)
    {
      var v := Value(s[i]);
      if v.None? {
        return None;
      }
      TakeCharacter(s, i, bytes, word, nbits);
      word := word * 32 % WORD + v.value;
      nbits := nbits + 5;
      bytes, nbits := WriteByte(bytes, word, nbits, BitsOf(s, i + 1));
    }
    assert s[..|s|] == s;
    BytesRead(s, bytes, word, nbits);
    out := Some(bytes);
  }

  // The decoder gives back every byte string the encoder was given.
  lemma DecodeEncode(data: seq<byte>)
    ensures IsBase32(Encode(data)) && Decode(Encode(data)) == data
  {
    ValuesFit(data);
    assert Pow2(5) == 32 && Pow2(8) == 256;
    forall i | 0 <= i < |Encode(data)| ensures Value(Encode(data)[i]) == Some(Values(data)[i]) {
      ValueOfSymbol(Values(data)[i]);
    }
    assert ValuesOf(Encode(data)) == Values(data);
    PaddedLength(Bytes(data));
    GroupsOfJoin(8, data, Padding(Bytes(data)));
  }

  lemma EncodeLength(data: seq<byte>)
    ensures |Encode(data)| == (8 * |data| + 4) / 5
  {
    ValuesFit(data);
  }

  // ---- Onion addresses ----

  // base32(key, checksum, version) + ".onion"; `sha3` is SHA3-256.
  function OnionV3Host(sha3: seq<byte> -> seq<byte>, key: seq<byte>): Option<string>
    requires forall m :: |sha3(m)| == 32
  {
    if |key| != 32 then None
    else Some(Encode(key + sha3(ChecksumInput(key))[..2] + [3]) + ".onion")
  }

  // ".onion checksum", the key and the version.
  function ChecksumInput(key: seq<byte>): seq<byte> {
    [0x2e, 0x6f, 0x6e, 0x69, 0x6f, 0x6e, 0x20, 0x63, 0x68, 0x65, 0x63, 0x6b, 0x73, 0x75, 0x6d] + key + [3]
  }

  // Every onion host is 62 characters, and two keys never share one.
  lemma OnionHosts(sha3: seq<byte> -> seq<byte>, key: seq<byte>, other: seq<byte>)
    requires (forall m :: |sha3(m)| == 32) && |key| == 32 && |other| == 32
    ensures |OnionV3Host(sha3, key).value| == 62
    ensures OnionV3Host(sha3, key) == OnionV3Host(sha3, other) ==> key == other
  {
    var a, b := key + sha3(ChecksumInput(key))[..2] + [3], other + sha3(ChecksumInput(other))[..2] + [3];
    EncodeLength(a);
    EncodeLength(b);
    DecodeEncode(a);
    DecodeEncode(b);
    assert OnionV3Host(sha3, key).value[..56] == Encode(a) && OnionV3Host(sha3, other).value[..56] == Encode(b);
    assert a[..32] == key && b[..32] == other;
  }

  function Ascii(s: string): (r: seq<byte>)
    requires forall i | 0 <= i < |s| :: s[i] < 128 as char
    ensures |r| == |s| && forall i | 0 <= i < |s| :: r[i] == s[i] as int
  {
    if s == "" then [] else Ascii(s[..|s| - 1]) + [s[|s| - 1] as int]
  }

  lemma ChecksumText()
    ensures Ascii(".onion checksum")
         == [0x2e, 0x6f, 0x6e, 0x69, 0x6f, 0x6e, 0x20, 0x63, 0x68, 0x65, 0x63, 0x6b, 0x73, 0x75, 0x6d]
  {
    var text := ".onion checksum";
    assert text[0] == '.' && text[1] == 'o' && text[2] == 'n' && text[3] == 'i' && text[4] == 'o' && text[5] == 'n';
    assert text[6] == ' ' && text[7] == 'c' && text[8] == 'h' && text[9] == 'e' && text[10] == 'c' && text[11] == 'k';
    assert text[12] == 's' && text[13] == 'u' && text[14] == 'm';
  }

  // What a reader of the host decodes: the key, two bytes of checksum, and version 3. The checksum is over a fixed
  // text, the key and the version.
  lemma OnionHostReads(sha3: seq<byte> -> seq<byte>, key: seq<byte>)
    requires (forall m :: |sha3(m)| == 32) && |key| == 32
    ensures var host := OnionV3Host(sha3, key).value;
      && |host| == 62 && host[56..] == ".onion" && IsBase32(host[..56])
      && var read := Decode(host[..56]);
      && |read| == 35 && read[..32] == key && read[34] == 3
      && read[32..34] == sha3(Ascii(".onion checksum") + key + [3])[..2]
  {
    var data := key + sha3(ChecksumInput(key))[..2] + [3];
    EncodeLength(data);
    DecodeEncode(data);
    assert OnionV3Host(sha3, key).value[..56] == Encode(data);
    ChecksumText();
    assert ChecksumInput(key) == Ascii(".onion checksum") + key + [3];
    assert data[..32] == key && data[32..34] == sha3(ChecksumInput(key))[..2];
  }
}
