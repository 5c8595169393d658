// Bit strings, most significant bit first: numbers of a fixed width, and cutting a string into groups.
module Bits {
  import opened Prelude

  type bit = x: int | 0 <= x < 2

  // The last w bits of n.
  function ToBits(n: nat, w: nat): seq<bit> {
    if w == 0 then [] else ToBits(n / 2, w - 1) + [n % 2]
  }

  function FromBits(bits: seq<bit>): nat {
    if bits == [] then 0 else 2 * FromBits(bits[..|bits| - 1]) + bits[|bits| - 1]
  }

  lemma {:induction false} ToBitsLength(n: nat, w: nat)
    ensures |ToBits(n, w)| == w
  {
    if w > 0 { ToBitsLength(n / 2, w - 1); }
  }

  lemma {:induction false} FromToBits(n: nat, w: nat)
    requires n < Pow2(w)
    ensures |ToBits(n, w)| == w && FromBits(ToBits(n, w)) == n
  {
    if w > 0 {
      FromToBits(n / 2, w - 1);
      assert ToBits(n, w)[..w - 1] == ToBits(n / 2, w - 1);
    }
  }

  lemma {:induction false} ToFromBits(bits: seq<bit>)
    ensures FromBits(bits) < Pow2(|bits|) && ToBits(FromBits(bits), |bits|) == bits
  {
    if bits != [] {
      ToFromBits(bits[..|bits| - 1]);
      assert bits == bits[..|bits| - 1] + [bits[|bits| - 1]];
    }
  }

  lemma {:induction false} FromConcat(a: seq<bit>, b: seq<bit>)
    ensures FromBits(a + b) == FromBits(a) * Pow2(|b|) + FromBits(b)
  {
    if b == [] {
      assert a + b == a;
    } else {
      var front, last := b[..|b| - 1], b[|b| - 1];
      FromConcat(a, front);
      assert (a + b)[..|a + b| - 1] == a + front;
      assert FromBits(a + b) == 2 * FromBits(a + front) + last;
      Double(FromBits(a), Pow2(|front|));
    }
  }

  lemma Double(x: nat, p: nat)
    ensures x * (2 * p) == 2 * (x * p)
  {
  }

  // Numbers of w bits each, written one after another.
  function Join(w: nat, numbers: seq<nat>): seq<bit> {
    if numbers == [] then [] else ToBits(numbers[0], w) + Join(w, numbers[1..])
  }

  // The groups of w bits of a string, in order; what is left over is dropped.
  function Groups(w: nat, bits: seq<bit>): seq<nat>
    requires w > 0
    decreases |bits|
  {
    if |bits| < w then [] else [FromBits(bits[..w])] + Groups(w, bits[w..])
  }

  function Bytes(data: seq<byte>): seq<bit> { Join(8, data) }

  predicate Fit(w: nat, numbers: seq<nat>) { forall i | 0 <= i < |numbers| :: numbers[i] < Pow2(w) }

  lemma {:induction false} JoinLength(w: nat, numbers: seq<nat>)
    ensures |Join(w, numbers)| == w * |numbers|
  {
    if numbers != [] {
      JoinLength(w, numbers[1..]);
      ToBitsLength(numbers[0], w);
      Distribute(w, |numbers| - 1);
    }
  }

  lemma Distribute(w: nat, k: nat)
    ensures w * (k + 1) == w + w * k
  {}

  lemma {:induction false} JoinPush(w: nat, numbers: seq<nat>, x: nat)
    ensures Join(w, numbers + [x]) == Join(w, numbers) + ToBits(x, w)
  {
    if numbers == [] {
      assert numbers + [x] == [x] && [x][1..] == [];
    } else {
      JoinPush(w, numbers[1..], x);
      assert (numbers + [x])[1..] == numbers[1..] + [x];
    }
  }

  // One more whole group in front of the rest.
  lemma GroupsStep(w: nat, first: seq<bit>, rest: seq<bit>)
    requires w > 0 && |first| == w
    ensures Groups(w, first + rest) == [FromBits(first)] + Groups(w, rest)
  {
    assert (first + rest)[..w] == first && (first + rest)[w..] == rest;
  }

  // Cutting what was joined gives the numbers back, whatever shorter tail follows.
  lemma {:induction false} GroupsOfJoin(w: nat, numbers: seq<nat>, tail: seq<bit>)
    requires w > 0 && Fit(w, numbers) && |tail| < w
    ensures Groups(w, Join(w, numbers) + tail) == numbers
  {
    if numbers == [] {
      assert Join(w, numbers) + tail == tail;
    } else {
      var x, rest := numbers[0], numbers[1..];
      GroupsOfJoin(w, rest, tail);
      FromToBits(x, w);
      GroupsStep(w, ToBits(x, w), Join(w, rest) + tail);
      assert Join(w, numbers) + tail == ToBits(x, w) + (Join(w, rest) + tail);
    }
  }

  // Joining the k groups of a string of k * w bits gives the string back.
  lemma {:induction false} JoinOfGroups(w: nat, k: nat, bits: seq<bit>)
    requires w > 0 && |bits| == w * k
    ensures |Groups(w, bits)| == k && Fit(w, Groups(w, bits)) && Join(w, Groups(w, bits)) == bits
  {
    if k > 0 {
      Distribute(w, k - 1);
      var first, rest := bits[..w], bits[w..];
      JoinOfGroups(w, k - 1, rest);
      ToFromBits(first);
      assert bits == first + rest;
    }
  }
}
