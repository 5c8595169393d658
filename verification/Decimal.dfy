// Decimal text: what Rust's `{}` and `{:0w}` print for an unsigned integer, and what `parse::<u16>` reads back.
module Decimal {
  import opened Prelude

  function Digit(d: nat): char
    requires d < 10
  {
    (d + '0' as int) as char
  }

  function DigitValue(c: char): Option<nat> {
    if '0' <= c <= '9' then Some(c as int - '0' as int) else None
  }

  // No leading zeros; "0" for zero.
  function Show(n: nat): string {
    if n < 10 then [Digit(n)] else Show(n / 10) + [Digit(n % 10)]
  }

  // At least w characters, filled with zeros on the left.
  function Pad(n: nat, w: nat): string
    decreases w, n
  {
    if w == 0 then (if n == 0 then "" else Show(n)) else Pad(n / 10, w - 1) + [Digit(n % 10)]
  }

  // The number a run of digits stands for, if it is one.
  function Read(s: string): Option<nat> {
    if s == [] then None
    else
      match DigitValue(s[|s| - 1])
      case None => None
      case Some(d) =>
        if |s| == 1 then Some(d)
        else
          match Read(s[..|s| - 1])
          case None => None
          case Some(n) => Some(10 * n + d)
  }

  // `str::parse::<u16>`: an optional '+', then digits, and no more than 65535.
  function ReadU16(s: string): Option<nat> {
    match Read(if s != [] && s[0] == '+' then s[1..] else s)
    case None => None
    case Some(n) => if n < 0x1_0000 then Some(n) else None
  }

  lemma {:induction false} ShowIsDigits(n: nat)
    ensures Show(n) != []
    ensures forall c | c in Show(n) :: '0' <= c <= '9'
  {
    if n >= 10 {
      ShowIsDigits(n / 10);
    }
  }

  lemma {:induction false} ReadShow(n: nat)
    ensures Read(Show(n)) == Some(n)
  {
    if n >= 10 {
      ReadShow(n / 10);
      assert Show(n)[..|Show(n)| - 1] == Show(n / 10);
      ShowIsDigits(n / 10);
    }
  }

  lemma ReadU16Show(n: nat)
    requires n < 0x1_0000
    ensures ReadU16(Show(n)) == Some(n)
  {
    ReadShow(n);
    ShowIsDigits(n);
    assert Show(n)[0] in Show(n);
  }

  function Pow10(w: nat): nat {
    if w == 0 then 1 else 10 * Pow10(w - 1)
  }

  lemma {:induction false} PadLength(n: nat, w: nat)
    ensures |Pad(n, w)| >= w
    ensures |Pad(n, w)| == w <==> n < Pow10(w)
  {
    if w > 0 {
      PadLength(n / 10, w - 1);
    } else {
      ShowIsDigits(n);
    }
  }

  // Reading a number filled to w digits gives it back.
  lemma {:induction false} ReadPad(n: nat, w: nat)
    requires w > 0 && n < Pow10(w)
    ensures Read(Pad(n, w)) == Some(n)
  {
    if w > 1 {
      ReadPad(n / 10, w - 1);
      PadLength(n / 10, w - 1);
      assert Pad(n, w)[..|Pad(n, w)| - 1] == Pad(n / 10, w - 1);
    } else {
      assert Pad(n / 10, 0) == "";
    }
  }

  lemma {:induction false} PadIsDigits(n: nat, w: nat)
    ensures forall c | c in Pad(n, w) :: '0' <= c <= '9'
  {
    if w > 0 { PadIsDigits(n / 10, w - 1); } else { ShowIsDigits(n); }
  }
}
