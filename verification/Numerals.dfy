/** Positional numerals: the text a printer produces and the number a reader sees in it. */
module Numerals {
  import opened Bytes

  function DigitChar(d: int): Byte
    requires 0 <= d < 16
  {
    if d < 10 then 48 + d else 55 + d
  }

  predicate IsDigit(c: Byte, base: int)
  {
    (48 <= c < 58 && c - 48 < base) || (65 <= c < 71 && c - 55 < base)
  }

  function DigitValue(c: Byte): int { if c < 65 then c - 48 else c - 55 }

  function Value(t: Text, base: int): int
  {
    if t == [] then 0 else Value(t[..|t| - 1], base) * base + DigitValue(t[|t| - 1])
  }

  predicate IsNumeral(t: Text, base: int)
  {
    t != [] && forall c :: c in t ==> IsDigit(c, base)
  }

  /** Most significant digit first, no leading zero. */
  function Numeral(n: nat, base: int): Text
    requires 2 <= base <= 16
    decreases n
  {
    if n < base then [DigitChar(n)] else Numeral(n / base, base) + [DigitChar(n % base)]
  }

  lemma ValueSnoc(t: Text, q: nat, r: nat, base: int)
    requires IsNumeral(t, base) && Value(t, base) == q && 2 <= base <= 16 && r < base
    ensures IsNumeral(t + [DigitChar(r)], base) && Value(t + [DigitChar(r)], base) == q * base + r
  {
    var u := t + [DigitChar(r)];
    assert u[..|u| - 1] == t && u[|u| - 1] == DigitChar(r);
  }

  /** Reading a numeral back gives the number that was printed. */
  lemma {:induction false} NumeralRoundTrip(n: nat, base: int)
    requires 2 <= base <= 16
    ensures IsNumeral(Numeral(n, base), base)
    ensures Value(Numeral(n, base), base) == n
    decreases n
  {
    var t := Numeral(n, base);
    if n < base {
      assert t[..0] == [];
      assert Value(t[..0], base) == 0;
    } else {
      QuotientSmaller(n, base);
      NumeralRoundTrip(n / base, base);
      QuotientRemainder(n, base);
      ValueSnoc(Numeral(n / base, base), n / base, n % base, base);
    }
  }

  lemma QuotientRemainder(n: nat, base: int)
    requires base > 0
    ensures n / base * base + n % base == n && n / base >= 0 && 0 <= n % base < base
  {
  }

  lemma QuotientSmaller(n: nat, base: int)
    requires base >= 2 && n > 0
    ensures 0 <= n / base < n
  {
    QuotientRemainder(n, base);
  }

  function Power(base: nat, k: nat): nat
  {
    if k == 0 then 1 else base * Power(base, k - 1)
  }

  /** A numeral has at most k digits exactly when the number is below the k-th power of the base. */
  lemma {:induction false} NumeralLength(n: nat, base: int, k: nat)
    requires 2 <= base <= 16 && k > 0
    ensures |Numeral(n, base)| <= k <==> n < Power(base, k)
    decreases n
  {
    if n < base {
      PowerAtLeastBase(base, k);
    } else if k == 1 {
      assert Power(base, 1) == base * Power(base, 0);
      assert |Numeral(n, base)| == |Numeral(n / base, base)| + 1 >= 2;
    } else {
      QuotientSmaller(n, base);
      NumeralLength(n / base, base, k - 1);
      QuotientBelow(n, base, Power(base, k - 1));
    }
  }

  lemma {:induction false} PowerAtLeastBase(base: nat, k: nat)
    requires base >= 2 && k > 0
    ensures Power(base, k) >= base
  {
    if k > 1 {
      PowerAtLeastBase(base, k - 1);
      assert base * Power(base, k - 1) >= 1 * Power(base, k - 1);
    }
  }

  lemma QuotientBelow(n: nat, base: nat, m: nat)
    requires base > 0
    ensures n / base < m <==> n < base * m
  {
    if n / base < m {
      assert base * (n / base + 1) <= base * m;
    } else {
      assert base * (n / base) >= base * m;
    }
  }

  lemma {:induction false} PowerMonotone(a: nat, b: nat, k: nat)
    requires a <= b
    ensures Power(a, k) <= Power(b, k)
  {
    if k > 0 {
      PowerMonotone(a, b, k - 1);
      ProductMonotone(a, b, Power(a, k - 1), Power(b, k - 1));
    }
  }

  lemma ProductMonotone(a: nat, b: nat, p: nat, q: nat)
    requires a <= b && p <= q
    ensures a * p <= b * q
  {
    assert a * p <= b * p;
    assert b * p <= b * q;
  }

  function Reversed(t: Text): (r: Text)
    ensures |r| == |t| && forall i :: 0 <= i < |t| ==> r[i] == t[|t| - 1 - i]
  {
    if t == [] then [] else Reversed(t[1..]) + [t[0]]
  }

  /** Appending to a text puts the new byte in front of its reversal. */
  lemma ReversedSnoc(t: Text, c: Byte)
    ensures Reversed(t + [c]) == [c] + Reversed(t)
  {
    assert forall i :: 0 <= i < |t| + 1 ==> Reversed(t + [c])[i] == ([c] + Reversed(t))[i];
  }

  // Digits are collected from the last to the first: what is still to come, then the reversal of what is there.

  function ToCome(i: nat, base: int): Text
    requires 2 <= base <= 16
  {
    if i == 0 then [] else Numeral(i, base)
  }

  lemma NothingToCome(base: int, done: Text)
    requires 2 <= base <= 16
    ensures ToCome(0, base) + Reversed(done) == Reversed(done)
  {
    assert [] + Reversed(done) == Reversed(done);
  }

  lemma LastDigit(i: nat, base: int, q: nat, r: nat)
    requires 2 <= base <= 16 && q == i / base && r == i % base
    ensures r < base && (i > 0 ==> q < i)
    ensures Numeral(i, base) == ToCome(q, base) + [DigitChar(r)]
  {
    hide Numeral;
    QuotientRemainder(i, base);
    if i < base {
      SmallNumber(i, base);
    } else {
      QuotientPositive(i, base);
      QuotientSmaller(i, base);
      LongNumber(i, base);
    }
  }

  lemma SmallNumber(i: nat, base: int)
    requires 2 <= base <= 16 && i < base
    ensures i / base == 0 && i % base == i && Numeral(i, base) == [] + [DigitChar(i)]
  {
  }

  lemma LongNumber(i: nat, base: int)
    requires 2 <= base <= 16 && i >= base && i / base >= 0 && 0 <= i % base < base
    ensures Numeral(i, base) == Numeral(i / base, base) + [DigitChar(i % base)]
  {
  }

  lemma QuotientPositive(i: nat, base: int)
    requires base > 0 && i >= base
    ensures i / base > 0
  {
  }

  lemma CollectStart(n: nat, base: int, q: nat, r: nat)
    requires 2 <= base <= 16 && q == n / base && r == n % base
    ensures r < base && Numeral(n, base) == ToCome(q, base) + Reversed([DigitChar(r)])
  {
    LastDigit(n, base, q, r);
    assert Reversed([DigitChar(r)]) == [DigitChar(r)];
  }

  lemma CollectStep(i: nat, base: int, q: nat, r: nat, done: Text)
    requires 2 <= base <= 16 && i > 0 && q == i / base && r == i % base
    ensures r < base && q < i
    ensures |ToCome(i, base) + Reversed(done)| >= |done| + 1
    ensures ToCome(i, base) + Reversed(done) == ToCome(q, base) + Reversed(done + [DigitChar(r)])
  {
    LastDigit(i, base, q, r);
    PutInFront(ToCome(q, base), DigitChar(r), done);
  }

  lemma PutInFront(head: Text, d: Byte, done: Text)
    ensures (head + [d]) + Reversed(done) == head + Reversed(done + [d])
  {
    ReversedSnoc(done, d);
    Associate(head, [d], Reversed(done));
  }

  const LONG_LIMIT := 0x8000_0000_0000_0000
  const ULONG_LIMIT := 0x1_0000_0000_0000_0000

  const MINUS: Byte := 45

  function SignedNumeral(i: int, base: int): Text
    requires 2 <= base <= 16
  {
    if i < 0 then [MINUS] + Numeral(-i, base) else Numeral(i, base)
  }

  function SignedValue(t: Text, base: int): int
  {
    if t != [] && t[0] == MINUS then -Value(t[1..], base) else Value(t, base)
  }

  /** A signed numeral reads back as the number it was printed from. */
  lemma SignedRoundTrip(i: int, base: int)
    requires 2 <= base <= 16
    ensures SignedValue(SignedNumeral(i, base), base) == i
  {
    NumeralRoundTrip(if i < 0 then -i else i, base);
    if i < 0 {
      assert SignedNumeral(i, base)[1..] == Numeral(-i, base);
    } else {
      assert Numeral(i, base)[0] in Numeral(i, base);
    }
  }
}
