/** Bytes, C strings and the fixed-width integers that the C++ code stores them in. */
module Bytes {
  type Byte = x: int | 0 <= x < 0x100
  type Word16 = x: int | 0 <= x < 0x1_0000
  type Word32 = x: int | 0 <= x < 0x1_0000_0000
  type Text = seq<Byte>

  datatype Option<+T> = None | Some(value: T)

  const DOT: Byte := 46
  const COLON: Byte := 58

  /** The bytes of a string literal. */
  function Ascii(s: string): (t: Text)
    requires forall i :: 0 <= i < |s| ==> 0 < s[i] as int < 0x80
    ensures |t| == |s| && 0 !in t && forall i :: 0 <= i < |s| ==> t[i] == s[i] as int
  {
    seq<Byte>(|s|, i requires 0 <= i < |s| && 0 < s[i] as int < 0x80 => s[i] as int)
  }

  // Division by a constant, written without the operators so that proofs stay linear.

  function High8(n: nat): (q: nat)
    ensures 0x100 * q <= n < 0x100 * q + 0x100
  {
    if n < 0x100 then 0 else 1 + High8(n - 0x100)
  }

  function High16(n: nat): (q: nat)
    ensures 0x1_0000 * q <= n < 0x1_0000 * q + 0x1_0000
  {
    if n < 0x1_0000 then 0 else 1 + High16(n - 0x1_0000)
  }

  /** Conversion to uint8. */
  function Low8(n: nat): Byte { n - 0x100 * High8(n) }

  /** Conversion to uint16. */
  function Low16(n: nat): Word16 { n - 0x1_0000 * High16(n) }

  /** n & 0x3FFF */
  function Low14(n: Word16): (r: nat)
    ensures r < 0x4000
  {
    if n < 0x4000 then n else if n < 0x8000 then n - 0x4000 else if n < 0xC000 then n - 0x8000 else n - 0xC000
  }

  lemma CastsAreRemainders(n: nat)
    ensures High8(n) == n / 0x100 && Low8(n) == n % 0x100
    ensures High16(n) == n / 0x1_0000 && Low16(n) == n % 0x1_0000
    ensures n < 0x1_0000 ==> Low14(n) == n % 0x4000
  {
  }

  /** Network byte order. */
  function Put16(v: Word16): Text { [High8(v), Low8(v)] }

  function Put32(v: Word32): Text { Put16(High16(v)) + Put16(Low16(v)) }

  function Get16(b: Text, i: nat): Word16
    requires i + 2 <= |b|
  {
    (b[i] as int) * 0x100 + b[i + 1] as int
  }

  function Get32(b: Text, i: nat): Word32
    requires i + 4 <= |b|
  {
    (Get16(b, i) as int) * 0x1_0000 + Get16(b, i + 2) as int
  }

  /** w has these bytes at pos. */
  ghost predicate Holds(w: Text, pos: nat, bytes: Text)
  {
    pos + |bytes| <= |w| && forall k :: 0 <= k < |bytes| ==> w[pos + k] == bytes[k]
  }

  /** Nothing has changed outside a range. */
  predicate SameOutside(was: Text, now: Text, lo: nat, hi: nat)
  {
    |was| == |now| && forall k :: 0 <= k < |was| && !(lo <= k < hi) ==> now[k] == was[k]
  }

  /** The index of the first NUL from i on, or the length. */
  function FirstNul(t: Text, i: nat): (n: nat)
    requires i <= |t|
    ensures i <= n <= |t|
    decreases |t| - i
  {
    if i < |t| && t[i] != 0 then FirstNul(t, i + 1) else i
  }

  /** What c_str() and strlen see of a string: the bytes before the first NUL. */
  function CString(t: Text): Text { t[..FirstNul(t, 0)] }

  lemma {:induction false} FirstNulIs(t: Text, i: nat)
    requires i <= |t|
    ensures 0 !in t[i..FirstNul(t, i)]
    ensures FirstNul(t, i) < |t| ==> t[FirstNul(t, i)] == 0
    decreases |t| - i
  {
    if i < |t| && t[i] != 0 {
      FirstNulIs(t, i + 1);
      assert t[i..FirstNul(t, i)] == [t[i]] + t[i + 1..FirstNul(t, i + 1)];
    }
  }

  /** A text without NUL is its own C string, and no C string holds a NUL. */
  lemma CStringWhole(t: Text)
    ensures 0 !in CString(t)
    ensures 0 !in t ==> CString(t) == t
  {
    FirstNulIs(t, 0);
    assert t[0..FirstNul(t, 0)] == CString(t);
    assert t[..|t|] == t;
  }

  /** isspace in the C locale. */
  predicate IsSpace(c: Byte) { c == 32 || 9 <= c <= 13 }

  lemma SmallMod(n: nat, m: nat)
    requires n < m
    ensures n % m == n && n / m == 0
  {
  }

  lemma Associate(a: Text, b: Text, c: Text)
    ensures a + (b + c) == (a + b) + c
  {
  }
}
