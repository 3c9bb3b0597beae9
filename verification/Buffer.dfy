/**
  The growable byte array of the mDNS code, refined to a byte sequence.

  data is the malloc block, length its usable size (one more byte is allocated for a NUL)
  and index the number of bytes in use. Bytes past index are whatever the allocator left.
 */
module VosBuffer {
  import opened Bytes
  import opened Numerals

  /** Growth step of the one-character appends. */
  const DFLT_SIZE := 15
  /** Room for digits in AppendInt and AppendUnsigned. */
  const DIGITS_SIZE := 23

  function TrimLeft(t: Text): Text
  {
    if t != [] && IsSpace(t[0]) then TrimLeft(t[1..]) else t
  }

  function TrimRight(t: Text): Text
  {
    if t != [] && IsSpace(t[|t| - 1]) then TrimRight(t[..|t| - 1]) else t
  }

  function Trimmed(t: Text): Text { TrimLeft(TrimRight(t)) }

  predicate Blank(t: Text) { forall i :: 0 <= i < |t| ==> t[i] == 32 || 9 <= t[i] <= 13 }

  /** No white space at either end. */
  predicate Tight(t: Text)
  {
    t != [] ==>
      && t[0] != 32 && !(9 <= t[0] <= 13)
      && t[|t| - 1] != 32 && !(9 <= t[|t| - 1] <= 13)
  }

  /** The text m with only white space around it. */
  predicate Surrounded(t: Text, a: Text, m: Text, b: Text) { t == a + m + b && Blank(a) && Blank(b) }

  /** Trimmed is the middle part that has no outer white space and only white space around it. */
  lemma {:induction false} TrimmedIsMaximal(t: Text)
    ensures Tight(Trimmed(t))
    ensures exists a, b :: Surrounded(t, a, Trimmed(t), b)
  {
    var r := TrimRight(t);
    TrimRightSplits(t);
    TrimLeftSplits(r);
    assert Surrounded(t, r[..|r| - |TrimLeft(r)|], Trimmed(t), t[|r|..]);
  }

  /** Only one part of a text can be the trimmed one, unless the text is all white space. */
  lemma {:induction false} TrimmedIsUnique(a: Text, m: Text, b: Text)
    requires Blank(a) && Blank(b) && Tight(m)
    ensures Trimmed(a + m + b) == m
  {
    if m == [] {
      assert a + m + b == a + b;
      BlankTrimsAway(a + b);
    } else {
      TrimRightDrops(a + m, b);
      assert TrimRight(a + m) == a + m by { assert (a + m)[|a + m| - 1] == m[|m| - 1]; }
      TrimLeftDrops(a, m);
    }
  }

  lemma TrimRightStep(t: Text, i: nat)
    requires i < |t| && IsSpace(t[i])
    ensures TrimRight(t[..i + 1]) == TrimRight(t[..i])
  {
    assert t[..i + 1][..i] == t[..i];
  }

  lemma TrimLeftStep(t: Text, x: nat)
    requires x < |t| && IsSpace(t[x])
    ensures TrimLeft(t[x..]) == TrimLeft(t[x + 1..])
  {
    assert t[x..][1..] == t[x + 1..];
  }

  lemma {:induction false} TrimRightSplits(t: Text)
    ensures TrimRight(t) <= t && Blank(t[|TrimRight(t)|..])
    ensures TrimRight(t) != [] ==> !IsSpace(TrimRight(t)[|TrimRight(t)| - 1])
  {
    if t != [] && IsSpace(t[|t| - 1]) {
      var u := t[..|t| - 1];
      TrimRightSplits(u);
      assert t[|TrimRight(u)|..] == u[|TrimRight(u)|..] + [t[|t| - 1]];
    }
  }

  lemma {:induction false} TrimLeftSplits(t: Text)
    ensures |TrimLeft(t)| <= |t| && t[|t| - |TrimLeft(t)|..] == TrimLeft(t)
    ensures Blank(t[..|t| - |TrimLeft(t)|])
    ensures TrimLeft(t) != [] ==> !IsSpace(TrimLeft(t)[0])
  {
    if t != [] && IsSpace(t[0]) {
      var u := t[1..];
      TrimLeftSplits(u);
      var n := |u| - |TrimLeft(u)|;
      assert t[..n + 1] == [t[0]] + u[..n];
      assert t[n + 1..] == u[n..];
    }
  }

  lemma {:induction false} TrimRightDrops(t: Text, b: Text)
    requires Blank(b)
    ensures TrimRight(t + b) == TrimRight(t)
    decreases |b|
  {
    if b == [] {
      assert t + b == t;
    } else {
      var u := t + b;
      assert u[|u| - 1] == b[|b| - 1] && b[|b| - 1] in b;
      assert u[..|u| - 1] == t + b[..|b| - 1];
      TrimRightDrops(t, b[..|b| - 1]);
    }
  }

  lemma {:induction false} TrimLeftDrops(a: Text, t: Text)
    requires Blank(a) && t != [] && !IsSpace(t[0])
    ensures TrimLeft(a + t) == t
  {
    if a == [] {
      assert a + t == t;
    } else {
      assert a[0] in a && (a + t)[1..] == a[1..] + t;
      TrimLeftDrops(a[1..], t);
    }
  }

  lemma {:induction false} BlankTrimsAway(t: Text)
    requires Blank(t)
    ensures TrimRight(t) == []
  {
    assert [] + t == t;
    TrimRightDrops([], t);
  }

  /** What AppendChar adds: a signed char below zero is ignored. */
  function AsciiOnly(t: Text): Text
  {
    if t == [] then [] else (if t[0] < 0x80 then [t[0]] else []) + AsciiOnly(t[1..])
  }

  /** The uncompressed wire form that AppendDnsLabel gives the rest t of a name after the bytes sub of a label. */
  function DnsWire(sub: Text, t: Text): Text
    decreases |t|
  {
    if t == [] then DnsPiece(sub) + [0]
    else if t[0] == DOT then DnsPiece(sub) + DnsWire([], t[1..])
    else DnsWire(sub + AsciiOnly([t[0]]), t[1..])
  }

  /** Bytes from 0x80 on do not reach the wire, and an empty label leaves nothing there. */
  lemma {:induction false} DnsWireDrops(sub: Text, a: Text, c: Byte, b: Text)
    requires c >= 0x80 || (c == DOT && (a == sub == [] || (a != [] && a[|a| - 1] == DOT)))
    ensures DnsWire(sub, a + ([c] + b)) == DnsWire(sub, a + b)
    decreases |a|
  {
    if a == [] {
      assert a + ([c] + b) == [c] + b && a + b == b;
      assert ([c] + b)[1..] == b && sub + [] == sub && [c][1..] == [];
      assert c >= 0x80 ==> AsciiOnly([c]) == [] + AsciiOnly([]) == [];
      assert [] + DnsWire(sub, b) == DnsWire(sub, b);
    } else {
      var rest := a[1..];
      assert (a + ([c] + b))[1..] == rest + ([c] + b) && (a + b)[1..] == rest + b;
      DnsWireDrops(if a[0] == DOT then [] else sub + AsciiOnly([a[0]]), rest, c, b);
    }
  }

  lemma DnsWireStep(out: Text, pending: Text, t: Text)
    requires t != []
    ensures out + DnsWire(pending, t)
         == if t[0] == DOT then (out + DnsPiece(pending)) + DnsWire([], t[1..])
            else out + DnsWire(pending + AsciiOnly([t[0]]), t[1..])
  {
    if t[0] == DOT {
      var p, r := DnsPiece(pending), DnsWire([], t[1..]);
      assert out + (p + r) == (out + p) + r;
    }
  }

  lemma DnsWireEnd(out: Text, pending: Text)
    ensures out + DnsWire(pending, []) == (out + DnsPiece(pending)) + [0]
  {
    assert out + (DnsPiece(pending) + [0]) == (out + DnsPiece(pending)) + [0];
  }

  function DnsPiece(sub: Text): Text
  {
    if sub == [] then [] else [|sub| % 0x100] + sub
  }

  lemma PowerOfSeven()
    ensures Power(7, 23) > ULONG_LIMIT
  {
    assert Power(7, 4) == 2401;
    assert Power(7, 8) == 5764801;
    assert Power(7, 12) == 13841287201;
    assert Power(7, 16) == 33232930569601;
    assert Power(7, 20) == 79792266297612001;
  }

  /** 23 digits are enough for 64 bits from base 7 on. */
  lemma DigitsFit(n: nat, base: int)
    requires 7 <= base <= 16 && n < ULONG_LIMIT
    ensures |Numeral(n, base)| <= DIGITS_SIZE
  {
    PowerOfSeven();
    PowerMonotone(7, base, 23);
    NumeralLength(n, base, 23);
  }

  lemma PowerOfSix()
    ensures Power(6, 23) < LONG_LIMIT
  {
    assert Power(6, 4) == 1296;
    assert Power(6, 8) == 1679616;
    assert Power(6, 12) == 2176782336;
    assert Power(6, 16) == 2821109907456;
    assert Power(6, 20) == 3656158440062976;
  }

  /** And only from base 7 on, for signed numbers too. */
  lemma DigitsFitExactly(base: int)
    requires 2 <= base <= 16
    ensures (forall n: nat :: n < ULONG_LIMIT ==> |Numeral(n, base)| <= DIGITS_SIZE) <==> base >= 7
    ensures (forall n: nat :: n < LONG_LIMIT ==> |Numeral(n, base)| <= DIGITS_SIZE) <==> base >= 7
  {
    if base >= 7 {
      forall n: nat | n < ULONG_LIMIT
        ensures |Numeral(n, base)| <= DIGITS_SIZE
      {
        DigitsFit(n, base);
      }
    } else {
      PowerOfSix();
      PowerMonotone(base, 6, 23);
      NumeralLength(LONG_LIMIT - 1, base, 23);
      assert |Numeral(LONG_LIMIT - 1, base)| > DIGITS_SIZE;
    }
  }

  lemma EmitStep(c: Text, out: Text, d: Byte, rest: Text)
    ensures out + ([d] + rest) == (out + [d]) + rest
    ensures c + (out + [d]) == (c + out) + [d]
    ensures d < 0x80 ==> AsciiOnly([d]) == [d]
  {
  }

  class Buffer {
    var index: int
    var length: int
    var data: array?<Byte>

    ghost predicate Valid()
      reads this, data
    {
      && 0 <= index <= length
      && (data == null ==> length == 0)
      && (data != null ==> data.Length == length + 1 && data[index] == 0)
    }

    /** The bytes in use: the value of the buffer. */
    ghost function Contents(): (t: Text)
      requires Valid()
      reads this, data
      ensures |t| == index
    {
      if data == null then [] else data[..index]
    }

    constructor (size: nat)
      ensures Valid() && Contents() == [] && (data == null || fresh(data))
      ensures length == size
    {
      index, length, data := 0, 0, null;
      new;
      var _ := Resize(size);
    }

    /** Grows the block to hold size bytes; never shrinks it. */
    method Resize(size: int) returns (status: int)
      requires Valid()
      modifies this, data
      ensures Valid() && Contents() == old(Contents())
      ensures length == (if old(length) < size then size else old(length))
      ensures if old(length) < size then fresh(data) && data != null else data == old(data)
      ensures status == 0
    {
      if length < size {
        var block := new Byte[size + 1];
        if data != null {
          forall i | 0 <= i < index { block[i] := data[i]; }
        }
        block[index] := 0;
        data := block;
        length := size;
      }
      status := 0;
    }

    /** Empties the buffer and keeps the block, filled with zero. */
    method Reset()
      requires Valid()
      modifies this, data
      ensures Valid() && Contents() == []
      ensures length == old(length) && data == old(data)
    {
      if index != 0 {
        index := 0;
        forall i | 0 <= i < length { data[i] := 0; }
      }
    }

    /** Removes leading and trailing white space. */
    method Trim()
      requires Valid() && data != null
      modifies this, data
      ensures Valid() && Contents() == Trimmed(old(Contents()))
      ensures length == old(length) && data == old(data)
    {
      index := LastNonSpace(data, index);
      var x := FirstNonSpace(data, index);
      ghost var t := data[..index + 1];
      if x > 0 && x <= index {
        index := index - x + 1;
        MoveBlock(data, x, 0, index);
        assert data[..index] == data[0..index] == t[x..];
      } else {
        index := index + 1;
        assert t[0..] == t;
      }
      EndWithNul(data, index);
    }

    static method EndWithNul(block: array<Byte>, n: nat)
      requires n < block.Length
      modifies block
      ensures block[..n] == old(block[..n]) && block[n] == 0
    {
      block[n] := 0;
    }

    /** The first loop of Trim: the last place before n that is no white space, or -1. */
    static method LastNonSpace(block: array<Byte>, n: nat) returns (i: int)
      requires n < block.Length
      ensures -1 <= i < n && (i >= 0 ==> !IsSpace(block[i]))
      ensures TrimRight(block[..n]) == block[..i + 1]
    {
      ghost var t := block[..n];
      assert t[..n] == t;
      i := n - 1;
      while i >= 0 && IsSpace(block[i])
        invariant -1 <= i < n
        invariant TrimRight(t[..i + 1]) == TrimRight(t)
      {
        TrimRightStep(t, i);
        i := i - 1;
      }
      assert t[..i + 1] == block[..i + 1];
      assert i >= 0 ==> t[..i + 1][i] == block[i];
    }

    /** The second loop of Trim: the first place up to last that is no white space. */
    static method FirstNonSpace(block: array<Byte>, last: int) returns (x: nat)
      requires -1 <= last < block.Length
      requires last >= 0 ==> !IsSpace(block[last])
      ensures last < 0 ==> x == 0
      ensures last >= 0 ==> x <= last
      ensures TrimLeft(block[..last + 1]) == block[..last + 1][x..]
    {
      ghost var r := block[..last + 1];
      assert r[0..] == r;
      x := 0;
      while x < last && IsSpace(block[x])
        invariant last < 0 ==> x == 0
        invariant last >= 0 ==> x <= last
        invariant TrimLeft(r[x..]) == TrimLeft(r)
      {
        TrimLeftStep(r, x);
        x := x + 1;
      }
      assert last >= 0 ==> r[x..][0] == r[x] == block[x];
    }

    /** memmove inside the block. */
    static method MoveBlock(block: array<Byte>, from: nat, to: nat, count: nat)
      requires from + count <= block.Length && to + count <= block.Length
      modifies block
      ensures block[to..to + count] == old(block[from..from + count])
      ensures block[..to] == old(block[..to]) && block[to + count..] == old(block[to + count..])
    {
      forall i | to <= i < to + count { block[i] := block[i - to + from]; }
    }

    /** memcpy into the block. */
    static method CopyIn(block: array<Byte>, to: nat, src: Text)
      requires to + |src| <= block.Length
      modifies block
      ensures forall i :: to <= i < to + |src| ==> block[i] == src[i - to]
      ensures forall i :: 0 <= i < to || to + |src| <= i < block.Length ==> block[i] == old(block[i])
    {
      forall i | to <= i < to + |src| { block[i] := src[i - to]; }
    }

    /** memset at the beginning of the block. */
    static method FillFront(block: array<Byte>, count: nat, kept: nat, c: Byte)
      requires count + kept <= block.Length
      modifies block
      ensures forall i :: 0 <= i < count ==> block[i] == c
      ensures block[count..count + kept] == old(block[count..count + kept])
    {
      forall i | 0 <= i < count { block[i] := c; }
    }

    /** Shifts the contents right by count bytes and fills the gap with c. */
    method ShiftRight(count: nat, c: Byte) returns (status: int)
      requires Valid() && (data != null || count > 0)
      modifies this, data
      ensures Valid() && |Contents()| == |old(Contents())| + count
      ensures Contents()[count..] == old(Contents())
      ensures forall i :: 0 <= i < count ==> Contents()[i] == c
      ensures data != null && (data == old(data) || fresh(data))
      ensures length == (if old(index) + count > old(length) then old(length) + count else old(length))
      ensures status == 0
    {
      ghost var t := Contents();
      if index + count > length {
        Realloc(length + count);
      }
      assert data[0..index] == t;
      MoveBlock(data, 0, count, index);
      FillFront(data, count, index, c);
      index := index + count;
      data[index] := 0;
      assert data[count..index] == t;
      status := 0;
    }

    /** realloc to a larger block, with no NUL written yet. */
    method Realloc(size: int)
      requires Valid() && size > length
      modifies this
      ensures data != null && fresh(data) && data.Length == size + 1
      ensures length == size && index == old(index) && data[..index] == old(Contents())
    {
      var block := new Byte[size + 1];
      if data != null {
        forall i | 0 <= i < index { block[i] := data[i]; }
      }
      data := block;
      length := size;
    }

    /** Appends one byte; a negative char is dropped. */
    method AppendChar(c: Byte) returns (status: int)
      requires Valid()
      modifies this, data
      ensures Valid() && Contents() == old(Contents()) + (if c < 0x80 then [c] else [])
      ensures data == old(data) || fresh(data)
      ensures status == 0
    {
      if c >= 0x80 {
        return 0;
      }
      status := AppendByte(c);
    }

    /** Appends one byte whatever its value. */
    method AppendByte(c: Byte) returns (status: int)
      requires Valid()
      modifies this, data
      ensures Valid() && Contents() == old(Contents()) + [c]
      ensures data != null && (data == old(data) || fresh(data))
      ensures length == (if old(index) + 1 > old(length) then old(length) + DFLT_SIZE else old(length))
      ensures status == 0
    {
      ghost var t := Contents();
      if index + 1 > length {
        Realloc(length + DFLT_SIZE);
      }
      data[index] := c;
      index := index + 1;
      data[index] := 0;
      assert data[..index] == t + [c];
      status := 0;
    }

    /** Appends len bytes of src, or all of the C string src when len is not positive. */
    method AppendRaw(src: Text, len: int) returns (count: int)
      requires Valid() && len <= |src|
      modifies this, data
      ensures Valid() && Contents() == old(Contents()) + RawPart(src, len)
      ensures data == old(data) || fresh(data)
      ensures count == |RawPart(src, len)|
    {
      var n := if len <= 0 then |CString(src)| else len;
      if n == 0 {
        return 0;
      }
      assert src[..n] == RawPart(src, len);
      var _ := Resize(index + n);
      Store(src[..n]);
      count := n;
    }

    /** Appends binary data. */
    method AppendBin(src: Text) returns (count: int)
      requires Valid()
      modifies this, data
      ensures Valid() && Contents() == old(Contents()) + src
      ensures data == old(data) || fresh(data)
      ensures count == |src|
    {
      if src == [] {
        return 0;
      }
      var _ := Resize(index + |src|);
      Store(src);
      count := |src|;
    }

    /** Copies src behind the contents, where there is room for it. */
    method Store(src: Text)
      requires Valid() && data != null && index + |src| <= length
      modifies this`index, data
      ensures Valid() && Contents() == old(Contents()) + src
    {
      ghost var t := Contents();
      CopyIn(data, index, src);
      index := index + |src|;
      data[index] := 0;
      assert data[..index] == t + src;
    }

    /** Puts len bytes of src, or all of the C string, before the contents. */
    method PrependRaw(src: Text, len: int) returns (count: int)
      requires Valid() && len <= |src|
      modifies this, data
      ensures Valid() && Contents() == RawPart(src, len) + old(Contents())
      ensures data == old(data) || fresh(data)
      ensures count == |RawPart(src, len)|
    {
      var n := if len <= 0 then |CString(src)| else len;
      if n == 0 {
        return 0;
      }
      ghost var t := Contents();
      var _ := ShiftRight(n, 0);
      ghost var c := Contents();
      CopyIn(data, 0, src[..n]);
      assert data[..index] == src[..n] + c[n..];
      count := n;
    }

    /**
      Appends the numeral of a long, digits collected backwards in a fixed array.
      The smallest long is outside: its negation overflows and no digit is produced.
      So is a number whose digits would leave the array, which takes a base below 7.
     */
    method AppendInt(i: int, base: int) returns (status: int)
      requires Valid() && -LONG_LIMIT < i < LONG_LIMIT
      requires 2 <= base <= 16 && |Numeral(if i < 0 then -i else i, base)| <= DIGITS_SIZE
      modifies this, data
      ensures Valid() && Contents() == old(Contents()) + SignedNumeral(i, base)
      ensures data == old(data) || fresh(data)
      ensures status == 0
    {
      var v := i;
      if v < 0 {
        status := AppendChar(45);
        assert AsciiOnly([45]) == [45];
        v := -v;
      }
      status := AppendDigits(v, base);
    }

    /** Appends the numeral of an unsigned long. */
    method AppendUnsigned(i: nat, base: int) returns (status: int)
      requires Valid() && i < ULONG_LIMIT
      requires 2 <= base <= 16 && |Numeral(i, base)| <= DIGITS_SIZE
      modifies this, data
      ensures Valid() && Contents() == old(Contents()) + Numeral(i, base)
      ensures data == old(data) || fresh(data)
      ensures status == 0
    {
      status := AppendDigits(i, base);
    }

    /** The loop of AppendInt and AppendUnsigned that emits the collected digits, last one first. */
    method AppendDigits(n: nat, base: int) returns (status: int)
      requires Valid() && 2 <= base <= 16 && |Numeral(n, base)| <= DIGITS_SIZE
      modifies this, data
      ensures Valid() && Contents() == old(Contents()) + Numeral(n, base)
      ensures data == old(data) || fresh(data)
      ensures status == 0
    {
      hide Numeral, Reversed;
      ghost var c := Contents();
      var digits, x := CollectDigits(n, base);
      ghost var out: Text := [];
      while x >= 0
        invariant -1 <= x < DIGITS_SIZE
        invariant Valid() && (data == old(data) || fresh(data)) && Contents() == c + out
        invariant Numeral(n, base) == out + Reversed(digits[..x + 1])
      {
        ReversedSnoc(digits[..x], digits[x]);
        assert digits[..x + 1] == digits[..x] + [digits[x]];
        EmitStep(c, out, digits[x], Reversed(digits[..x]));
        status := AppendChar(digits[x]);
        out := out + [digits[x]];
        x := x - 1;
      }
      status := 0;
    }

    /** The loop that collects digits backwards, and never leaves the array where the numeral fits it. */
    static method CollectDigits(n: nat, base: int) returns (digits: seq<Byte>, x: int)
      requires 2 <= base <= 16 && |Numeral(n, base)| <= DIGITS_SIZE
      ensures |digits| == DIGITS_SIZE && 0 <= x < DIGITS_SIZE
      ensures Numeral(n, base) == Reversed(digits[..x + 1])
      ensures forall k :: 0 <= k <= x ==> digits[k] < 0x80
    {
      hide Numeral, Reversed, ToCome;
      var rebmun := new Byte[DIGITS_SIZE];
      var i := n;
      x := 0;
      rebmun[0] := DigitChar(i % base);
      i := i / base;
      ghost var done := [rebmun[0]];
      CollectStart(n, base, n / base, n % base);
      while i != 0
        invariant i >= 0 && 0 <= x < DIGITS_SIZE && |done| == x + 1
        invariant forall k :: 0 <= k <= x ==> rebmun[k] == done[k] < 0x80
        invariant Numeral(n, base) == ToCome(i, base) + Reversed(done)
        decreases i
      {
        CollectStep(i, base, i / base, i % base, done);
        x := x + 1;
        rebmun[x] := DigitChar(i % base);
        done := done + [rebmun[x]];
        i := i / base;
      }
      NothingToCome(base, done);
      digits := rebmun[..];
      assert digits[..x + 1] == done;
    }

    /** Appends a dotted name in uncompressed wire form. */
    method AppendDnsLabel(name: Text, len: nat) returns (status: int)
      requires Valid()
      modifies this, data
      ensures Valid() && Contents() == old(Contents()) + DnsWire([], CString(name))
      ensures data == old(data) || fresh(data)
      ensures status == 0
    {
      ghost var c := Contents();
      var sub := new Buffer(DFLT_SIZE);
      if index + len + 1 > length {
        var _ := Resize(index + len + 1);
      }
      var text := CString(name);
      var k := 0;
      ghost var out, pending: Text := c, [];
      assert text[0..] == text;
      while k < |text|
        invariant k <= |text|
        invariant Valid() && Contents() == out && (data == old(data) || fresh(data))
        invariant sub.Valid() && sub.Contents() == pending && sub.data != null && fresh(sub) && fresh(sub.data)
        invariant sub != this && sub.data != data
        invariant c + DnsWire([], text) == out + DnsWire(pending, text[k..])
      {
        DnsWireStep(out, pending, text[k..]);
        assert text[k..][1..] == text[k + 1..];
        AppendDnsChar(sub, text[k]);
        if text[k] == DOT {
          out, pending := out + DnsPiece(pending), [];
        } else {
          pending := pending + AsciiOnly([text[k]]);
        }
        k := k + 1;
      }
      DnsWireEnd(out, pending);
      assert text[k..] == [];
      AppendPiece(sub.data[..sub.index]);
      status := AppendByte(0);
    }

    /** One round of AppendDnsLabel: a dot flushes the pending label, any other character joins it. */
    method AppendDnsChar(sub: Buffer, c: Byte)
      requires Valid() && sub.Valid() && sub != this && sub.data != null && sub.data != data
      modifies this, data, sub, sub.data
      ensures Valid() && sub.Valid() && sub.data != null && sub.data != data
      ensures data == old(data) || fresh(data)
      ensures sub.data == old(sub.data) || fresh(sub.data)
      ensures Contents() == if c == DOT then old(Contents()) + DnsPiece(old(sub.Contents())) else old(Contents())
      ensures sub.Contents() == if c == DOT then [] else old(sub.Contents()) + AsciiOnly([c])
    {
      if c == DOT {
        AppendPiece(sub.data[..sub.index]);
        sub.Reset();
      } else {
        var _ := sub.AppendChar(c);
      }
    }

    /** Appends the length byte and the bytes of a pending label, if there is one. */
    method AppendPiece(piece: Text)
      requires Valid()
      modifies this, data
      ensures Valid() && Contents() == old(Contents()) + DnsPiece(piece)
      ensures data == old(data) || fresh(data)
    {
      if piece != [] {
        ghost var c := Contents();
        var _ := AppendBin([|piece| % 0x100]);
        assert RawPart(piece, |piece|) == piece;
        var _ := AppendRaw(piece, |piece|);
        assert c + [|piece| % 0x100] + piece == c + DnsPiece(piece);
      }
    }

    /** Drops the last byte. */
    method DeleteEnd() returns (status: int)
      requires Valid() && index > 0
      modifies this, data
      ensures Valid() && Contents() == old(Contents())[..old(index) - 1]
      ensures length == old(length) && data == old(data)
      ensures status == 0
    {
      index := index - 1;
      data[index] := 0;
      status := 0;
    }

    /** Overwrites one byte in place. */
    method Replace(i: int, c: Byte)
      requires Valid() && 0 <= i < index
      modifies data
      ensures Valid() && Contents() == old(Contents())[i := c]
    {
      data[i] := c;
    }
  }

  /** The bytes that a raw append with this length copies. */
  function RawPart(src: Text, len: int): Text
    requires len <= |src|
  {
    if len <= 0 then CString(src) else src[..len]
  }
}
