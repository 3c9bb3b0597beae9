/** Formatting of numbers into the fixed buffer of a log line. */
module LogStreams {
  import opened Bytes
  import opened Numerals

  /** The room that is checked for before a number is written. */
  const MAX_NUMERIC_SIZE := 32

  /** Digits by signed remainder, the one for 0 in the middle. */
  const DIGITS: Text := [57, 56, 55, 54, 53, 52, 51, 50, 49, 48, 49, 50, 51, 52, 53, 54, 55, 56, 57]
  const ZERO := 9

  const DIGITS_HEX: Text := [48, 49, 50, 51, 52, 53, 54, 55, 56, 57, 65, 66, 67, 68, 69, 70]

  function Abs(i: int): nat { if i < 0 then -i else i }

  // C++ division truncates toward zero, and the remainder has the sign of the dividend.

  function Quotient(i: int, d: int): int
    requires d > 0
  {
    if i < 0 then -((-i) / d) else i / d
  }

  function Remainder(i: int, d: int): int
    requires d > 0
  {
    if i < 0 then -((-i) % d) else i % d
  }

  /** So the table gives the digit of a negative number without negating it, which the least value would not survive. */
  lemma TableDigit(i: int)
    ensures -10 < Remainder(i, 10) < 10
    ensures DIGITS[ZERO + Remainder(i, 10)] == DigitChar(Abs(i) % 10)
    ensures Abs(Quotient(i, 10)) == Abs(i) / 10
    ensures Quotient(i, 10) == 0 <==> Abs(i) / 10 == 0
    ensures (i < 0 ==> Quotient(i, 10) <= 0) && (i >= 0 ==> Quotient(i, 10) >= 0)
  {
    QuotientRemainder(Abs(i), 10);
  }

  lemma HexDigit(i: nat)
    ensures 0 <= i % 16 < 16 && DIGITS_HEX[i % 16] == DigitChar(i % 16) == Ascii("0123456789ABCDEF")[i % 16]
  {
    QuotientRemainder(i, 16);
  }

  lemma DecimalFits(n: nat)
    requires n < ULONG_LIMIT
    ensures |Numeral(n, 10)| <= 20
    ensures n <= LONG_LIMIT ==> |Numeral(n, 10)| <= 19
  {
    PowersOfTen();
    NumeralLength(n, 10, 20);
    NumeralLength(n, 10, 19);
  }

  lemma PowersOfTen()
    ensures Power(10, 19) == 10_000_000_000_000_000_000
    ensures Power(10, 20) == 100_000_000_000_000_000_000
  {
    assert Power(10, 4) == 10_000;
    assert Power(10, 8) == 100_000_000;
    assert Power(10, 12) == 1_000_000_000_000;
    assert Power(10, 16) == 10_000_000_000_000_000;
  }

  lemma HexFits(n: nat)
    requires n < ULONG_LIMIT
    ensures |Numeral(n, 16)| <= 16
  {
    assert Power(16, 4) == 0x1_0000;
    assert Power(16, 8) == 0x100_000_000;
    assert Power(16, 12) == 0x1_000_000_000_000;
    assert Power(16, 16) == 0x10_000_000_000_000_000;
    NumeralLength(n, 16, 16);
  }

  /** Writes the decimal digits of a value, the last one first. */
  method ConvertDigits(buf: array<Byte>, at: nat, value: int) returns (p: nat)
    requires Abs(value) < ULONG_LIMIT && at + |Numeral(Abs(value), 10)| <= buf.Length
    modifies buf
    ensures p == at + |Numeral(Abs(value), 10)|
    ensures Reversed(buf[at..p]) == Numeral(Abs(value), 10)
    ensures SameOutside(old(buf[..]), buf[..], at, p)
  {
    TableDigit(value);
    CollectStart(Abs(value), 10, Abs(value) / 10, Abs(value) % 10);
    buf[at] := DIGITS[ZERO + Remainder(value, 10)];
    var i := Quotient(value, 10);
    p := at + 1;
    ghost var done := [buf[at]];
    while i != 0
      invariant at <= p == at + |done| <= buf.Length && buf[at..p] == done
      invariant Abs(i) < ULONG_LIMIT
      invariant Numeral(Abs(value), 10) == ToCome(Abs(i), 10) + Reversed(done)
      invariant SameOutside(old(buf[..]), buf[..], at, p)
      decreases Abs(i)
    {
      TableDigit(i);
      CollectStep(Abs(i), 10, Abs(i) / 10, Abs(i) % 10, done);
      buf[p] := DIGITS[ZERO + Remainder(i, 10)];
      done := done + [buf[p]];
      i := Quotient(i, 10);
      p := p + 1;
    }
    assert [] + Reversed(done) == Reversed(done);
  }

  /** Reversed but for the middle, from i to j. */
  predicate HalfReversed(was: Text, now: Text, i: nat, j: nat)
  {
    && |was| == |now| == i + j && i <= j + 1
    && forall k {:trigger now[k]} :: 0 <= k < |now| ==> now[k] == if i <= k < j then was[k] else was[|was| - 1 - k]
  }

  lemma SwapStep(was: Text, now: Text, i: nat, j: nat)
    requires HalfReversed(was, now, i, j) && i < j
    ensures HalfReversed(was, now[i := now[j - 1]][j - 1 := now[i]], i + 1, j - 1)
  {
  }

  lemma SwapsDone(was: Text, now: Text, i: nat, j: nat)
    requires HalfReversed(was, now, i, j) && i >= j
    ensures now == Reversed(was)
  {
  }

  /** std::reverse */
  method Reverse(buf: array<Byte>, first: nat, last: nat)
    requires first <= last <= buf.Length
    modifies buf
    ensures buf[first..last] == Reversed(old(buf[first..last]))
    ensures SameOutside(old(buf[..]), buf[..], first, last)
  {
    var i, j := first, last;
    ghost var was := buf[first..last];
    while i < j
      invariant first <= i && first <= j <= last && i + j == first + last
      invariant HalfReversed(was, buf[first..last], i - first, j - first)
      invariant SameOutside(old(buf[..]), buf[..], first, last)
    {
      ghost var now := buf[first..last];
      SwapStep(was, now, i - first, j - first);
      j := j - 1;
      Swap(buf, first, last, i, j);
      i := i + 1;
    }
    SwapsDone(was, buf[first..last], i - first, j - first);
  }

  method Swap(buf: array<Byte>, first: nat, last: nat, i: nat, j: nat)
    requires first <= i <= j < last <= buf.Length
    modifies buf
    ensures var was := old(buf[first..last]);
            buf[first..last] == was[i - first := was[j - first]][j - first := was[i - first]]
    ensures SameOutside(old(buf[..]), buf[..], first, last)
  {
    buf[i], buf[j] := buf[j], buf[i];
  }

  method AppendMinus(buf: array<Byte>, at: nat, p: nat)
    requires at <= p < buf.Length
    modifies buf
    ensures Reversed(buf[at..p + 1]) == [MINUS] + Reversed(old(buf[at..p]))
    ensures SameOutside(old(buf[..]), buf[..], p, p + 1)
  {
    ghost var done := buf[at..p];
    buf[p] := MINUS;
    ReversedSnoc(done, MINUS);
    assert buf[at..p + 1] == done + [MINUS];
  }

  /** Ends a text with a NUL and turns it around. */
  method Finish(buf: array<Byte>, at: nat, p: nat)
    requires at <= p < buf.Length
    modifies buf
    ensures buf[at..p] == Reversed(old(buf[at..p])) && buf[p] == 0
    ensures SameOutside(old(buf[..]), buf[..], at, p + 1)
  {
    ghost var all := buf[at..p];
    buf[p] := 0;
    assert buf[at..p] == all;
    Reverse(buf, at, p);
    assert buf[..][p] == 0;
  }

  /** Writes the numeral of a value and a NUL behind it, and returns its length. */
  method Convert(buf: array<Byte>, at: nat, value: int) returns (len: nat)
    requires -LONG_LIMIT <= value < ULONG_LIMIT && at + MAX_NUMERIC_SIZE <= buf.Length
    modifies buf
    ensures len == |SignedNumeral(value, 10)| <= 20
    ensures buf[at..at + len] == SignedNumeral(value, 10) && buf[at + len] == 0
    ensures SameOutside(old(buf[..]), buf[..], at, at + len + 1)
  {
    DecimalFits(Abs(value));
    var p := ConvertDigits(buf, at, value);
    if value < 0 {
      AppendMinus(buf, at, p);
      p := p + 1;
    }
    Finish(buf, at, p);
    len := p - at;
  }

  method ConvertHex(buf: array<Byte>, at: nat, value: nat) returns (len: nat)
    requires value < ULONG_LIMIT && at + MAX_NUMERIC_SIZE - 2 <= buf.Length
    modifies buf
    ensures len == |Numeral(value, 16)| <= 16
    ensures buf[at..at + len] == Numeral(value, 16) && buf[at + len] == 0
    ensures SameOutside(old(buf[..]), buf[..], at, at + len + 1)
  {
    HexFits(value);
    var p := ConvertHexDigits(buf, at, value);
    Finish(buf, at, p);
    len := p - at;
  }

  method ConvertHexDigits(buf: array<Byte>, at: nat, value: nat) returns (p: nat)
    requires at + |Numeral(value, 16)| <= buf.Length
    modifies buf
    ensures p == at + |Numeral(value, 16)|
    ensures Reversed(buf[at..p]) == Numeral(value, 16)
    ensures SameOutside(old(buf[..]), buf[..], at, p)
  {
    HexDigit(value);
    CollectStart(value, 16, value / 16, value % 16);
    buf[at] := DIGITS_HEX[value % 16];
    var i := value / 16;
    p := at + 1;
    ghost var done := [buf[at]];
    while i != 0
      invariant i >= 0 && at <= p == at + |done| <= buf.Length && buf[at..p] == done
      invariant Numeral(value, 16) == ToCome(i, 16) + Reversed(done)
      invariant SameOutside(old(buf[..]), buf[..], at, p)
      decreases i
    {
      HexDigit(i);
      CollectStep(i, 16, i / 16, i % 16, done);
      buf[p] := DIGITS_HEX[i % 16];
      done := done + [buf[p]];
      i := i / 16;
      p := p + 1;
    }
    assert [] + Reversed(done) == Reversed(done);
  }

  // ---------------------------------------------------------------- the buffer

  /** A buffer of fixed size; its last byte stays free for a NUL. */
  class FixedBuffer {
    const data: array<Byte>
    var cur: nat

    ghost predicate Valid()
      reads this
    {
      cur < data.Length
    }

    function Contents(): (t: Text)
      requires Valid()
      reads this, data
      ensures |t| == cur
    {
      data[..cur]
    }

    constructor (size: nat)
      requires size > 0
      ensures Valid() && fresh(data) && data.Length == size && Contents() == []
    {
      data := new Byte[size](i => 0);
      cur := 0;
    }

    function Avail(): (n: nat)
      requires Valid()
      reads this
      ensures n > 0
    {
      data.Length - cur
    }

    /** Appends all of a text, or nothing of it. */
    method Append(buf: Text)
      requires Valid()
      modifies this, data
      ensures Valid()
      ensures Contents() == old(Contents()) + if |buf| < old(Avail()) then buf else []
    {
      if Avail() > |buf| {
        CopyIn(buf);
        cur := cur + |buf|;
      }
    }

    /** memcpy to the current position. */
    method CopyIn(buf: Text)
      requires Valid() && |buf| < Avail()
      modifies data
      ensures data[..cur] == old(data[..cur]) && data[cur..cur + |buf|] == buf
    {
      for k := 0 to |buf|
        invariant data[..cur] == old(data[..cur])
        invariant data[cur..cur + k] == buf[..k]
      {
        data[cur + k] := buf[k];
        assert data[cur..cur + k + 1] == data[cur..cur + k] + [buf[k]];
      }
    }

    /** Takes in bytes that were written behind the current position. */
    method Add(len: nat)
      requires Valid() && len < Avail()
      modifies this`cur
      ensures Valid() && data[..] == old(data[..]) && cur == old(cur) + len
    {
      cur := cur + len;
    }

    method Reset()
      requires Valid()
      modifies this`cur
      ensures Valid() && Contents() == []
    {
      cur := 0;
    }

    /** Ends the contents with a NUL, for which there is always room. */
    method DebugString() returns (t: Text)
      requires Valid()
      modifies data
      ensures Contents() == old(Contents()) && t == data[..] && CString(t) == CString(Contents())
    {
      data[cur] := 0;
      t := data[..];
      NulEnds(t, cur);
    }
  }

  lemma {:induction false} FirstNulOfFront(t: Text, n: nat, i: nat)
    requires i <= n < |t| && t[n] == 0
    ensures FirstNul(t, i) == FirstNul(t[..n], i)
    decreases n - i
  {
    if i < n && t[i] != 0 {
      FirstNulOfFront(t, n, i + 1);
    }
  }

  lemma NulEnds(t: Text, n: nat)
    requires n < |t| && t[n] == 0
    ensures CString(t) == CString(t[..n])
  {
    FirstNulOfFront(t, n, 0);
  }

  // ---------------------------------------------------------------- the stream

  /** What can be put on a log line. */
  datatype Item = Piece(text: Text) | Integer(value: int) | Address(address: nat)

  predicate InRange(i: Item)
  {
    match i
    case Piece(_) => true
    case Integer(v) => -LONG_LIMIT <= v < ULONG_LIMIT
    case Address(p) => p < ULONG_LIMIT
  }

  function Rendered(i: Item): Text
    requires InRange(i)
  {
    match i
    case Piece(t) => t
    case Integer(v) => SignedNumeral(v, 10)
    case Address(p) => Ascii("0x") + Numeral(p, 16)
  }

  /** Numbers are written only with room to spare, texts as long as they fit. */
  predicate Fits(i: Item, avail: nat)
  {
    if i.Piece? then |i.text| < avail else MAX_NUMERIC_SIZE <= avail
  }

  class LogStream {
    const buffer: FixedBuffer

    ghost predicate Valid()
      reads buffer
    {
      buffer.Valid()
    }

    constructor (size: nat)
      requires size > 0
      ensures Valid() && fresh(buffer) && fresh(buffer.data) && buffer.data.Length == size && buffer.Contents() == []
    {
      buffer := new FixedBuffer(size);
    }

    method FormatInteger(v: int)
      requires Valid() && InRange(Integer(v))
      modifies buffer, buffer.data
      ensures Valid()
      ensures buffer.Contents() == old(buffer.Contents()) +
                if Fits(Integer(v), old(buffer.Avail())) then SignedNumeral(v, 10) else []
    {
      if buffer.Avail() >= MAX_NUMERIC_SIZE {
        ghost var was := buffer.Contents();
        var len := Convert(buffer.data, buffer.cur, v);
        assert buffer.data[..buffer.cur + len] == was + SignedNumeral(v, 10) by {
          FrontKept(was, buffer.data[..], buffer.cur, len);
        }
        buffer.Add(len);
        assert buffer.data[..buffer.cur] == buffer.data[..][..buffer.cur];
      }
    }

    method FormatAddress(p: nat)
      requires Valid() && InRange(Address(p))
      modifies buffer, buffer.data
      ensures Valid()
      ensures buffer.Contents() == old(buffer.Contents()) +
                if Fits(Address(p), old(buffer.Avail())) then Rendered(Address(p)) else []
    {
      if buffer.Avail() >= MAX_NUMERIC_SIZE {
        ghost var was := buffer.Contents();
        WritePrefix();
        ghost var prefixed := buffer.data[..buffer.cur + 2];
        var len := ConvertHex(buffer.data, buffer.cur + 2, p);
        FrontKept(prefixed, buffer.data[..], buffer.cur + 2, len);
        Associate(was, Ascii("0x"), Numeral(p, 16));
        buffer.Add(len + 2);
        assert buffer.data[..buffer.cur] == buffer.data[..][..buffer.cur];
      }
    }

    method WritePrefix()
      requires Valid() && buffer.Avail() >= MAX_NUMERIC_SIZE
      modifies buffer.data
      ensures Valid() && buffer.data[..buffer.cur + 2] == buffer.Contents() + Ascii("0x")
      ensures buffer.Contents() == old(buffer.Contents())
    {
      buffer.data[buffer.cur] := 48;
      buffer.data[buffer.cur + 1] := 120;
      assert Ascii("0x") == [48, 120];
    }

    /** operator<< for each kind of item. */
    method Put(i: Item)
      requires Valid() && InRange(i)
      modifies buffer, buffer.data
      ensures Valid()
      ensures buffer.Contents() == old(buffer.Contents()) + if Fits(i, old(buffer.Avail())) then Rendered(i) else []
    {
      match i
      case Piece(t) => buffer.Append(t);
      case Integer(v) => FormatInteger(v);
      case Address(p) => FormatAddress(p);
    }

    /** A whole line, item after item, into a buffer that is empty. */
    method PutAll(items: seq<Item>)
      requires Valid() && buffer.Contents() == [] && forall i :: i in items ==> InRange(i)
      modifies buffer, buffer.data
      ensures Valid() && buffer.Contents() == Line(items, buffer.data.Length)
    {
      for k := 0 to |items|
        invariant Valid()
        invariant forall i :: i in items[..k] ==> InRange(i)
        invariant buffer.Contents() == Line(items[..k], buffer.data.Length)
      {
        assert items[..k + 1][..k] == items[..k];
        Put(items[k]);
      }
      assert items[..|items|] == items;
    }
  }

  lemma FrontKept(was: Text, now: Text, at: nat, len: nat)
    requires |was| == at && at + len <= |now| && now[..at] == was
    ensures now[..at + len] == was + now[at..at + len]
  {
  }

  // ---------------------------------------------------------------- lines

  /** The line after some items, in a buffer of some size: what does not fit is left out whole. */
  function Line(items: seq<Item>, size: nat): (t: Text)
    requires size > 0 && forall i :: i in items ==> InRange(i)
    ensures |t| < size
    decreases |items|
  {
    if items == [] then []
    else
      var last := items[|items| - 1];
      var line := Line(items[..|items| - 1], size);
      assert forall i :: i in items[..|items| - 1] ==> i in items;
      assert last in items;
      RenderedIsShort(last);
      if Fits(last, size - |line|) then line + Rendered(last) else line
  }

  lemma RenderedIsShort(i: Item)
    requires InRange(i)
    ensures !i.Piece? ==> 0 < |Rendered(i)| <= 20
  {
    match i
    case Piece(_) =>
    case Integer(v) => DecimalFits(Abs(v));
    case Address(p) => HexFits(p);
  }

  function All(items: seq<Item>): Text
    requires forall i :: i in items ==> InRange(i)
  {
    if items == [] then []
    else
      assert forall i :: i in items[..|items| - 1] ==> i in items;
      All(items[..|items| - 1]) + Rendered(items[|items| - 1])
  }

  /** With 32 bytes to spare, a line holds every item whole, in order. */
  lemma {:induction false} NothingIsLost(items: seq<Item>, size: nat)
    requires forall i :: i in items ==> InRange(i)
    requires |All(items)| + 32 <= size
    ensures Line(items, size) == All(items)
    decreases |items|
  {
    if items != [] {
      var front := items[..|items| - 1];
      assert forall i :: i in front ==> i in items;
      assert All(items) == All(front) + Rendered(items[|items| - 1]);
      NothingIsLost(front, size);
    }
  }

  /** Line, where the last item is looked at. */
  lemma LineSnoc(items: seq<Item>, size: nat, i: Item)
    requires size > 0 && InRange(i) && forall j :: j in items ==> InRange(j)
    ensures var line := Line(items, size);
            Line(items + [i], size) == if Fits(i, size - |line|) then line + Rendered(i) else line
  {
    hide Rendered, Fits;
    var all := items + [i];
    assert all[..|all| - 1] == items && all[|all| - 1] == i;
  }

  /** A text is there if it is shorter than what is free, and left out whole if not. */
  lemma TextsStand(items: seq<Item>, size: nat, t: Text)
    requires size > 0 && forall i :: i in items ==> InRange(i)
    ensures var line := Line(items, size);
            Line(items + [Piece(t)], size) == if |line| + |t| < size then line + t else line
  {
    LineSnoc(items, size, Piece(t));
  }

  /**
    Every number reads back as itself, the least of 64 bits included, when 32 bytes are free, and is
    left out otherwise.
   */
  lemma IntegersReadBack(items: seq<Item>, size: nat, v: int)
    requires size > 0 && InRange(Integer(v)) && forall i :: i in items ==> InRange(i)
    ensures var before, line := Line(items, size), Line(items + [Integer(v)], size);
            if size - |before| >= 32 then
              before < line && |line| <= |before| + 20 && SignedValue(line[|before|..], 10) == v
            else line == before
  {
    LineSnoc(items, size, Integer(v));
    RenderedIsShort(Integer(v));
    SignedRoundTrip(v, 10);
    var before := Line(items, size);
    assert (before + SignedNumeral(v, 10))[|before|..] == SignedNumeral(v, 10);
  }

  /** So does every address, in hexadecimal behind 0x. */
  lemma AddressesReadBack(items: seq<Item>, size: nat, p: nat)
    requires size > 0 && InRange(Address(p)) && forall i :: i in items ==> InRange(i)
    ensures var before, line := Line(items, size), Line(items + [Address(p)], size);
            if size - |before| >= 32 then
              && before + [48, 120] < line && |line| <= |before| + 18
              && IsNumeral(line[|before| + 2..], 16) && Value(line[|before| + 2..], 16) == p
            else line == before
  {
    hide Line, Numeral, Value, IsNumeral;
    LineSnoc(items, size, Address(p));
    HexFits(p);
    NumeralRoundTrip(p, 16);
    assert Ascii("0x") == [48, 120];
    DigitsBehind(Line(items, size), [48, 120], Numeral(p, 16));
  }

  lemma DigitsBehind(before: Text, prefix: Text, digits: Text)
    requires digits != []
    ensures before + prefix < before + (prefix + digits)
    ensures (before + (prefix + digits))[|before| + |prefix|..] == digits
  {
    Associate(before, prefix, digits);
  }
}
