/** Writing integers, names, addresses and strings behind a message. */
module Writer {
  import opened Bytes
  import opened Texts
  import opened Names
  import opened Numerals
  import opened VosBuffer

  /** The std::map that one message's names share. */
  class LabelCache {
    var entries: Cache

    constructor ()
      ensures entries == map[]
    {
      entries := map[];
    }
  }

  method Write8(buf: Buffer, v: Byte)
    requires buf.Valid()
    modifies buf, buf.data
    ensures buf.Valid() && buf.Contents() == old(buf.Contents()) + [v]
    ensures buf.data == old(buf.data) || fresh(buf.data)
  {
    var _ := buf.AppendByte(v);
  }

  method Write16(buf: Buffer, v: Word16)
    requires buf.Valid()
    modifies buf, buf.data
    ensures buf.Valid() && buf.Contents() == old(buf.Contents()) + Put16(v)
    ensures buf.data == old(buf.data) || fresh(buf.data)
  {
    ghost var c := buf.Contents();
    var _ := buf.AppendByte(High8(v));
    var _ := buf.AppendByte(Low8(v));
    assert (c + [High8(v)]) + [Low8(v)] == c + Put16(v);
  }

  method Write32(buf: Buffer, v: Word32)
    requires buf.Valid()
    modifies buf, buf.data
    ensures buf.Valid() && buf.Contents() == old(buf.Contents()) + Put32(v)
    ensures buf.data == old(buf.data) || fresh(buf.data)
  {
    ghost var c := buf.Contents();
    Write16(buf, High16(v));
    Write16(buf, Low16(v));
    Associate(c, Put16(High16(v)), Put16(Low16(v)));
  }

  /** write_raw: the length has been cut to a byte, and zero makes AppendRaw measure the C string. */
  method WriteRaw(buf: Buffer, head: Text, len: Byte)
    requires buf.Valid() && 0 !in head && len == Low8(|head|)
    modifies buf, buf.data
    ensures buf.Valid() && buf.Contents() == old(buf.Contents()) + RawBytes(head)
    ensures buf.data == old(buf.data) || fresh(buf.data)
  {
    CStringWhole(head);
    assert RawPart(head, len) == RawBytes(head);
    var _ := buf.AppendRaw(head, len);
  }

  /** The text b with a length filled in at position i. */
  function Patched(b: Text, i: nat, length: Word16): Text
    requires i + 2 <= |b|
  {
    b[..i] + (Put16(length) + b[i + 2..])
  }

  /** Overwrites two bytes that were reserved. */
  method Replace16(buf: Buffer, v: Word16, i: nat)
    requires buf.Valid() && i + 2 <= buf.index
    modifies buf.data
    ensures buf.Valid() && buf.Contents() == Patched(old(buf.Contents()), i, v)
  {
    ghost var c := buf.Contents();
    buf.Replace(i, High8(v));
    buf.Replace(i + 1, Low8(v));
    assert c[i := High8(v)][i + 1 := Low8(v)] == c[..i] + (Put16(v) + c[i + 2..]);
  }

  /** The search through the map that WriteLabel makes. */
  method FindCached(cache: LabelCache, name: Text) returns (found: bool, index: Word16)
    ensures found <==> name in cache.entries
    ensures found ==> index == cache.entries[name]
  {
    var keys := cache.entries.Keys;
    while keys != {}
      invariant keys <= cache.entries.Keys
      invariant name in cache.entries ==> name in keys
      decreases keys
    {
      var k :| k in keys;
      if k == name {
        return true, cache.entries[k];
      }
      keys := keys - {k};
    }
    return false, 0;
  }

  /**
    Inserts at the first entry under another key, which is to say whenever there is something to
    insert; std::map::insert leaves an existing entry alone.
   */
  method CacheLabel(cache: LabelCache, name: Text, index: Word16)
    modifies cache
    ensures cache.entries ==
              if name in old(cache.entries) then old(cache.entries) else old(cache.entries)[name := index]
  {
    if cache.entries == map[] {
      cache.entries := cache.entries[name := index];
      return;
    }
    var keys := cache.entries.Keys;
    while keys != {}
      invariant keys <= cache.entries.Keys && cache.entries == old(cache.entries)
      invariant name in cache.entries || keys == cache.entries.Keys
      decreases keys
    {
      var k :| k in keys;
      if k != name {
        if name !in cache.entries {
          cache.entries := cache.entries[name := index];
        }
        break;
      }
      keys := keys - {k};
    }
  }

  /** The message, the cache and the count after the loop of WriteLabel, from the values they have in it. */
  function Continue(elems: Parts, acc: Encoded): Encoded
    decreases elems
  {
    var remain := Join(elems, DOT);
    if remain in acc.cache then acc.(bytes := acc.bytes + Pointer(acc.cache[remain]), counted := acc.counted + 2)
    else if elems == Nil then acc.(bytes := acc.bytes + [0], counted := acc.counted + 1)
    else Continue(elems.tail, AfterLabel(acc, remain, elems.head))
  }

  function AfterLabel(acc: Encoded, remain: Text, head: Text): Encoded
  {
    Encoded(acc.bytes + Piece(head), acc.cache[remain := Low16(|acc.bytes|)], acc.counted + (1 + |CString(head)|))
  }

  /** The loop appends the encoded name. */
  lemma {:induction false} ContinueEncodes(elems: Parts, acc: Encoded)
    ensures var e := EncodeName(elems, |acc.bytes|, acc.cache);
            Continue(elems, acc) == Encoded(acc.bytes + e.bytes, e.cache, acc.counted + e.counted)
    decreases elems
  {
    var remain := Join(elems, DOT);
    if remain !in acc.cache && elems.Cons? {
      var acc' := AfterLabel(acc, remain, elems.head);
      ContinueEncodes(elems.tail, acc');
      assert |acc'.bytes| == |acc.bytes| + |Piece(elems.head)|;
      Associate(acc.bytes, Piece(elems.head), EncodeName(elems.tail, |acc'.bytes|, acc'.cache).bytes);
    }
  }

  /** Writes one component and caches the name that starts with it. */
  method WriteComponent(buf: Buffer, head: Text) returns (count: nat)
    requires buf.Valid()
    modifies buf, buf.data
    ensures buf.Valid() && buf.Contents() == old(buf.Contents()) + Piece(head)
    ensures buf.data == old(buf.data) || fresh(buf.data)
    ensures count == 1 + |CString(head)|
  {
    ghost var c := buf.Contents();
    var text := CString(head);
    CStringWhole(head);
    CStringWhole(text);
    Write8(buf, Low8(|text|));
    WriteRaw(buf, text, Low8(|text|));
    Associate(c, [Low8(|text|)], RawBytes(text));
    count := 1 + |text|;
  }

  /** A pointer, when the rest of the name was found in the cache, or else the closing zero. */
  method WriteEnding(buf: Buffer, found: bool, index: Word16) returns (count: nat)
    requires buf.Valid()
    modifies buf, buf.data
    ensures buf.Valid() && buf.Contents() == old(buf.Contents()) + (if found then Pointer(index) else [0])
    ensures buf.data == old(buf.data) || fresh(buf.data)
    ensures count == if found then 2 else 1
  {
    if found {
      Write16(buf, 0xC000 + Low14(index));
      count := 2;
    } else {
      Write8(buf, 0);
      count := 1;
    }
  }

  /** The loop of WriteLabel. */
  method AppendLabels(buf: Buffer, name: Text, cache: LabelCache) returns (count: nat)
    requires buf.Valid()
    modifies buf, buf.data, cache
    ensures buf.Valid() && (buf.data == old(buf.data) || fresh(buf.data))
    ensures Encoded(buf.Contents(), cache.entries, count)
         == Continue(Split(name, DOT), Encoded(old(buf.Contents()), old(cache.entries), 0))
  {
    ghost var acc := Encoded(buf.Contents(), cache.entries, 0);
    ghost var goal := Continue(Split(name, DOT), acc);
    var remain, elems := name, Split(name, DOT);
    JoinOfSplit(name, DOT);
    count := 0;
    while true
      invariant buf.Valid() && (buf.data == old(buf.data) || fresh(buf.data))
      invariant acc == Encoded(buf.Contents(), cache.entries, count)
      invariant remain == Join(elems, DOT)
      invariant Continue(elems, acc) == goal
      decreases elems
    {
      var found, index := FindCached(cache, remain);
      if found || elems == Nil {
        var n := WriteEnding(buf, found, index);
        count := count + n;
        break;
      }
      acc := AfterLabel(acc, remain, elems.head);
      CacheLabel(cache, remain, Low16(buf.index));
      var n := WriteComponent(buf, elems.head);
      count := count + n;
      elems := elems.tail;
      remain := Join(elems, DOT);
    }
  }

  /** Writes a name, compressed against the names already in the message. */
  method WriteLabel(buf: Buffer, name: Text, cache: LabelCache) returns (count: nat)
    requires buf.Valid()
    modifies buf, buf.data, cache
    ensures buf.Valid() && (buf.data == old(buf.data) || fresh(buf.data))
    ensures var e := EncodeName(Split(name, DOT), old(buf.index), old(cache.entries));
            && buf.Contents() == old(buf.Contents()) + e.bytes
            && cache.entries == e.cache
            && count == e.counted
  {
    ContinueEncodes(Split(name, DOT), Encoded(buf.Contents(), cache.entries, 0));
    count := AppendLabels(buf, name, cache);
  }

  // ---------------------------------------------------------------- addresses and strings

  /** boost::lexical_cast<int>: an optional sign and decimal digits, within 32 bits. */
  function LexicalInt(t: Text): Option<int>
  {
    var signed := t != [] && (t[0] == 43 || t[0] == MINUS);
    var digits := if signed then t[1..] else t;
    if !IsNumeral(digits, 10) then None
    else
      var v := if signed && t[0] == MINUS then -Value(digits, 10) else Value(digits, 10);
      if -0x8000_0000 <= v < 0x8000_0000 then Some(v) else None
  }

  /** Each element that is a number, cut to a byte; the others are logged and skipped. */
  function AddressBytes(elements: Parts): Text
  {
    match elements
    case Nil => []
    case Cons(t, rest) =>
      match LexicalInt(t)
      case Some(v) => [v % 0x100] + AddressBytes(rest)
      case None => AddressBytes(rest)
  }

  predicate AllNumbers(elements: Parts)
  {
    elements.Cons? ==> LexicalInt(elements.head).Some? && AllNumbers(elements.tail)
  }

  /** The bytes that WriteIp appends for a text, and the length it reports. */
  function IpBytes(ip: Text): Text
  {
    if Split(ip, DOT).Size() == 4 then AddressBytes(Split(ip, DOT)) else []
  }

  function IpCount(ip: Text): int
  {
    if Split(ip, DOT).Size() == 4 then 4 else -1
  }

  method WriteIp(buf: Buffer, ip: Text) returns (count: int)
    requires buf.Valid()
    modifies buf, buf.data
    ensures buf.Valid() && buf.Contents() == old(buf.Contents()) + IpBytes(ip)
    ensures buf.data == old(buf.data) || fresh(buf.data)
    ensures count == IpCount(ip)
  {
    ghost var before := buf.Contents();
    var elements := Split(ip, DOT);
    if elements.Size() != 4 {
      return -1;
    }
    ghost var goal, out := before + IpBytes(ip), before;
    while elements.Cons?
      invariant buf.Valid() && (buf.data == old(buf.data) || fresh(buf.data))
      invariant buf.Contents() == out && goal == out + AddressBytes(elements)
      decreases elements
    {
      match LexicalInt(elements.head) {
        case Some(v) =>
          Associate(out, [v % 0x100], AddressBytes(elements.tail));
          var _ := buf.AppendByte(v % 0x100);
          out := out + [v % 0x100];
        case None =>
      }
      elements := elements.tail;
    }
    count := 4;
  }

  /** The strings of a text record. */
  function StringsBytes(strings: Parts): Text
  {
    if strings == Nil then [] else Piece(strings.head) + StringsBytes(strings.tail)
  }

  function StringsCount(strings: Parts): nat
  {
    if strings == Nil then 0 else 1 + Low8(|CString(strings.head)|) as int + StringsCount(strings.tail)
  }

  method WriteVector(buf: Buffer, strings: Parts) returns (count: nat)
    requires buf.Valid()
    modifies buf, buf.data
    ensures buf.Valid() && buf.Contents() == old(buf.Contents()) + StringsBytes(strings)
    ensures buf.data == old(buf.data) || fresh(buf.data)
    ensures count == StringsCount(strings)
  {
    var rest := strings;
    ghost var goal, out := buf.Contents() + StringsBytes(strings), buf.Contents();
    count := 0;
    while rest.Cons?
      invariant buf.Valid() && (buf.data == old(buf.data) || fresh(buf.data))
      invariant buf.Contents() == out && goal == out + StringsBytes(rest)
      invariant count + StringsCount(rest) == StringsCount(strings)
      decreases rest
    {
      Associate(out, Piece(rest.head), StringsBytes(rest.tail));
      var _ := WriteComponent(buf, rest.head);
      out := out + Piece(rest.head);
      count := count + 1 + Low8(|CString(rest.head)|);
      rest := rest.tail;
    }
  }

  /** A number is an optional sign and decimal digits, within 32 bits; anything else is none. */
  lemma LexicalReads(sign: Text, digits: Text)
    requires sign == [] || sign == [43] || sign == [45]
    requires sign == [] ==> digits == [] || (digits[0] != 43 && digits[0] != 45)
    ensures var v := if sign == [45] then -Value(digits, 10) else Value(digits, 10);
            LexicalInt(sign + digits) ==
              if digits != [] && (forall c :: c in digits ==> 48 <= c <= 57) && -0x8000_0000 <= v < 0x8000_0000
              then Some(v) else None
  {
    var t := sign + digits;
    assert sign != [] ==> t[1..] == digits;
    assert sign == [] ==> t == digits;
  }

  /** Four elements are written as one byte for each number, its lowest eight bits; what is no number is skipped. */
  lemma IpBytesAre(a: Text, b: Text, c: Text, d: Text)
    requires 46 !in a && 46 !in b && 46 !in c && 46 !in d
    ensures IpBytes(a + ([46] + (b + ([46] + (c + ([46] + d))))))
         == LowByte(a) + (LowByte(b) + (LowByte(c) + LowByte(d)))
    ensures IpCount(a + ([46] + (b + ([46] + (c + ([46] + d)))))) == 4
  {
    hide AddressBytes, Split, LowByte;
    JoinCons(d, Nil, DOT);
    JoinCons(c, Cons(d, Nil), DOT);
    JoinCons(b, Cons(c, Cons(d, Nil)), DOT);
    var four := Cons(a, Cons(b, Cons(c, Cons(d, Nil))));
    JoinCons(a, four.tail, DOT);
    SplitOfJoin(four, DOT);
    FourBytes(a, b, c, d);
  }

  function LowByte(t: Text): Text { if LexicalInt(t).Some? then [LexicalInt(t).value % 256] else [] }

  lemma FourBytes(a: Text, b: Text, c: Text, d: Text)
    ensures AddressBytes(Cons(a, Cons(b, Cons(c, Cons(d, Nil)))))
         == LowByte(a) + (LowByte(b) + (LowByte(c) + LowByte(d)))
  {
    hide LexicalInt;
    assert AddressBytes(Cons(d, Nil)) == LowByte(d) + [] == LowByte(d);
    assert AddressBytes(Cons(c, Cons(d, Nil))) == LowByte(c) + LowByte(d);
    assert AddressBytes(Cons(b, Cons(c, Cons(d, Nil)))) == LowByte(b) + (LowByte(c) + LowByte(d));
  }

  /** The length that WriteIp reports is right exactly for four elements that are all numbers. */
  lemma IpCountExact(ip: Text)
    ensures IpCount(ip) == |IpBytes(ip)| <==> Split(ip, DOT).Size() == 4 && AllNumbers(Split(ip, DOT))
  {
    AddressBytesLength(Split(ip, DOT));
  }

  lemma {:induction false} AddressBytesLength(elements: Parts)
    ensures |AddressBytes(elements)| <= elements.Size()
    ensures |AddressBytes(elements)| == elements.Size() <==> AllNumbers(elements)
  {
    if elements.Cons? {
      AddressBytesLength(elements.tail);
    }
  }

  /** No string has a length that is a positive multiple of 256, which the length byte shows as zero. */
  predicate NoLengthVanishes(strings: Parts)
  {
    strings.Cons? ==>
      && (Low8(|CString(strings.head)|) == 0 ==> CString(strings.head) == [])
      && NoLengthVanishes(strings.tail)
  }

  /** The length that WriteVector reports is right exactly when no length byte vanishes. */
  lemma {:induction false} StringsCountExact(strings: Parts)
    ensures StringsCount(strings) <= |StringsBytes(strings)|
    ensures StringsCount(strings) == |StringsBytes(strings)| <==> NoLengthVanishes(strings)
  {
    if strings.Cons? {
      StringsCountExact(strings.tail);
      PieceLength(strings.head);
    }
  }

  lemma PieceLength(c: Text)
    ensures var n := |CString(c)|;
            |Piece(c)| == 1 + if Low8(n) == 0 then n else Low8(n) as int
  {
  }
}
