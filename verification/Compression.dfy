/** How well names are compressed, and what the writer emits when there is nothing to share. */
module Compression {
  import opened Bytes
  import opened Texts
  import opened Names
  import opened VosBuffer

  /** Components without compression. */
  function Plain(elems: Parts): Text
  {
    if elems == Nil then [] else Piece(elems.head) + Plain(elems.tail)
  }

  /** The first suffix, and so the longest, that is cached; Nil if there is none. */
  function CachedTail(elems: Parts, cache: Cache): Parts
  {
    if elems == Nil || Join(elems, DOT) in cache then elems else CachedTail(elems.tail, cache)
  }

  /** The components in front of CachedTail. */
  function Uncached(elems: Parts, cache: Cache): Parts
  {
    if elems == Nil || Join(elems, DOT) in cache then Nil else Cons(elems.head, Uncached(elems.tail, cache))
  }

  /** CachedTail is a suffix, it is cached, and no longer suffix is. */
  lemma {:induction false} CachedTailIsLongest(elems: Parts, cache: Cache)
    ensures Append(Uncached(elems, cache), CachedTail(elems, cache)) == elems
    ensures CachedTail(elems, cache) == Nil || Join(CachedTail(elems, cache), DOT) in cache
    ensures forall a, b :: Append(a, b) == elems && b.Cons? && Join(b, DOT) in cache
              ==> b.Size() <= CachedTail(elems, cache).Size()
  {
    if elems.Cons? {
      CachedTailIsLongest(elems.tail, cache);
    }
    forall a, b | Append(a, b) == elems && b.Cons? && Join(b, DOT) in cache
      ensures b.Size() <= CachedTail(elems, cache).Size()
    {
      AppendSize(a, b);
      if a.Cons? {
        assert Append(a.tail, b) == elems.tail;
      }
    }
  }

  lemma {:induction false} AppendSize(a: Parts, b: Parts)
    ensures Append(a, b).Size() == a.Size() + b.Size()
    ensures a.Cons? ==> Append(a, b).Cons? && Append(a, b).tail == Append(a.tail, b)
  {
    if a.Cons? {
      AppendSize(a.tail, b);
    }
  }

  /** How a compressed name ends. */
  function Ending(tail: Parts, cache: Cache): Text
    requires tail == Nil || Join(tail, DOT) in cache
  {
    if tail == Nil then [0] else Pointer(cache[Join(tail, DOT)])
  }

  /** Entries for longer texts do not matter. */
  lemma {:induction false} LongerEntryIgnored(elems: Parts, s: Text, v: Word16, cache: Cache)
    requires Components(elems) && |Join(elems, DOT)| < |s|
    ensures CachedTail(elems, cache[s := v]) == CachedTail(elems, cache)
    ensures Uncached(elems, cache[s := v]) == Uncached(elems, cache)
    ensures CachedTail(elems, cache).Cons? ==> Join(CachedTail(elems, cache), DOT) != s
  {
    if elems.Cons? {
      SuffixIsShorter(elems);
      LongerEntryIgnored(elems.tail, s, v, cache);
    }
  }

  lemma {:induction false} TailIsCached(elems: Parts, cache: Cache)
    ensures CachedTail(elems, cache) == Nil || Join(CachedTail(elems, cache), DOT) in cache
  {
    if elems.Cons? {
      TailIsCached(elems.tail, cache);
    }
  }

  /**
    Compression is greedy: labels up to the longest suffix that was cached when the call began,
    then one pointer to it; with no cached suffix, all labels and the closing zero.
   */
  lemma {:induction false} EncodeIsGreedy(elems: Parts, pos: nat, cache: Cache)
    requires Components(elems) && [] !in cache
    ensures CachedTail(elems, cache) == Nil || Join(CachedTail(elems, cache), DOT) in cache
    ensures EncodeName(elems, pos, cache).bytes
         == Plain(Uncached(elems, cache)) + Ending(CachedTail(elems, cache), cache)
    decreases elems
  {
    TailIsCached(elems, cache);
    if elems == Nil || Join(elems, DOT) in cache {
      var e := Ending(elems, cache);
      assert [] + e == e;
    } else {
      GreedyStep(elems, pos, cache);
    }
  }

  lemma {:induction false} GreedyStep(elems: Parts, pos: nat, cache: Cache)
    requires Components(elems) && [] !in cache && elems.Cons? && Join(elems, DOT) !in cache
    ensures CachedTail(elems, cache) == Nil || Join(CachedTail(elems, cache), DOT) in cache
    ensures EncodeName(elems, pos, cache).bytes
         == Plain(Uncached(elems, cache)) + Ending(CachedTail(elems, cache), cache)
    decreases elems, 0
  {
    TailIsCached(elems, cache);
    var pos', cache' := pos + |Piece(elems.head)|, cache[Join(elems, DOT) := Low16(pos)];
    var tail := EncodeName(elems.tail, pos', cache');
    assert EncodeName(elems, pos, cache).bytes == Piece(elems.head) + tail.bytes;
    SuffixIsShorter(elems);
    EncodeIsGreedy(elems.tail, pos', cache');
    LongerEntryIgnored(elems.tail, Join(elems, DOT), Low16(pos), cache);
    Associate(Piece(elems.head), Plain(Uncached(elems.tail, cache)), Ending(CachedTail(elems, cache), cache));
  }

  /** Compression never costs bytes: a name takes at most its text and two bytes more. */
  lemma CompressionSaves(elems: Parts, pos: nat, cache: Cache)
    requires Components(elems) && [] !in cache
    ensures |EncodeName(elems, pos, cache).bytes| <= |Plain(elems)| + 1
    ensures elems.Cons? ==> |Plain(elems)| == |Join(elems, DOT)| + 1
  {
    EncodeIsGreedy(elems, pos, cache);
    CachedTailIsLongest(elems, cache);
    PlainOfAppend(Uncached(elems, cache), CachedTail(elems, cache));
    PlainLength(elems);
    TailHasBytes(CachedTail(elems, cache), elems, cache);
  }

  lemma TailHasBytes(tail: Parts, elems: Parts, cache: Cache)
    requires tail == CachedTail(elems, cache) && Components(elems)
    ensures tail.Cons? ==> |Plain(tail)| >= 2
  {
    TailIsComponents(elems, cache);
    if tail.Cons? {
      PieceOfComponent(tail.head);
    }
  }

  lemma {:induction false} TailIsComponents(elems: Parts, cache: Cache)
    requires Components(elems)
    ensures Components(CachedTail(elems, cache))
  {
    if elems.Cons? && Join(elems, DOT) !in cache {
      TailIsComponents(elems.tail, cache);
    }
  }

  lemma {:induction false} PlainOfAppend(a: Parts, b: Parts)
    ensures Plain(Append(a, b)) == Plain(a) + Plain(b)
  {
    if a == Nil {
      assert [] + Plain(b) == Plain(b);
    } else {
      PlainOfAppend(a.tail, b);
      Associate(Piece(a.head), Plain(a.tail), Plain(b));
    }
  }

  lemma {:induction false} PlainLength(elems: Parts)
    requires Components(elems)
    ensures elems.Cons? ==> |Plain(elems)| == |Join(elems, DOT)| + 1
  {
    if elems.Cons? {
      PieceOfComponent(elems.head);
      PlainLength(elems.tail);
    }
  }

  predicate IsAscii(t: Text) { forall i :: 0 <= i < |t| ==> t[i] < 0x80 }

  predicate AllAscii(elems: Parts) { elems.Cons? ==> IsAscii(elems.head) && AllAscii(elems.tail) }

  /** With an empty cache a name comes out byte for byte as AppendDnsLabel writes it. */
  lemma EmptyCacheIsPlain(elems: Parts, pos: nat)
    requires elems.Cons? && Components(elems) && AllAscii(elems)
    ensures EncodeName(elems, pos, map[]).bytes == DnsWire([], Join(elems, DOT))
  {
    EncodeIsGreedy(elems, pos, map[]);
    NothingCached(elems);
    DnsWireIsPlain(elems);
  }

  lemma {:induction false} NothingCached(elems: Parts)
    ensures Uncached(elems, map[]) == elems && CachedTail(elems, map[]) == Nil
  {
    if elems.Cons? {
      NothingCached(elems.tail);
    }
  }

  lemma {:induction false} DnsWireIsPlain(elems: Parts)
    requires elems.Cons? && Components(elems) && AllAscii(elems)
    ensures DnsWire([], Join(elems, DOT)) == Plain(elems) + [0]
  {
    var c, rest := elems.head, elems.tail;
    PieceOfComponent(c);
    assert DnsPiece([] + c) == Piece(c) by { assert [] + c == c; }
    if rest == Nil {
      DnsWireCollects([], c, []);
      assert c + [] == c;
      assert Piece(c) + [] == Piece(c);
    } else {
      DnsWireIsPlain(rest);
      var t := [DOT] + Join(rest, DOT);
      DnsWireCollects([], c, t);
      assert t[1..] == Join(rest, DOT);
      Associate(Piece(c), Plain(rest), [0]);
    }
  }

  /** Characters that are no dots collect into the pending label. */
  lemma {:induction false} DnsWireCollects(sub: Text, c: Text, t: Text)
    requires DOT !in c && IsAscii(c)
    ensures DnsWire(sub, c + t) == DnsWire(sub + c, t)
    decreases |c|
  {
    if c == [] {
      assert c + t == t && sub + c == sub;
    } else {
      assert (c + t)[1..] == c[1..] + t && (c + t)[0] == c[0];
      assert AsciiOnly([c[0]]) == [c[0]];
      DnsWireCollects(sub + [c[0]], c[1..], t);
      assert (sub + [c[0]]) + c[1..] == sub + c;
    }
  }
}
