/**
  Compressed domain names (RFC 1035, section 4.1.4): what the writer emits for a name, what
  it means for bytes of a packet to hold a name, and why the one is always the other.
 */
module Names {
  import opened Bytes
  import opened Texts

  /** Where in the message each text, a name or a suffix of one, was written. */
  type Cache = map<Text, Word16>

  /** Pointers have 14 bits. */
  const OFFSET_LIMIT := 0x4000
  /** A length byte with both top bits set would be taken for a pointer. RFC 1035 stops at 63. */
  const LABEL_LIMIT := 0xC0

  predicate Component(c: Text) { 1 <= |c| < LABEL_LIMIT && 0 !in c && DOT !in c }

  predicate Components(comps: Parts) { comps.Cons? ==> Component(comps.head) && Components(comps.tail) }

  /** The texts that the codec promises to carry: dot-separated components. */
  predicate NameText(t: Text) { Components(Split(t, DOT)) }

  // ---------------------------------------------------------------- writing

  /** The bytes and the cache after writing a name, and the length that the writer reports. */
  datatype Encoded = Encoded(bytes: Text, cache: Cache, counted: nat)

  /** What a raw write copies: the length has passed through one byte, and zero means "all". */
  function RawBytes(head: Text): Text
  {
    if Low8(|head|) == 0 then head else head[..Low8(|head|)]
  }

  /** A component on the wire. */
  function Piece(c: Text): (p: Text)
    ensures |p| > 0
  {
    [Low8(|CString(c)|)] + RawBytes(CString(c))
  }

  function Pointer(target: Word16): Text { Put16(0xC000 + Low14(target)) }

  /** The compressed form of the components elems at position pos of a message. */
  function EncodeName(elems: Parts, pos: nat, cache: Cache): Encoded
    decreases elems
  {
    var remain := Join(elems, DOT);
    if remain in cache then Encoded(Pointer(cache[remain]), cache, 2)
    else if elems == Nil then Encoded([0], cache, 1)
    else
      var piece := Piece(elems.head);
      var tail := EncodeName(elems.tail, pos + |piece|, cache[remain := Low16(pos)]);
      Encoded(piece + tail.bytes, tail.cache, 1 + |CString(elems.head)| + tail.counted)
  }

  // ---------------------------------------------------------------- meaning

  function PointerAt(w: Text, pos: nat): nat
    requires pos + 2 <= |w|
  {
    Low14(Get16(w, pos))
  }

  /**
    The bytes at pos spell the name comps. Every pointer that is followed leads to a label,
    and to a position before start, where the run of labels holding the pointer began.
   */
  ghost predicate NameAt(w: Text, start: nat, pos: nat, comps: Parts)
    decreases comps, 1
  {
    pos < |w| &&
    if w[pos] >= LABEL_LIMIT then
      && comps.Cons? && pos + 2 <= |w|
      && PointerAt(w, pos) < start
      && LabelsAt(w, PointerAt(w, pos), PointerAt(w, pos), comps)
    else LabelsAt(w, start, pos, comps)
  }

  /** NameAt, where the byte at pos is a length and not a pointer. */
  ghost predicate LabelsAt(w: Text, start: nat, pos: nat, comps: Parts)
    decreases comps, 0
  {
    pos < |w| &&
    match comps
    case Nil => w[pos] == 0
    case Cons(c, rest) =>
      && Component(c) && w[pos] == |c| && Holds(w, pos + 1, c)
      && NameAt(w, start, pos + 1 + |c|, rest)
  }

  /** How many bytes the name occupies at pos: up to its pointer or its closing zero. */
  ghost function NameLength(w: Text, start: nat, pos: nat, comps: Parts): nat
    requires NameAt(w, start, pos, comps)
    decreases comps
  {
    if w[pos] >= LABEL_LIMIT then 2
    else
      assert LabelsAt(w, start, pos, comps);
      match comps
      case Nil => 1
      case Cons(c, rest) => 1 + |c| + NameLength(w, start, pos + 1 + |c|, rest)
  }

  /** Every cached text is spelled at its offset, by labels, within reach of a pointer. */
  ghost predicate CacheAgrees(w: Text, cache: Cache)
  {
    forall s :: s in cache ==> EntryAgrees(w, s, cache[s])
  }

  ghost predicate EntryAgrees(w: Text, s: Text, offset: nat)
  {
    && NameText(s) && offset < OFFSET_LIMIT && offset < |w|
    && LabelsAt(w, offset, offset, Split(s, DOT))
  }

  // ---------------------------------------------------------------- writing makes meaning

  /** Names stay readable when bytes are appended. */
  lemma {:induction false} NameSurvives(w: Text, w': Text, start: nat, start': nat, pos: nat, comps: Parts)
    requires NameAt(w, start, pos, comps) && start <= start' && w <= w'
    ensures NameAt(w', start', pos, comps)
    ensures NameLength(w', start', pos, comps) == NameLength(w, start, pos, comps)
    decreases comps, 1
  {
    if w[pos] >= LABEL_LIMIT {
      LabelsSurvive(w, w', PointerAt(w, pos), PointerAt(w, pos), PointerAt(w, pos), comps);
    } else {
      LabelsSurvive(w, w', start, start', pos, comps);
    }
  }

  lemma {:induction false} LabelsSurvive(w: Text, w': Text, start: nat, start': nat, pos: nat, comps: Parts)
    requires LabelsAt(w, start, pos, comps) && start <= start' && w <= w'
    ensures LabelsAt(w', start', pos, comps)
    ensures NameAt(w, start, pos, comps) && NameAt(w', start', pos, comps)
    ensures NameLength(w', start', pos, comps) == NameLength(w, start, pos, comps)
    decreases comps, 0
  {
    if comps.Cons? {
      NameSurvives(w, w', start, start', pos + 1 + |comps.head|, comps.tail);
    }
  }

  lemma CacheSurvives(w: Text, w': Text, cache: Cache)
    requires CacheAgrees(w, cache) && w <= w'
    ensures CacheAgrees(w', cache)
  {
    forall s | s in cache ensures EntryAgrees(w', s, cache[s]) {
      LabelsSurvive(w, w', cache[s], cache[s], cache[s], Split(s, DOT));
    }
  }

  lemma {:induction false} ComponentsLackDots(comps: Parts)
    requires Components(comps)
    ensures LackSeparator(comps, DOT)
  {
    if comps.Cons? {
      ComponentsLackDots(comps.tail);
    }
  }

  /** Suffixes of a name are shorter texts, so what a call caches is never hit by that call. */
  lemma SuffixIsShorter(elems: Parts)
    requires elems.Cons? && Components(elems)
    ensures |Join(elems.tail, DOT)| < |Join(elems, DOT)|
    ensures Split(Join(elems, DOT), DOT) == elems
  {
    ComponentsLackDots(elems);
    SplitOfJoin(elems, DOT);
  }

  lemma PieceOfComponent(c: Text)
    requires Component(c)
    ensures Piece(c) == [|c|] + c && CString(c) == c
  {
    var s := CString(c);
    CStringWhole(c);
    assert Low8(|s|) == |s|;
    assert RawBytes(s) == s[..|s|] == s;
  }

  /** The entries of cache that a write of a text of this size can hit are sound, and before start. */
  ghost predicate Usable(w: Text, start: nat, size: nat, cache: Cache)
  {
    forall s :: s in cache && |s| <= size ==> EntryAgrees(w, s, cache[s]) && cache[s] < start
  }

  /** Entries that were not in cache are sound for w. */
  ghost predicate NewEntriesAgree(w: Text, cache: Cache, cache': Cache)
  {
    forall s :: s in cache' ==> (s in cache && cache'[s] == cache[s]) || EntryAgrees(w, s, cache'[s])
  }

  ghost predicate Extends(cache: Cache, cache': Cache)
  {
    forall s :: s in cache ==> s in cache' && cache'[s] == cache[s]
  }

  /** At pos, w spells elems in exactly the bytes of e; e counts them and adds only sound entries to the cache. */
  ghost predicate Spells(w: Text, start: nat, pos: nat, elems: Parts, cache: Cache, e: Encoded)
  {
    && NameAt(w, start, pos, elems)
    && NameLength(w, start, pos, elems) == |e.bytes| == e.counted
    && NewEntriesAgree(w, cache, e.cache)
    && Extends(cache, e.cache)
  }

  lemma {:induction false} EncodeNameSpells(w: Text, start: nat, pos: nat, elems: Parts, cache: Cache)
    requires Components(elems) && start <= pos && |w| <= OFFSET_LIMIT
    requires Usable(w, start, |Join(elems, DOT)|, cache)
    requires Holds(w, pos, EncodeName(elems, pos, cache).bytes)
    ensures Spells(w, start, pos, elems, cache, EncodeName(elems, pos, cache))
    decreases elems, 1
  {
    var remain := Join(elems, DOT);
    if remain in cache {
      PointerSpells(w, start, pos, elems, cache);
    } else if elems.Cons? {
      var tail := EncodeLabel(elems, pos, cache);
      EncodeTailSpells(w, start, pos, elems, cache, tail);
    } else {
      var end := EncodeName(elems, pos, cache).bytes;
      assert w[pos] == end[0] == 0;
    }
  }

  lemma UsableForTail(w: Text, start: nat, pos: Word16, elems: Parts, cache: Cache)
    requires elems.Cons? && Components(elems)
    requires Usable(w, start, |Join(elems, DOT)|, cache)
    ensures Usable(w, start, |Join(elems.tail, DOT)|, cache[Join(elems, DOT) := pos])
  {
    SuffixIsShorter(elems);
  }

  /** The case of EncodeNameSpells that writes a label and then the rest. */
  lemma {:induction false} EncodeTailSpells(w: Text, start: nat, pos: nat, elems: Parts, cache: Cache, tail: Encoded)
    requires elems.Cons? && Components(elems) && start <= pos < |w| <= OFFSET_LIMIT
    requires Usable(w, start, |Join(elems, DOT)|, cache)
    requires Join(elems, DOT) !in cache && |Piece(elems.head)| == 1 + |elems.head|
    requires tail == EncodeName(elems.tail, pos + 1 + |elems.head|, cache[Join(elems, DOT) := pos])
    requires Holds(w, pos, Piece(elems.head) + tail.bytes)
    ensures Spells(w, start, pos, elems, cache,
                   Encoded(Piece(elems.head) + tail.bytes, tail.cache, 1 + |elems.head| + tail.counted))
    decreases elems, 0
  {
    hide EncodeName, Piece, Usable;
    var next, cache' := pos + 1 + |elems.head|, cache[Join(elems, DOT) := pos];
    HoldsParts(w, pos, Piece(elems.head), tail.bytes);
    UsableForTail(w, start, pos, elems, cache);
    EncodeNameSpells(w, start, next, elems.tail, cache');
    LabelInFront(w, start, pos, elems, cache, tail);
  }

  /** EncodeName when it writes a label, on the domain where no length or offset is cut. */
  lemma EncodeLabel(elems: Parts, pos: nat, cache: Cache) returns (tail: Encoded)
    requires elems.Cons? && Component(elems.head) && pos < 0x1_0000
    requires Join(elems, DOT) !in cache
    ensures tail == EncodeName(elems.tail, pos + 1 + |elems.head|, cache[Join(elems, DOT) := pos])
    ensures EncodeName(elems, pos, cache)
         == Encoded(Piece(elems.head) + tail.bytes, tail.cache, 1 + |elems.head| + tail.counted)
    ensures |Piece(elems.head)| == 1 + |elems.head|
  {
    PieceOfComponent(elems.head);
    tail := EncodeName(elems.tail, pos + 1 + |elems.head|, cache[Join(elems, DOT) := pos]);
  }

  lemma HoldsParts(w: Text, pos: nat, a: Text, b: Text)
    requires Holds(w, pos, a + b)
    ensures Holds(w, pos, a) && Holds(w, pos + |a|, b)
  {
    forall k | 0 <= k < |a| ensures w[pos + k] == a[k] {
      assert (a + b)[k] == a[k];
    }
    forall k | 0 <= k < |b| ensures w[pos + |a| + k] == b[k] {
      assert w[pos + (|a| + k)] == (a + b)[|a| + k] == b[k];
    }
  }

  lemma PointerSpells(w: Text, start: nat, pos: nat, elems: Parts, cache: Cache)
    requires Components(elems) && start <= pos
    requires Join(elems, DOT) in cache && Usable(w, start, |Join(elems, DOT)|, cache)
    requires Holds(w, pos, Pointer(cache[Join(elems, DOT)]))
    ensures Spells(w, start, pos, elems, cache, Encoded(Pointer(cache[Join(elems, DOT)]), cache, 2))
  {
    var remain := Join(elems, DOT);
    assert EntryAgrees(w, remain, cache[remain]);
    assert elems.Cons?;
    SuffixIsShorter(elems);
    var p := Pointer(cache[remain]);
    assert w[pos + 0] == p[0] && w[pos + 1] == p[1];
    assert PointerAt(w, pos) == cache[remain];
  }

  lemma PieceIsThere(w: Text, pos: nat, c: Text)
    requires Component(c) && Holds(w, pos, Piece(c))
    ensures pos < |w| && w[pos] == |c| && Holds(w, pos + 1, c)
  {
    PieceOfComponent(c);
    HoldsParts(w, pos, [|c|], c);
    assert w[pos + 0] == [|c|][0];
  }

  /** A label in front of a name makes a name. */
  lemma LabelThenName(w: Text, start: nat, pos: nat, elems: Parts)
    requires elems.Cons? && Component(elems.head) && start <= pos
    requires Holds(w, pos, Piece(elems.head))
    requires NameAt(w, start, pos + 1 + |elems.head|, elems.tail)
    ensures LabelsAt(w, start, pos, elems) && NameAt(w, start, pos, elems) && LabelsAt(w, pos, pos, elems)
    ensures NameLength(w, start, pos, elems)
         == 1 + |elems.head| + NameLength(w, start, pos + 1 + |elems.head|, elems.tail)
  {
    PieceIsThere(w, pos, elems.head);
    NameSurvives(w, w, start, pos, pos + 1 + |elems.head|, elems.tail);
  }

  /** Once the entry that a write adds first is sound, all its entries are. */
  lemma FirstEntryAgrees(w: Text, cache: Cache, remain: Text, pos: Word16, cache': Cache)
    requires remain !in cache && EntryAgrees(w, remain, pos)
    requires NewEntriesAgree(w, cache[remain := pos], cache') && Extends(cache[remain := pos], cache')
    ensures NewEntriesAgree(w, cache, cache') && Extends(cache, cache')
  {
    forall s | s in cache ensures s in cache' && cache'[s] == cache[s] {
      assert s in cache[remain := pos];
    }
  }

  /** What EncodeNameSpells claims of a name follows from what it claims of the rest after a label. */
  lemma LabelInFront(w: Text, start: nat, pos: nat, elems: Parts, cache: Cache, tail: Encoded)
    requires elems.Cons? && Components(elems) && start <= pos && |w| <= OFFSET_LIMIT
    requires Join(elems, DOT) !in cache && pos < 0x1_0000
    requires Holds(w, pos, Piece(elems.head)) && |Piece(elems.head)| == 1 + |elems.head|
    requires Spells(w, start, pos + 1 + |elems.head|, elems.tail, cache[Join(elems, DOT) := pos], tail)
    ensures Spells(w, start, pos, elems, cache,
                   Encoded(Piece(elems.head) + tail.bytes, tail.cache, 1 + |elems.head| + tail.counted))
  {
    LabelThenName(w, start, pos, elems);
    var remain := Join(elems, DOT);
    assert EntryAgrees(w, remain, pos) by { SuffixIsShorter(elems); }
    FirstEntryAgrees(w, cache, remain, pos, tail.cache);
  }

  /**
    Writing a name behind a message whose cache is sound spells that name, reports its exact
    length, and leaves a sound cache that still holds every earlier entry.
   */
  lemma WriteNameSpells(b: Text, name: Text, cache: Cache)
    requires CacheAgrees(b, cache) && NameText(name)
    requires |b| + |EncodeName(Split(name, DOT), |b|, cache).bytes| <= OFFSET_LIMIT
    ensures var e := EncodeName(Split(name, DOT), |b|, cache);
            && Spells(b + e.bytes, |b|, |b|, Split(name, DOT), cache, e)
            && CacheAgrees(b + e.bytes, e.cache)
  {
    JoinOfSplit(name, DOT);
    var e := EncodeName(Split(name, DOT), |b|, cache);
    CacheSurvives(b, b + e.bytes, cache);
    EncodeNameSpells(b + e.bytes, |b|, |b|, Split(name, DOT), cache);
  }
}
