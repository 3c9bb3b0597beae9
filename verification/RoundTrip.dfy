/** What the composer writes is what the parser finds, for whole messages. */
module RoundTrip {
  import opened Bytes
  import opened Texts
  import opened Numerals
  import opened Names
  import opened Reader
  import opened Writer
  import opened Composer
  import opened Mdns

  // ---------------------------------------------------------------- messages

  datatype Question = Question(name: Text, typ: Word16)

  function PutQuestions(w: Wire, qs: seq<Question>): Wire
    decreases |qs|
  {
    if qs == [] then w else PutQuestions(PutQuestion(w, qs[0].name, qs[0].typ), qs[1..])
  }

  function PutResources(w: Wire, rs: seq<Resource>): Wire
    decreases |rs|
  {
    if rs == [] then w else PutResources(PutResource(w, rs[0]), rs[1..])
  }

  // ---------------------------------------------------------------- what is carried

  /** Texts of four byte-sized decimal numbers, as inet_ntop prints them. */
  ghost predicate IsQuad(ip: Text)
  {
    exists a: Byte, b: Byte, c: Byte, d: Byte :: ip == Quad(a, b, c, d)
  }

  ghost predicate CarriedData(typ: Word16, d: RData)
  {
    match d
    case PtrData(target) => (typ == TYPE_PTR || typ == TYPE_NAMESERVER || typ == TYPE_CNAME) && NameText(target)
    case SrvData(host) => typ == TYPE_SRV && NameText(host)
    case TxtData(strings) => typ == TYPE_TXT && NoLengthVanishes(strings)
    case AddrData(ip) => typ == TYPE_ADDRESS && IsQuad(ip)
  }

  ghost predicate Carried(r: Resource) { NameText(r.name) && CarriedData(r.typ, r.data) }

  function ParsedData(d: RData): RecordData
  {
    match d
    case PtrData(target) => Host(target)
    case SrvData(host) => Service(0, 0, SRV_PORT, host)
    case TxtData(strings) => if strings == Nil then NoData else Opaque
    case AddrData(ip) => Address(ip)
  }

  /** The record for r when it starts at start, its data length stands at slot, and its data has this size. */
  function RecordOf(r: Resource, start: nat, slot: nat, size: nat, section: Byte): Record
    requires start <= slot
  {
    Record(r.name, r.typ, r.cls, r.ttl, Low16(size), ParsedData(r.data), section, Low16(slot + 2 + size - start))
  }

  /** The record that r should be read back as, when it is written behind w. */
  function ParsedResource(w: Wire, r: Resource, section: Byte): Record
  {
    var h := PutHead(w, r);
    RecordOf(r, |w.bytes|, |h.bytes|, |EncodeData(r.data, |h.bytes| + 2, h.cache).bytes|, section)
  }

  function ParsedResources(w: Wire, rs: seq<Resource>, section: Byte): seq<Record>
    decreases |rs|
  {
    if rs == [] then []
    else [ParsedResource(w, rs[0], section)] + ParsedResources(PutResource(w, rs[0]), rs[1..], section)
  }

  function ParsedQuestion(w: Wire, q: Question): Query
  {
    var size := |PutQuestion(w, q.name, q.typ).bytes| - |w.bytes|;
    Query(q.name, q.typ, CLASS_UNICAST + CLASS_IN, Low16(size))
  }

  function ParsedQuestions(w: Wire, qs: seq<Question>): seq<Query>
    decreases |qs|
  {
    if qs == [] then []
    else [ParsedQuestion(w, qs[0])] + ParsedQuestions(PutQuestion(w, qs[0].name, qs[0].typ), qs[1..])
  }

  // ---------------------------------------------------------------- reading parts

  lemma PrefixParts(a: Text, b: Text, p: Text)
    requires a + b <= p
    ensures a <= p && Holds(p, |a|, b)
  {
    forall k | 0 <= k < |b| ensures p[|a| + k] == b[k] {
      assert (a + b)[|a| + k] == b[k];
    }
    assert a == (a + b)[..|a|];
  }

  lemma ReadWritten16(p: Text, i: nat, v: Word16)
    requires Holds(p, i, Put16(v))
    ensures Read16(p, i) == v
  {
    assert p[i + 0] == Put16(v)[0] && p[i + 1] == Put16(v)[1];
  }

  lemma ReadWritten32(p: Text, i: nat, v: Word32)
    requires Holds(p, i, Put32(v))
    ensures Read32(p, i) == v
  {
    HoldsParts(p, i, Put16(High16(v)), Put16(Low16(v)));
    ReadWritten16(p, i, High16(v));
    ReadWritten16(p, i + 2, Low16(v));
  }

  /**
    A name written behind a prefix whose cache is sound is read from the finished packet as it
    was written, whatever follows it, and the cache is sound for the prefix that includes it.
   */
  lemma NameRoundTrip(p: Text, w: Wire, name: Text)
    requires CacheAgrees(w.bytes, w.cache) && NameText(name)
    requires PutName(w, name).bytes <= p && |p| <= OFFSET_LIMIT
    ensures var e := EncodeName(Split(name, DOT), |w.bytes|, w.cache);
            && LabelDefined(p, |w.bytes|) && LabelText(p, |w.bytes|) == name
            && LabelLength(p, |w.bytes|) == |e.bytes| == e.counted
            && CacheAgrees(PutName(w, name).bytes, e.cache) && Extends(w.cache, e.cache)
  {
    var e := EncodeName(Split(name, DOT), |w.bytes|, w.cache);
    var i := |w.bytes|;
    WriteNameSpells(w.bytes, name, w.cache);
    NameSurvives(w.bytes + e.bytes, p, i, i, i, Split(name, DOT));
    NameIsRead(p, i, i, name);
  }

  lemma QuestionFields(p: Text, w: Wire, q: Question)
    requires CacheAgrees(w.bytes, w.cache) && NameText(q.name)
    requires PutQuestion(w, q.name, q.typ).bytes <= p && |p| <= OFFSET_LIMIT
    ensures var w', i := PutQuestion(w, q.name, q.typ), |w.bytes|;
            && LabelDefined(p, i) && LabelText(p, i) == q.name
            && i + LabelLength(p, i) as int + 4 == |w'.bytes|
            && Read16(p, |w'.bytes| - 4) == q.typ
            && Read16(p, |w'.bytes| - 2) == CLASS_UNICAST + CLASS_IN
            && CacheAgrees(w'.bytes, w'.cache)
  {
    var n := PutName(w, q.name);
    var typ, cls := Put16(q.typ), Put16(CLASS_UNICAST + CLASS_IN);
    PrefixParts(n.bytes, typ + cls, p);
    HoldsParts(p, |n.bytes|, typ, cls);
    ReadWritten16(p, |n.bytes|, q.typ);
    ReadWritten16(p, |n.bytes| + 2, CLASS_UNICAST + CLASS_IN);
    NameRoundTrip(p, w, q.name);
    CacheSurvives(n.bytes, PutQuestion(w, q.name, q.typ).bytes, n.cache);
  }

  /** A question is read back as it was written. */
  lemma QuestionRoundTrip(p: Text, w: Wire, q: Question)
    requires CacheAgrees(w.bytes, w.cache) && NameText(q.name)
    requires PutQuestion(w, q.name, q.typ).bytes <= p && |p| <= OFFSET_LIMIT
    ensures ParseQuery(p, |w.bytes|) == Some(ParsedQuestion(w, q))
    ensures var w' := PutQuestion(w, q.name, q.typ);
            CacheAgrees(w'.bytes, w'.cache) && |w'.bytes| == |w.bytes| + ParsedQuestion(w, q).length as int
  {
    QuestionFields(p, w, q);
  }

  /** Everything of a record in front of its data. */
  lemma HeadRoundTrip(p: Text, w: Wire, r: Resource)
    requires CacheAgrees(w.bytes, w.cache) && NameText(r.name)
    requires PutHead(w, r).bytes <= p && |p| <= OFFSET_LIMIT
    ensures var h, i := PutHead(w, r), |w.bytes|;
            && LabelDefined(p, i) && LabelText(p, i) == r.name
            && i + LabelLength(p, i) as int + 8 == |h.bytes|
            && Read16(p, |h.bytes| - 8) == r.typ
            && Read16(p, |h.bytes| - 6) == r.cls
            && Read32(p, |h.bytes| - 4) == r.ttl
            && CacheAgrees(h.bytes, h.cache)
  {
    var n := PutName(w, r.name);
    FixedFields(p, n.bytes, r.typ, r.cls, r.ttl);
    NameRoundTrip(p, w, r.name);
    CacheSurvives(n.bytes, PutHead(w, r).bytes, n.cache);
  }

  /** Type, class and ttl behind the bytes b. */
  lemma FixedFields(p: Text, b: Text, typ: Word16, cls: Word16, ttl: Word32)
    requires b + (Put16(typ) + (Put16(cls) + Put32(ttl))) <= p
    ensures b <= p && Read16(p, |b|) == typ && Read16(p, |b| + 2) == cls && Read32(p, |b| + 4) == ttl
    ensures |b + (Put16(typ) + (Put16(cls) + Put32(ttl)))| == |b| + 8
  {
    PrefixParts(b, Put16(typ) + (Put16(cls) + Put32(ttl)), p);
    HoldsParts(p, |b|, Put16(typ), Put16(cls) + Put32(ttl));
    HoldsParts(p, |b| + 2, Put16(cls), Put32(ttl));
    ReadWritten16(p, |b|, typ);
    ReadWritten16(p, |b| + 2, cls);
    ReadWritten32(p, |b| + 4, ttl);
  }

  /** The data of a record, read at the place where it was written. */
  lemma DataRoundTrip(p: Text, w: Wire, typ: Word16, data: RData)
    requires CacheAgrees(w.bytes, w.cache) && CarriedData(typ, data)
    requires var d := EncodeData(data, |w.bytes|, w.cache);
             w.bytes + d.bytes <= p && |p| <= OFFSET_LIMIT
    ensures var d := EncodeData(data, |w.bytes|, w.cache);
            && d.length == |d.bytes|
            && ParseData(p, typ, d.length, |w.bytes|) == Some(ParsedData(data))
            && CacheAgrees(w.bytes + d.bytes, d.cache)
  {
    hide StringsBytes, AddressBytes, CacheAgrees, LabelDefined, Split;
    var d := EncodeData(data, |w.bytes|, w.cache);
    match data {
      case PtrData(target) =>
        NameRoundTrip(p, w, target);
      case SrvData(host) =>
        ServiceRoundTrip(p, w, host);
      case TxtData(strings) =>
        StringsCountExact(strings);
        CacheSurvives(w.bytes, w.bytes + d.bytes, w.cache);
        NoStringsNoBytes(strings);
      case AddrData(ip) =>
        AddressRoundTrip(p, w, ip);
        CacheSurvives(w.bytes, w.bytes + d.bytes, w.cache);
    }
  }

  lemma NoStringsNoBytes(strings: Parts)
    ensures StringsBytes(strings) == [] <==> strings == Nil
  {
  }

  lemma ServiceRoundTrip(p: Text, w: Wire, host: Text)
    requires CacheAgrees(w.bytes, w.cache) && NameText(host)
    requires var d := EncodeData(SrvData(host), |w.bytes|, w.cache);
             w.bytes + d.bytes <= p && |p| <= OFFSET_LIMIT
    ensures var d, i := EncodeData(SrvData(host), |w.bytes|, w.cache), |w.bytes|;
            && d.length == |d.bytes|
            && Read16(p, i) == 0 && Read16(p, i + 2) == 0 && Read16(p, i + 4) == SRV_PORT
            && i + 6 <= |p| && LabelDefined(p, i + 6) && LabelText(p, i + 6) == host
            && CacheAgrees(w.bytes + d.bytes, d.cache)
  {
    var d := EncodeData(SrvData(host), |w.bytes|, w.cache);
    var w6 := Wire(w.bytes + SRV_HEAD, w.cache);
    var e := EncodeName(Split(host, DOT), |w.bytes| + 6, w.cache);
    Associate(w.bytes, SRV_HEAD, e.bytes);
    assert w.bytes + d.bytes == PutName(w6, host).bytes;
    PrefixParts(w6.bytes, e.bytes, p);
    PrefixParts(w.bytes, SRV_HEAD, p);
    HoldsParts(p, |w.bytes|, Put16(0), Put16(0) + Put16(SRV_PORT));
    HoldsParts(p, |w.bytes| + 2, Put16(0), Put16(SRV_PORT));
    ReadWritten16(p, |w.bytes|, 0);
    ReadWritten16(p, |w.bytes| + 2, 0);
    ReadWritten16(p, |w.bytes| + 4, SRV_PORT);
    CacheSurvives(w.bytes, w6.bytes, w.cache);
    NameRoundTrip(p, w6, host);
  }

  lemma AddressRoundTrip(p: Text, w: Wire, ip: Text)
    requires IsQuad(ip)
    requires w.bytes + IpBytes(ip) <= p
    ensures var i := |w.bytes|;
            && |IpBytes(ip)| == 4 == IpCount(ip) && i + 4 <= |p|
            && Quad(p[i], p[i + 1], p[i + 2], p[i + 3]) == ip
  {
    var a: Byte, b: Byte, c: Byte, d: Byte :| ip == Quad(a, b, c, d);
    QuadBytes(a, b, c, d);
    PrefixParts(w.bytes, IpBytes(ip), p);
    var i := |w.bytes|;
    assert p[i + 0] == [a, b, c, d][0] && p[i + 1] == [a, b, c, d][1];
    assert p[i + 2] == [a, b, c, d][2] && p[i + 3] == [a, b, c, d][3];
  }

  /** A dotted quad is written as its four bytes. */
  lemma QuadBytes(a: Byte, b: Byte, c: Byte, d: Byte)
    ensures IpBytes(Quad(a, b, c, d)) == [a, b, c, d] && IpCount(Quad(a, b, c, d)) == 4
  {
    hide Numeral, AddressBytes, LackSeparator, Split, Join;
    NoElements();
    NumberInFront(d, Nil);
    NumberInFront(c, Cons(Numeral(d, 10), Nil));
    NumberInFront(b, Cons(Numeral(c, 10), Cons(Numeral(d, 10), Nil)));
    var parts := Cons(Numeral(a, 10), Cons(Numeral(b, 10), Cons(Numeral(c, 10), Cons(Numeral(d, 10), Nil))));
    NumberInFront(a, parts.tail);
    SplitOfJoin(parts, DOT);
    assert [a] + ([b] + ([c] + ([d] + []))) == [a, b, c, d];
  }

  lemma NoElements()
    ensures AddressBytes(Nil) == [] && LackSeparator(Nil, DOT)
  {
  }

  lemma NumberInFront(a: Byte, rest: Parts)
    requires LackSeparator(rest, DOT)
    ensures AddressBytes(Cons(Numeral(a, 10), rest)) == [a] + AddressBytes(rest)
    ensures LackSeparator(Cons(Numeral(a, 10), rest), DOT)
    ensures Cons(Numeral(a, 10), rest).Size() == 1 + rest.Size()
  {
    hide Numeral, LexicalInt;
    ByteNumeral(a);
  }

  lemma ByteNumeral(a: Byte)
    ensures LexicalInt(Numeral(a, 10)) == Some(a) && DOT !in Numeral(a, 10)
  {
    NumeralRoundTrip(a, 10);
    assert Numeral(a, 10)[0] in Numeral(a, 10);
  }

  /** A resource record is read back as it was written, and its length is that of all its bytes. */
  lemma ResourceRoundTrip(p: Text, w: Wire, r: Resource, section: Byte)
    requires CacheAgrees(w.bytes, w.cache) && Carried(r)
    requires PutResource(w, r).bytes <= p && |p| <= OFFSET_LIMIT
    ensures ParseRecord(p, |w.bytes|, section) == Some(ParsedResource(w, r, section))
    ensures var w' := PutResource(w, r);
            CacheAgrees(w'.bytes, w'.cache) && |w'.bytes| == |w.bytes| + ParsedResource(w, r, section).length as int
  {
    var h := PutHead(w, r);
    var d := EncodeData(r.data, |h.bytes| + 2, h.cache);
    ResourceHead(p, w, r);
    ResourceData(p, h, r.typ, r.data);
    RecordFromFields(p, r, |w.bytes|, |h.bytes|, |d.bytes|, section);
  }

  /** ParseRecord, where no position or length wraps around. */
  lemma RecordFromFields(p: Text, r: Resource, i: nat, slot: nat, size: nat, section: Byte)
    requires LabelDefined(p, i) && LabelText(p, i) == r.name && i + LabelLength(p, i) as int + 8 == slot
    requires Read16(p, slot - 8) == r.typ && Read16(p, slot - 6) == r.cls && Read32(p, slot - 4) == r.ttl
    requires Read16(p, slot) == size && slot + 2 + size <= OFFSET_LIMIT
    requires ParseData(p, r.typ, size, slot + 2) == Some(ParsedData(r.data))
    ensures ParseRecord(p, i, section) == Some(RecordOf(r, i, slot, size, section))
    ensures RecordOf(r, i, slot, size, section).length == slot + 2 + size - i
  {
  }

  lemma LengthField(p: Text, h: Text, length: Word16, d: Text)
    requires h + (Put16(length) + d) <= p
    ensures h <= p && h + Put16(length) <= p && (h + Put16(length)) + d == h + (Put16(length) + d)
    ensures Read16(p, |h|) == length
  {
    Associate(h, Put16(length), d);
    PrefixParts(h + Put16(length), d, p);
    PrefixParts(h, Put16(length), p);
    ReadWritten16(p, |h|, length);
  }

  /** A record in the packet, up to its data length. */
  lemma ResourceHead(p: Text, w: Wire, r: Resource)
    requires CacheAgrees(w.bytes, w.cache) && NameText(r.name)
    requires PutResource(w, r).bytes <= p && |p| <= OFFSET_LIMIT
    ensures var h, i := PutHead(w, r), |w.bytes|;
            && LabelDefined(p, i) && LabelText(p, i) == r.name
            && i + LabelLength(p, i) as int + 8 == |h.bytes|
            && Read16(p, |h.bytes| - 8) == r.typ
            && Read16(p, |h.bytes| - 6) == r.cls
            && Read32(p, |h.bytes| - 4) == r.ttl
            && CacheAgrees(h.bytes, h.cache)
  {
    var h := PutHead(w, r);
    var d := EncodeData(r.data, |h.bytes| + 2, h.cache);
    LengthField(p, h.bytes, d.length, d.bytes);
    HeadRoundTrip(p, w, r);
  }

  /** The data behind h, and its length. */
  lemma ResourceData(p: Text, h: Wire, typ: Word16, data: RData)
    requires CacheAgrees(h.bytes, h.cache) && CarriedData(typ, data)
    requires PutData(h, data).bytes <= p && |p| <= OFFSET_LIMIT
    ensures var d, w' := EncodeData(data, |h.bytes| + 2, h.cache), PutData(h, data);
            && Read16(p, |h.bytes|) == |d.bytes|
            && ParseData(p, typ, |d.bytes|, |h.bytes| + 2) == Some(ParsedData(data))
            && |w'.bytes| == |h.bytes| + 2 + |d.bytes|
            && CacheAgrees(w'.bytes, w'.cache)
  {
    var d := EncodeData(data, |h.bytes| + 2, h.cache);
    var h2 := Wire(h.bytes + Put16(d.length), h.cache);
    LengthField(p, h.bytes, d.length, d.bytes);
    CacheSurvives(h.bytes, h2.bytes, h.cache);
    DataRoundTrip(p, h2, typ, data);
  }

  // ---------------------------------------------------------------- reading sections and messages

  ghost predicate AllCarried(rs: seq<Resource>) { forall r :: r in rs ==> Carried(r) }

  ghost predicate AllNames(qs: seq<Question>) { forall q :: q in qs ==> NameText(q.name) }

  lemma {:induction false} QuestionsGrow(w: Wire, qs: seq<Question>)
    ensures w.bytes <= PutQuestions(w, qs).bytes
    decreases |qs|
  {
    if qs != [] {
      QuestionsGrow(PutQuestion(w, qs[0].name, qs[0].typ), qs[1..]);
    }
  }

  lemma {:induction false} ResourcesGrow(w: Wire, rs: seq<Resource>)
    ensures w.bytes <= PutResources(w, rs).bytes
    decreases |rs|
  {
    if rs != [] {
      ResourcesGrow(PutResource(w, rs[0]), rs[1..]);
    }
  }

  lemma {:induction false} QuestionsRoundTrip(p: Text, w: Wire, qs: seq<Question>)
    requires CacheAgrees(w.bytes, w.cache) && AllNames(qs)
    requires PutQuestions(w, qs).bytes <= p && |p| <= OFFSET_LIMIT
    ensures ParseQueries(p, |qs|, |w.bytes|) == Some(Run(ParsedQuestions(w, qs), |PutQuestions(w, qs).bytes|))
    ensures CacheAgrees(PutQuestions(w, qs).bytes, PutQuestions(w, qs).cache)
    decreases |qs|
  {
    hide PutQuestion, ParseQuery;
    if qs != [] {
      var w' := PutQuestion(w, qs[0].name, qs[0].typ);
      QuestionsGrow(w', qs[1..]);
      QuestionRoundTrip(p, w, qs[0]);
      QuestionsRoundTrip(p, w', qs[1..]);
    }
  }

  lemma {:induction false} ResourcesRoundTrip(p: Text, w: Wire, rs: seq<Resource>, section: Byte)
    requires CacheAgrees(w.bytes, w.cache) && AllCarried(rs)
    requires PutResources(w, rs).bytes <= p && |p| <= OFFSET_LIMIT
    ensures ParseRecords(p, |rs|, |w.bytes|, section)
         == Some(Run(ParsedResources(w, rs, section), |PutResources(w, rs).bytes|))
    ensures CacheAgrees(PutResources(w, rs).bytes, PutResources(w, rs).cache)
    decreases |rs|
  {
    if rs != [] {
      var w' := PutResource(w, rs[0]);
      ResourcesGrow(w', rs[1..]);
      var r := FirstResource(p, w, rs, section);
      ResourcesRoundTrip(p, w', rs[1..], section);
      var run := Run(ParsedResources(w', rs[1..], section), |PutResources(w, rs).bytes|);
      RecordsCons(p, |rs| - 1, |w.bytes|, section, r, run);
    }
  }

  /** The first of several records, read back as it was written. */
  lemma FirstResource(p: Text, w: Wire, rs: seq<Resource>, section: Byte) returns (r: Record)
    requires rs != [] && CacheAgrees(w.bytes, w.cache) && Carried(rs[0])
    requires PutResource(w, rs[0]).bytes <= p && |p| <= OFFSET_LIMIT
    ensures ParseRecord(p, |w.bytes|, section) == Some(r)
    ensures ParsedResources(w, rs, section) == [r] + ParsedResources(PutResource(w, rs[0]), rs[1..], section)
    ensures var w' := PutResource(w, rs[0]);
            CacheAgrees(w'.bytes, w'.cache) && |w'.bytes| == |w.bytes| + r.length as int
  {
    r := ParsedResource(w, rs[0], section);
    ResourceRoundTrip(p, w, rs[0], section);
  }

  lemma RecordsCons(p: Text, num: nat, i: nat, section: Byte, r: Record, rest: Run<Record>)
    requires ParseRecord(p, i, section) == Some(r) && i + r.length < 0x1_0000
    requires ParseRecords(p, num, i + r.length, section) == Some(rest)
    ensures ParseRecords(p, num + 1, i, section) == Some(Run([r] + rest.items, rest.cursor))
  {
  }

  /** A whole message: its header counts, questions, and the three sections of records. */
  datatype Message = Message(id: Word16, flag: Word16, questions: seq<Question>,
                             answers: seq<Resource>, auths: seq<Resource>, adds: seq<Resource>)
  {
    predicate Countable() { |questions| < 0x1_0000 && |answers| < 0x1_0000 && |auths| < 0x1_0000 && |adds| < 0x1_0000 }

    function Heading(): Wire
      requires Countable()
    {
      Wire(PutHeader(id, flag, |questions|, |answers|, |auths|, |adds|), map[])
    }

    function AfterQuestions(): Wire
      requires Countable()
    {
      PutQuestions(Heading(), questions)
    }

    function AfterAnswers(): Wire
      requires Countable()
    {
      PutResources(AfterQuestions(), answers)
    }

    function AfterAuths(): Wire
      requires Countable()
    {
      PutResources(AfterAnswers(), auths)
    }

    function Composed(): Wire
      requires Countable()
    {
      PutResources(AfterAuths(), adds)
    }

    function Counts(): Header
      requires Countable()
    {
      Header(id, flag, |questions|, |answers|, |auths|, |adds|)
    }

    /** The packet that the message should be read back as; its cursor is the length of the message. */
    function Parsed(): Packet
      requires Countable()
    {
      Packet(Counts(), ParsedQuestions(Heading(), questions),
             (ParsedResources(AfterQuestions(), answers, RR_TYPE_ANSWER)
              + ParsedResources(AfterAnswers(), auths, RR_TYPE_AUTH))
             + ParsedResources(AfterAuths(), adds, RR_TYPE_ADD),
             |Composed().bytes|)
    }
  }

  lemma HeaderRoundTrip(p: Text, h: Header)
    requires PutHeader(h.id, h.flag, h.queries, h.answers, h.auths, h.adds) <= p
    ensures ParseHeader(p) == h
  {
    var x1, x2, x3, x4 := Put16(h.id), Put16(h.flag), Put16(h.queries), Put16(h.answers);
    var x5, x6 := Put16(h.auths), Put16(h.adds);
    var x56 := x5 + x6;
    var x456 := x4 + x56;
    var x3456 := x3 + x456;
    assert Holds(p, 0, x1 + (x2 + x3456));
    HoldsParts(p, 0, x1, x2 + x3456);
    HoldsParts(p, 2, x2, x3456);
    HoldsParts(p, 4, x3, x456);
    HoldsParts(p, 6, x4, x56);
    HoldsParts(p, 8, x5, x6);
    ReadWritten16(p, 0, h.id);
    ReadWritten16(p, 2, h.flag);
    ReadWritten16(p, 4, h.queries);
    ReadWritten16(p, 6, h.answers);
    ReadWritten16(p, 8, h.auths);
    ReadWritten16(p, 10, h.adds);
  }

  /**
    Parsing what was composed yields the message: every count, name, type, class, ttl and datum,
    and a cursor that stops exactly at the end of the buffer.
   */
  lemma MessageRoundTrip(m: Message)
    requires m.Countable() && |m.Composed().bytes| <= OFFSET_LIMIT
    requires AllNames(m.questions) && AllCarried(m.answers) && AllCarried(m.auths) && AllCarried(m.adds)
    ensures ParsePacket(m.Composed().bytes) == Some(m.Parsed())
    ensures m.Parsed().cursor == |m.Composed().bytes|
    ensures CacheAgrees(m.Composed().bytes, m.Composed().cache)
  {
    var p := m.Composed().bytes;
    MessageGrows(m);
    HeaderRoundTrip(p, m.Counts());
    QuestionsRoundTrip(p, m.Heading(), m.questions);
    ResourcesRoundTrip(p, m.AfterQuestions(), m.answers, RR_TYPE_ANSWER);
    ResourcesRoundTrip(p, m.AfterAnswers(), m.auths, RR_TYPE_AUTH);
    ResourcesRoundTrip(p, m.AfterAuths(), m.adds, RR_TYPE_ADD);
    var q := Run(ParsedQuestions(m.Heading(), m.questions), |m.AfterQuestions().bytes|);
    var a := Run(ParsedResources(m.AfterQuestions(), m.answers, RR_TYPE_ANSWER), |m.AfterAnswers().bytes|);
    var b := Run(ParsedResources(m.AfterAnswers(), m.auths, RR_TYPE_AUTH), |m.AfterAuths().bytes|);
    var c := Run(ParsedResources(m.AfterAuths(), m.adds, RR_TYPE_ADD), |p|);
    PacketFromParts(p, m.Counts(), q, a, b, c);
  }

  lemma MessageGrows(m: Message)
    requires m.Countable()
    ensures m.Heading().bytes <= m.AfterQuestions().bytes <= m.AfterAnswers().bytes
    ensures m.AfterAnswers().bytes <= m.AfterAuths().bytes <= m.Composed().bytes
    ensures |m.Heading().bytes| == HEADER_LENGTH
  {
    QuestionsGrow(m.Heading(), m.questions);
    ResourcesGrow(m.AfterQuestions(), m.answers);
    ResourcesGrow(m.AfterAnswers(), m.auths);
    ResourcesGrow(m.AfterAuths(), m.adds);
  }

  lemma PacketFromParts(p: Text, h: Header, q: Run<Query>, a: Run<Record>, b: Run<Record>, c: Run<Record>)
    requires ParseHeader(p) == h
    requires ParseQueries(p, h.queries, HEADER_LENGTH) == Some(q)
    requires ParseRecords(p, h.answers, q.cursor, RR_TYPE_ANSWER) == Some(a)
    requires ParseRecords(p, h.auths, a.cursor, RR_TYPE_AUTH) == Some(b)
    requires ParseRecords(p, h.adds, b.cursor, RR_TYPE_ADD) == Some(c)
    ensures ParsePacket(p) == Some(Packet(h, q.items, (a.items + b.items) + c.items, c.cursor))
  {
    assert ParseSections(p, h, q.cursor) == Some(Run((a.items + b.items) + c.items, c.cursor));
  }
}
