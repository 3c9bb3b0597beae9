/** Taking a packet apart: header, questions and records, found by a cursor. */
module Mdns {
  import opened Bytes
  import opened Texts
  import opened Names
  import opened Numerals
  import opened VosBuffer
  import opened Reader
  import opened Composer

  const HEADER_LENGTH := 0x0C
  const RR_TYPE_ANSWER: Byte := 1
  const RR_TYPE_AUTH: Byte := 2
  const RR_TYPE_ADD: Byte := 3
  const FLAG_RESPONSE: Word16 := 0x8000

  datatype Header = Header(id: Word16, flag: Word16, queries: Word16, answers: Word16, auths: Word16, adds: Word16)
  {
    /** (flag & 0x8000) == 0 */
    predicate IsQuery() { flag < FLAG_RESPONSE }
  }

  datatype Query = Query(name: Text, typ: Word16, cls: Word16, length: Word16)

  /** Opaque: the bytes are skipped. Address6 keeps the sixteen bytes in place of their text. */
  datatype RecordData =
    | NoData
    | Opaque
    | Address(text: Text)
    | Address6(bytes: Text)
    | Host(text: Text)
    | Service(priority: Word16, weight: Word16, port: Word16, target: Text)

  datatype Record = Record(name: Text, typ: Word16, cls: Word16, ttl: Word32, dataLength: Word16,
                           data: RecordData, section: Byte, length: Word16)

  /** What a dotted quad looks like: inet_ntop for four bytes. */
  function Quad(a: Byte, b: Byte, c: Byte, d: Byte): Text
  {
    Join(Cons(Numeral(a, 10), Cons(Numeral(b, 10), Cons(Numeral(c, 10), Cons(Numeral(d, 10), Nil)))), DOT)
  }

  // ---------------------------------------------------------------- what is read, as functions of the packet

  /** GetLabel from here, into an empty buffer, comes to an end. */
  ghost predicate LabelDefined(p: Text, i: nat) { i <= |p| ==> Ends(p, i, false, 0, []) }

  ghost function LabelText(p: Text, i: nat): Text
    requires LabelDefined(p, i)
  {
    if i > |p| then [] else Outcome(p, i, false, 0, []).text
  }

  /** The length as the constructors keep it: a refusal is 0xFFFF. */
  ghost function LabelLength(p: Text, i: nat): Word16
    requires LabelDefined(p, i)
  {
    Low16(if i > |p| then 0xFFFF_FFFF else Reported(Outcome(p, i, false, 0, [])))
  }

  ghost function ParseQuery(p: Text, i: nat): Option<Query>
  {
    if !LabelDefined(p, i) then None
    else
      var n := LabelLength(p, i);
      Some(Query(LabelText(p, i), Read16(p, Low16(n + i)), Read16(p, Low16(n + i + 2)), Low16(n + 4)))
  }

  ghost function ParseHost(p: Text, i: nat): Option<RecordData>
  {
    if LabelDefined(p, i) then Some(Host(LabelText(p, i))) else None
  }

  /** The data of a record, at position at, behind its length. Addresses are read without a check. */
  ghost function ParseData(p: Text, typ: Word16, length: Word16, at: nat): Option<RecordData>
  {
    if length == 0 then Some(NoData)
    else if typ == TYPE_ADDRESS then
      if at + 4 <= |p| then Some(Address(Quad(p[at], p[at + 1], p[at + 2], p[at + 3]))) else None
    else if typ == TYPE_NAMESERVER || typ == TYPE_CNAME || typ == TYPE_PTR then ParseHost(p, Low16(at))
    else if typ == TYPE_SRV then
      if LabelDefined(p, Low16(at + 6)) then
        var priority, weight, port := Read16(p, Low16(at)), Read16(p, Low16(at + 2)), Read16(p, Low16(at + 4));
        Some(Service(priority, weight, port, LabelText(p, Low16(at + 6))))
      else None
    else if typ == TYPE_AAAA then
      if at + 16 <= |p| then Some(Address6(p[at..at + 16])) else None
    else Some(Opaque)
  }

  ghost function ParseRecord(p: Text, i: nat, section: Byte): Option<Record>
  {
    if !LabelDefined(p, i) then None
    else
      var n := LabelLength(p, i);
      var typ, length := Read16(p, Low16(n + i)), Read16(p, Low16(n + i + 8));
      match ParseData(p, typ, length, n + i + 10)
      case None => None
      case Some(data) =>
        Some(Record(LabelText(p, i), typ, Read16(p, Low16(n + i + 2)), Read32(p, Low16(n + i + 4)), length,
                    data, section, Low16(n + 10 + length)))
  }

  /** Items in a row, and the cursor behind them. */
  datatype Run<T> = Run(items: seq<T>, cursor: nat)

  ghost function ParseQueries(p: Text, num: nat, cursor: nat): Option<Run<Query>>
  {
    if num == 0 then Some(Run([], cursor))
    else
      match ParseQuery(p, cursor)
      case None => None
      case Some(q) =>
        match ParseQueries(p, num - 1, Low16(cursor + q.length))
        case None => None
        case Some(rest) => Some(Run([q] + rest.items, rest.cursor))
  }

  ghost function ParseRecords(p: Text, num: nat, cursor: nat, section: Byte): Option<Run<Record>>
  {
    if num == 0 then Some(Run([], cursor))
    else
      match ParseRecord(p, cursor, section)
      case None => None
      case Some(r) =>
        match ParseRecords(p, num - 1, Low16(cursor + r.length), section)
        case None => None
        case Some(rest) => Some(Run([r] + rest.items, rest.cursor))
  }

  function ParseHeader(p: Text): Header
  {
    Header(Read16(p, 0), Read16(p, 2), Read16(p, 4), Read16(p, 6), Read16(p, 8), Read16(p, 10))
  }

  datatype Packet = Packet(header: Header, queries: seq<Query>, records: seq<Record>, cursor: nat)

  /** The records of the three sections, one behind the other. */
  ghost function ParseSections(p: Text, h: Header, start: nat): Option<Run<Record>>
  {
    match ParseRecords(p, h.answers, start, RR_TYPE_ANSWER)
    case None => None
    case Some(a) =>
      match ParseRecords(p, h.auths, a.cursor, RR_TYPE_AUTH)
      case None => None
      case Some(b) =>
        match ParseRecords(p, h.adds, b.cursor, RR_TYPE_ADD)
        case None => None
        case Some(c) => Some(Run((a.items + b.items) + c.items, c.cursor))
  }

  /** The whole packet; None where some name in it has no end or some address leaves it. */
  ghost function ParsePacket(p: Text): Option<Packet>
  {
    var h := ParseHeader(p);
    match ParseQueries(p, h.queries, HEADER_LENGTH)
    case None => None
    case Some(q) =>
      match ParseSections(p, h, q.cursor)
      case None => None
      case Some(r) => Some(Packet(h, q.items, r.items, r.cursor))
  }

  // ---------------------------------------------------------------- what is read, byte by byte

  lemma TwoBytes(p: Text, i: nat, b: Text)
    requires Holds(p, i, b) && |b| == 2
    ensures Read16(p, i) == b[0] as int * 256 + b[1] as int
  {
    assert p[i + 0] == b[0] && p[i + 1] == b[1];
  }

  /** A name that is spelled at i, as LabelText sees it. */
  lemma SpelledReads(p: Text, start: nat, i: nat, name: Text)
    requires NameAt(p, start, i, Split(name, DOT))
    ensures i < |p| && LabelDefined(p, i) && LabelText(p, i) == name
    ensures NameLength(p, start, i, Split(name, DOT)) < 0xFFFF_FFFF ==>
              LabelLength(p, i) == Low16(NameLength(p, start, i, Split(name, DOT)))
  {
    NameIsRead(p, start, i, name);
  }

  /** The six words of the header; the packet is a query exactly when the highest bit of its third byte is clear. */
  lemma HeaderReads(p: Text)
    requires |p| >= 12
    ensures ParseHeader(p) == Header(
              p[0] as int * 256 + p[1] as int, p[2] as int * 256 + p[3] as int, p[4] as int * 256 + p[5] as int,
              p[6] as int * 256 + p[7] as int, p[8] as int * 256 + p[9] as int, p[10] as int * 256 + p[11] as int)
    ensures ParseHeader(p).IsQuery() <==> p[2] < 128
  {
    IntegersAreBytes(p, 0);
    IntegersAreBytes(p, 2);
  }

  /** A question: its name, and the four bytes behind it, whatever they are. */
  lemma QuestionReads(p: Text, start: nat, i: nat, name: Text, b: Text)
    requires NameAt(p, start, i, Split(name, DOT))
    requires var next := i + NameLength(p, start, i, Split(name, DOT));
             |b| == 4 && Holds(p, next, b) && next + 4 < 0x1_0000
    ensures ParseQuery(p, i) == Some(Query(name, b[0] as int * 256 + b[1] as int, b[2] as int * 256 + b[3] as int,
                                           NameLength(p, start, i, Split(name, DOT)) + 4))
  {
    var n := NameLength(p, start, i, Split(name, DOT));
    SpelledReads(p, start, i, name);
    assert b == b[..2] + b[2..];
    HoldsParts(p, i + n, b[..2], b[2..]);
    TwoBytes(p, i + n, b[..2]);
    TwoBytes(p, i + n + 2, b[2..]);
  }

  /** Priority, weight and port, and then the target. */
  lemma ServiceReads(p: Text, length: Word16, at: nat, b: Text, start: nat, name: Text)
    requires length > 0 && |b| == 6 && Holds(p, at, b) && at + 6 < 0x1_0000
    requires NameAt(p, start, at + 6, Split(name, DOT))
    ensures ParseData(p, 33, length, at) == Some(Service(
              b[0] as int * 256 + b[1] as int, b[2] as int * 256 + b[3] as int, b[4] as int * 256 + b[5] as int, name))
  {
    SpelledReads(p, start, at + 6, name);
    assert b == b[..2] + (b[2..4] + b[4..]);
    HoldsParts(p, at, b[..2], b[2..4] + b[4..]);
    HoldsParts(p, at + 2, b[2..4], b[4..]);
    TwoBytes(p, at, b[..2]);
    TwoBytes(p, at + 2, b[2..4]);
    TwoBytes(p, at + 4, b[4..]);
  }

  /** Name servers, canonical names and pointers hold a name. */
  lemma HostReads(p: Text, typ: Word16, length: Word16, at: nat, start: nat, name: Text)
    requires (typ == 2 || typ == 5 || typ == 12) && length > 0 && at < 0x1_0000
    requires NameAt(p, start, at, Split(name, DOT))
    ensures ParseData(p, typ, length, at) == Some(Host(name))
  {
    SpelledReads(p, start, at, name);
  }

  /** Addresses are four or sixteen bytes. */
  lemma AddressReads(p: Text, length: Word16, at: nat, b: Text)
    requires length > 0 && Holds(p, at, b)
    ensures |b| == 4 ==> ParseData(p, 1, length, at) == Some(Address(Quad(b[0], b[1], b[2], b[3])))
    ensures |b| == 16 ==> ParseData(p, 28, length, at) == Some(Address6(b))
  {
    if |b| == 4 {
      assert p[at + 0] == b[0] && p[at + 1] == b[1] && p[at + 2] == b[2] && p[at + 3] == b[3];
    } else if |b| == 16 {
      assert p[at..at + 16] == b;
    }
  }

  /** Data is none exactly at length 0, and is skipped exactly at the types that are not taken apart. */
  lemma OtherDataReads(p: Text, typ: Word16, length: Word16, at: nat)
    ensures ParseData(p, typ, length, at) == Some(NoData) <==> length == 0
    ensures ParseData(p, typ, length, at) == Some(Opaque)
       <==> length > 0 && typ !in {1, 2, 5, 12, 28, 33}
  {
  }

  /** A record: its name, ten bytes with type, class, ttl and data length, and its data behind them. */
  lemma RecordReads(p: Text, start: nat, i: nat, name: Text, b: Text, section: Byte)
    requires NameAt(p, start, i, Split(name, DOT)) && |b| == 10
    requires var n := NameLength(p, start, i, Split(name, DOT));
             Holds(p, i + n, b) && n + 10 + b[8] as int * 256 + b[9] as int < 0x1_0000 && i + n + 10 < 0x1_0000
    ensures var n := NameLength(p, start, i, Split(name, DOT));
            var typ, length := b[0] as int * 256 + b[1] as int, b[8] as int * 256 + b[9] as int;
            ParseRecord(p, i, section) ==
              match ParseData(p, typ, length, i + n + 10)
              case None => None
              case Some(data) =>
                Some(Record(name, typ, b[2] as int * 256 + b[3] as int,
                            b[4] as int * 16777216 + b[5] as int * 65536 + b[6] as int * 256 + b[7] as int,
                            length, data, section, n + 10 + length))
  {
    hide ParseData, LabelDefined, LabelText, LabelLength, NameAt;
    var n := NameLength(p, start, i, Split(name, DOT));
    SpelledReads(p, start, i, name);
    TenBytes(p, i + n, b);
  }

  lemma TenBytes(p: Text, at: nat, b: Text)
    requires Holds(p, at, b) && |b| == 10
    ensures Read16(p, at) == b[0] as int * 256 + b[1] as int
    ensures Read16(p, at + 2) == b[2] as int * 256 + b[3] as int
    ensures Read32(p, at + 4) == b[4] as int * 16777216 + b[5] as int * 65536 + b[6] as int * 256 + b[7] as int
    ensures Read16(p, at + 8) == b[8] as int * 256 + b[9] as int
  {
    assert forall k {:trigger b[k]} :: 0 <= k < 10 ==> p[at + k] == b[k];
    assert p[at + 0] == b[0] && p[at + 1] == b[1] && p[at + 2] == b[2] && p[at + 3] == b[3];
    assert p[at + 4] == b[4] && p[at + 5] == b[5] && p[at + 6] == b[6] && p[at + 7] == b[7];
    assert p[at + 8] == b[8] && p[at + 9] == b[9];
    IntegersAreBytes(p, at);
    IntegersAreBytes(p, at + 2);
    IntegersAreBytes(p, at + 4);
    IntegersAreBytes(p, at + 8);
  }

  /**
    Where a pointer out of the packet makes the reader refuse a name, its length is 0xFFFF: type and
    class are then read from one byte in front of the name on, and the cursor moves three bytes.
   */
  lemma RefusedQuestionReads(p: Text, i: nat)
    requires 0 < i <= |p| && i < 0xFFFF && LabelDefined(p, i) && Outcome(p, i, false, 0, []).Refused?
    ensures ParseQuery(p, i) == Some(Query(LabelText(p, i), Read16(p, i - 1), Read16(p, i + 1), 3))
  {
    assert Low16(0xFFFF_FFFF) == 0xFFFF;
    assert LabelLength(p, i) == 0xFFFF;
    assert Low16(0xFFFF + i) == i - 1 && Low16(0xFFFF + i + 2) == i + 1 && Low16(0xFFFF + 4) == 3;
  }

  lemma {:induction false} QueriesCounted(p: Text, num: nat, cursor: nat)
    ensures var run := ParseQueries(p, num, cursor); run.Some? ==> |run.value.items| == num
    decreases num
  {
    if num > 0 && ParseQuery(p, cursor).Some? {
      QueriesCounted(p, num - 1, Low16(cursor + ParseQuery(p, cursor).value.length));
    }
  }

  lemma {:induction false} RecordsCounted(p: Text, num: nat, cursor: nat, section: Byte)
    ensures var run := ParseRecords(p, num, cursor, section);
            run.Some? ==> |run.value.items| == num && forall r :: r in run.value.items ==> r.section == section
    decreases num
  {
    if num > 0 && ParseRecord(p, cursor, section).Some? {
      RecordsCounted(p, num - 1, Low16(cursor + ParseRecord(p, cursor, section).value.length), section);
    }
  }

  /** Whatever is parsed, there are as many questions and records as the header says, the sections in order. */
  lemma SectionsCounted(p: Text)
    requires ParsePacket(p).Some?
    ensures var k := ParsePacket(p).value;
            && |k.queries| == k.header.queries
            && |k.records| == k.header.answers as int + k.header.auths as int + k.header.adds as int
            && forall i :: 0 <= i < |k.records| ==>
                 k.records[i].section == if i < k.header.answers then 1
                                         else if i < k.header.answers as int + k.header.auths as int then 2 else 3
  {
    hide ParseQueries, ParseRecords;
    var h := ParseHeader(p);
    QueriesCounted(p, h.queries, HEADER_LENGTH);
    var start := ParseQueries(p, h.queries, HEADER_LENGTH).value.cursor;
    var a, b, c := SectionsAre(p, h, start, []);
    RecordsCounted(p, h.answers, start, RR_TYPE_ANSWER);
    RecordsCounted(p, h.auths, a.cursor, RR_TYPE_AUTH);
    RecordsCounted(p, h.adds, b.cursor, RR_TYPE_ADD);
    assert ParsePacket(p).value.records == (a.items + b.items) + c.items;
  }

  /** A packet with a question whose name is a pointer to itself: the constructor never returns. */
  lemma LoopingQuestion(p: Text)
    requires ParseHeader(p).queries > 0 && HEADER_LENGTH <= |p|
    requires Read8(p, HEADER_LENGTH) >= LABEL_LIMIT && Low14(Read16(p, HEADER_LENGTH)) == HEADER_LENGTH
    ensures !LabelDefined(p, HEADER_LENGTH) && ParsePacket(p) == None
  {
    forall fuel: nat
      ensures Walk(p, HEADER_LENGTH, false, 0, [], fuel) == Looping
    {
      SelfPointerLoops(p, HEADER_LENGTH, false, 0, [], fuel);
    }
  }

  /** Such a query, and one whose pointer leads back to the label in front of it, can come from anywhere. */
  lemma LoopingQueries()
    ensures ParsePacket([0, 0, 0, 0, 0, 1, 0, 0, 0, 0, 0, 0, 0xC0, 0x0C]) == None
    ensures ParsePacket([0, 0, 0, 0, 0, 1, 0, 0, 0, 0, 0, 0, 1, 97, 0xC0, 0x0C]) == None
  {
    LoopingQuestion([0, 0, 0, 0, 0, 1, 0, 0, 0, 0, 0, 0, 0xC0, 0x0C]);
    var q: Text := [0, 0, 0, 0, 0, 1, 0, 0, 0, 0, 0, 0, 1, 97, 0xC0, 0x0C];
    forall fuel: nat
      ensures Walk(q, 12, false, 0, [], fuel) == Looping
    {
      BackwardPointerLoops(q, 12, 14, false, 0, [], fuel);
    }
    assert !LabelDefined(q, 12);
  }

  // ---------------------------------------------------------------- the code

  method ReadLabel(p: Text, i: Word16) returns (text: Text, length: Word16)
    requires |p| < 0x1_0000 && LabelDefined(p, i)
    ensures text == LabelText(p, i) && length == LabelLength(p, i)
  {
    var name := new Buffer(128);
    var n := GetLabel(p, i, name);
    length := Low16(n);
    text := name.data[..name.index];
  }

  method ReadQuery(p: Text, i: Word16) returns (q: Query)
    requires |p| < 0x1_0000 && ParseQuery(p, i).Some?
    ensures q == ParseQuery(p, i).value
  {
    var name, n := ReadLabel(p, i);
    q := Query(name, Read16(p, Low16(n + i)), Read16(p, Low16(n + i + 2)), Low16(n + 4));
  }

  method ReadData(p: Text, typ: Word16, length: Word16, at: nat) returns (data: RecordData)
    requires |p| < 0x1_0000 && ParseData(p, typ, length, at).Some?
    ensures data == ParseData(p, typ, length, at).value
  {
    if length == 0 {
      return NoData;
    }
    if typ == TYPE_ADDRESS {
      data := Address(Quad(p[at], p[at + 1], p[at + 2], p[at + 3]));
    } else if typ == TYPE_NAMESERVER || typ == TYPE_CNAME || typ == TYPE_PTR {
      var name, _ := ReadLabel(p, Low16(at));
      data := Host(name);
    } else if typ == TYPE_SRV {
      var priority, weight, port := Read16(p, Low16(at)), Read16(p, Low16(at + 2)), Read16(p, Low16(at + 4));
      var name, _ := ReadLabel(p, Low16(at + 6));
      data := Service(priority, weight, port, name);
    } else if typ == TYPE_AAAA {
      data := Address6(p[at..at + 16]);
    } else {
      data := Opaque;
    }
  }

  method ReadRecord(p: Text, i: Word16, section: Byte) returns (r: Record)
    requires |p| < 0x1_0000 && ParseRecord(p, i, section).Some?
    ensures r == ParseRecord(p, i, section).value
  {
    var name, n := ReadLabel(p, i);
    var typ := Read16(p, Low16(n + i));
    var cls := Read16(p, Low16(n + i + 2));
    var ttl := Read32(p, Low16(n + i + 4));
    var length := Read16(p, Low16(n + i + 8));
    var data := ReadData(p, typ, length, n + i + 10);
    r := Record(name, typ, cls, ttl, length, data, section, Low16(n + 10 + length));
  }

  class MDNSIncoming {
    var header: Header
    var queries: seq<Query>
    var records: seq<Record>

    constructor (p: Text)
      requires 0 < |p| < 0x1_0000 && ParsePacket(p).Some?
      ensures var all := ParsePacket(p).value;
              header == all.header && queries == all.queries && records == all.records
    {
      header := ParseHeader(p);
      queries, records := [], [];
      new;
      var cursor := ReadQueries(p, header.queries, HEADER_LENGTH);
      ReadSections(p, cursor);
    }

    /** The three sections of records, one behind the other. */
    method ReadSections(p: Text, start: Word16)
      requires |p| < 0x1_0000 && ParseSections(p, header, start).Some?
      modifies this`records
      ensures records == old(records) + ParseSections(p, header, start).value.items
    {
      ghost var a, b, c := SectionsAre(p, header, start, records);
      var cursor := ReadRecords(p, header.answers, start, RR_TYPE_ANSWER);
      cursor := ReadRecords(p, header.auths, cursor, RR_TYPE_AUTH);
      cursor := ReadRecords(p, header.adds, cursor, RR_TYPE_ADD);
    }

    /** The loop over the questions. */
    method ReadQueries(p: Text, num: nat, start: Word16) returns (cursor: Word16)
      requires |p| < 0x1_0000 && ParseQueries(p, num, start).Some?
      modifies this`queries
      ensures var run := ParseQueries(p, num, start).value;
              queries == old(queries) + run.items && cursor == run.cursor
    {
      hide ParseQuery, ParseRecord;
      ghost var before, rest := queries, ParseQueries(p, num, start);
      ghost var goal, done: seq<Query> := rest, [];
      cursor := start;
      var i := 0;
      while i < num
        invariant 0 <= i <= num
        invariant queries == before + done
        invariant rest == ParseQueries(p, num - i, cursor) && Continues(goal, done, rest)
      {
        rest := QueriesStep(goal, before, done, p, num - i, cursor);
        var q := ReadQuery(p, cursor);
        cursor := Low16(cursor + q.length);
        queries := queries + [q];
        done := done + [q];
        i := i + 1;
      }
    }

    /** The loop over the records of one section. */
    method ReadRecords(p: Text, num: nat, start: Word16, section: Byte) returns (cursor: Word16)
      requires |p| < 0x1_0000 && ParseRecords(p, num, start, section).Some?
      modifies this`records
      ensures var run := ParseRecords(p, num, start, section).value;
              records == old(records) + run.items && cursor == run.cursor
    {
      hide ParseQuery, ParseRecord;
      ghost var before, rest := records, ParseRecords(p, num, start, section);
      ghost var goal, done: seq<Record> := rest, [];
      cursor := start;
      var i := 0;
      while i < num
        invariant 0 <= i <= num
        invariant records == before + done
        invariant rest == ParseRecords(p, num - i, cursor, section) && Continues(goal, done, rest)
      {
        rest := RecordsStep(goal, before, done, p, num - i, cursor, section);
        var r := ReadRecord(p, cursor, section);
        cursor := Low16(cursor + r.length);
        records := records + [r];
        done := done + [r];
        i := i + 1;
      }
    }

    predicate IsQuery()
      reads this
    {
      header.IsQuery()
    }

    /** Whether some question names the protocol, letter case aside; a question's name is seen up to its first NUL. */
    method CompareProtocol(protocol: Text) returns (match_: bool)
      ensures match_ <==> exists q :: q in queries && EqualIgnoringCase(CString(q.name), protocol)
    {
      var i := 0;
      while i < |queries|
        invariant 0 <= i <= |queries|
        invariant forall k :: 0 <= k < i ==> !EqualIgnoringCase(CString(queries[k].name), protocol)
      {
        if EqualIgnoringCase(CString(queries[i].name), protocol) {
          return true;
        }
        i := i + 1;
      }
      return false;
    }
  }

  /** One more question read: the run of the remaining ones completes the same goal. */
  lemma QueriesStep(goal: Option<Run<Query>>, before: seq<Query>, done: seq<Query>, p: Text, num: nat, cursor: Word16)
      returns (rest: Option<Run<Query>>)
    requires num > 0 && Continues(goal, done, ParseQueries(p, num, cursor))
    ensures ParseQuery(p, cursor).Some?
    ensures var q := ParseQuery(p, cursor).value;
            && rest == ParseQueries(p, num - 1, Low16(cursor + q.length))
            && Continues(goal, done + [q], rest)
            && (before + done) + [q] == before + (done + [q])
  {
    var q := ParseQuery(p, cursor).value;
    rest := ParseQueries(p, num - 1, Low16(cursor + q.length));
    AppendItem(before, done, q, rest.value.items);
  }

  lemma SectionsAre(p: Text, h: Header, start: nat, before: seq<Record>)
      returns (a: Run<Record>, b: Run<Record>, c: Run<Record>)
    requires ParseSections(p, h, start).Some?
    ensures Some(a) == ParseRecords(p, h.answers, start, RR_TYPE_ANSWER)
    ensures Some(b) == ParseRecords(p, h.auths, a.cursor, RR_TYPE_AUTH)
    ensures Some(c) == ParseRecords(p, h.adds, b.cursor, RR_TYPE_ADD)
    ensures ((before + a.items) + b.items) + c.items == before + ParseSections(p, h, start).value.items
  {
    a := ParseRecords(p, h.answers, start, RR_TYPE_ANSWER).value;
    b := ParseRecords(p, h.auths, a.cursor, RR_TYPE_AUTH).value;
    c := ParseRecords(p, h.adds, b.cursor, RR_TYPE_ADD).value;
    assert ((before + a.items) + b.items) + c.items == before + ((a.items + b.items) + c.items);
  }

  /** One more record read: the run of the remaining ones completes the same goal. */
  lemma RecordsStep(goal: Option<Run<Record>>, before: seq<Record>, done: seq<Record>,
                    p: Text, num: nat, cursor: Word16, section: Byte)
      returns (rest: Option<Run<Record>>)
    requires num > 0 && Continues(goal, done, ParseRecords(p, num, cursor, section))
    ensures ParseRecord(p, cursor, section).Some?
    ensures var r := ParseRecord(p, cursor, section).value;
            && rest == ParseRecords(p, num - 1, Low16(cursor + r.length), section)
            && Continues(goal, done + [r], rest)
            && (before + done) + [r] == before + (done + [r])
  {
    var r := ParseRecord(p, cursor, section).value;
    rest := ParseRecords(p, num - 1, Low16(cursor + r.length), section);
    AppendItem(before, done, r, rest.value.items);
  }

  /** With items already done, the rest of a run completes the goal. */
  ghost predicate Continues<T>(goal: Option<Run<T>>, done: seq<T>, rest: Option<Run<T>>)
  {
    goal.Some? && rest.Some? && goal.value.items == done + rest.value.items && goal.value.cursor == rest.value.cursor
  }

  lemma AppendItem<T>(before: seq<T>, done: seq<T>, x: T, rest: seq<T>)
    ensures (before + done) + [x] == before + (done + [x])
    ensures done + ([x] + rest) == (done + [x]) + rest
  {
  }

  function Lower(c: Byte): Byte { if 65 <= c <= 90 then c + 32 else c }

  predicate EqualIgnoringCase(a: Text, b: Text)
  {
    |a| == |b| && forall i :: 0 <= i < |a| ==> Lower(a[i]) == Lower(b[i])
  }
}
