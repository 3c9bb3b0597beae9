/** The responder: a query for its protocol is answered with one composed message. */
module MdnsServer {
  import opened Bytes
  import opened Texts
  import opened Numerals
  import opened Names
  import opened VosBuffer
  import opened Writer
  import opened Composer
  import opened Mdns
  import opened RoundTrip
  import opened Compression

  const DEFAULT_ID: Word16 := 0
  const DEFAULT_TTL: Word32 := 0x0A
  const DEFAULT_BUF_SIZE := 0x200
  const FLAG_AUTHORITATIVE: Word16 := 0x0400

  /** Device and model name of the platform, and the address of the network interface. */
  datatype Device = Device(name: Text, model: Text, ip: Text)
  {
    function Instance(protocol: Text): Text { name + ([DOT] + protocol) }

    function HostName(): Text { name + (ip + Ascii(".local")) }

    function Properties(): Parts
    {
      Cons(Ascii("id=") + name,
      Cons(Ascii("ve=02"),
      Cons(Ascii("md=") + model,
      Cons(Ascii("ic=/setup/icon.png"),
      Cons(Ascii("ca=5"),
      Cons(Ascii("fn=") + name,
      Cons(Ascii("st=0"), Nil)))))))
    }

    function Pointer(protocol: Text): Resource
    {
      Resource(protocol, TYPE_PTR, CLASS_IN, DEFAULT_TTL, PtrData(Instance(protocol)))
    }

    function Service(protocol: Text): Resource
    {
      Resource(Instance(protocol), TYPE_SRV, CLASS_IN, DEFAULT_TTL, SrvData(HostName()))
    }

    function TextRecord(protocol: Text): Resource
    {
      Resource(Instance(protocol), TYPE_TXT, CLASS_IN, DEFAULT_TTL, TxtData(Properties()))
    }

    function AddressRecord(): Resource
    {
      Resource(HostName(), TYPE_ADDRESS, CLASS_IN, DEFAULT_TTL, AddrData(ip))
    }

    function Response(protocol: Text): Message
    {
      Message(DEFAULT_ID, FLAG_RESPONSE + FLAG_AUTHORITATIVE, [Question(protocol, TYPE_PTR)], [Pointer(protocol)], [],
              [Service(protocol), TextRecord(protocol), AddressRecord()])
    }

    /** Devices whose names fit the wire, and whose property strings fit their length byte. */
    ghost predicate Announceable(protocol: Text)
    {
      && NameText(protocol) && |protocol| <= 255
      && NameText(name + ([DOT] + protocol)) && NameText(name + (ip + Ascii(".local")))
      && |name| <= 252 && |model| <= 252 && 0 !in name && 0 !in model
      && IsQuad(ip)
    }
  }

  class MDNSServer {
    const protocol: Text

    constructor ()
      ensures protocol == Ascii("_openflint._tcp.local")
    {
      protocol := Ascii("_openflint._tcp.local");
    }

    constructor ForProtocol(name: Text)
      ensures protocol == Ascii("_") + (name + Ascii("._tcp.local"))
    {
      protocol := Ascii("_") + (name + Ascii("._tcp.local"));
    }

    /** Composes the response in one buffer, with one cache for all its names. */
    method Compose(device: Device) returns (bytes: Text)
      ensures bytes == device.Response(protocol).Composed().bytes
    {
      hide PutQuestion, PutResource, PutQuestions, PutResources, PutHeader;
      var response := new Buffer(DEFAULT_BUF_SIZE);
      var cache := new LabelCache();
      ghost var w1, w2 := AddFront(response, device, cache);
      ghost var w3, w4 := AddAdditionals(response, device, cache);
      StepsCompose(device.Response(protocol), w1, w2, w3, w4, Wire(response.Contents(), cache.entries));
      bytes := if response.data == null then [] else response.data[..response.index];
    }

    /** The header, the question and the answer. */
    method AddFront(response: Buffer, device: Device, cache: LabelCache) returns (ghost w1: Wire, ghost w2: Wire)
      requires response.Valid() && response.Contents() == [] && cache.entries == map[]
      modifies response, response.data, cache
      ensures response.Valid() && (response.data == old(response.data) || fresh(response.data))
      ensures w1 == PutQuestion(device.Response(protocol).Heading(), protocol, TYPE_PTR)
      ensures w2 == PutResource(w1, device.Pointer(protocol))
      ensures Wire(response.Contents(), cache.entries) == w2
    {
      hide PutQuestion, PutResource;
      SetHeader(response, DEFAULT_ID, FLAG_RESPONSE + FLAG_AUTHORITATIVE, 1, 1, 0, 3);
      assert Wire(response.Contents(), cache.entries) == device.Response(protocol).Heading();
      AddQueryPtr(response, protocol, TYPE_PTR, CLASS_UNICAST + CLASS_IN, cache);
      w1 := Wire(response.Contents(), cache.entries);
      AddAnswerPtr(response, protocol, TYPE_PTR, CLASS_IN, DEFAULT_TTL, device.Instance(protocol), cache);
      w2 := Wire(response.Contents(), cache.entries);
    }

    /** The three additional records of the response. */
    method AddAdditionals(response: Buffer, device: Device, cache: LabelCache) returns (ghost w3: Wire, ghost w4: Wire)
      requires response.Valid()
      modifies response, response.data, cache
      ensures response.Valid() && (response.data == old(response.data) || fresh(response.data))
      ensures w3 == PutResource(Wire(old(response.Contents()), old(cache.entries)), device.Service(protocol))
      ensures w4 == PutResource(w3, device.TextRecord(protocol))
      ensures Wire(response.Contents(), cache.entries) == PutResource(w4, device.AddressRecord())
    {
      hide PutResource;
      AddAdditionalSrv(response, device.Instance(protocol), TYPE_SRV, CLASS_IN, DEFAULT_TTL, device.HostName(), cache);
      w3 := Wire(response.Contents(), cache.entries);
      var properties := device.Properties();
      AddAdditionalTxt(response, device.Instance(protocol), TYPE_TXT, CLASS_IN, DEFAULT_TTL, properties, cache);
      w4 := Wire(response.Contents(), cache.entries);
      AddAdditionalAddr(response, device.HostName(), TYPE_ADDRESS, CLASS_IN, DEFAULT_TTL, device.ip, cache);
    }

    /** What is sent back for a packet, if anything. */
    method ParseMessage(packet: Text, device: Device) returns (reply: Option<Text>)
      requires 0 < |packet| < 0x1_0000 && ParsePacket(packet).Some?
      ensures reply == (if Asks(ParsePacket(packet).value, protocol)
                        then Some(device.Response(protocol).Composed().bytes) else None)
    {
      var incoming := new MDNSIncoming(packet);
      if !incoming.IsQuery() {
        return None;
      }
      var matched := incoming.CompareProtocol(protocol);
      if !matched {
        return None;
      }
      var bytes := Compose(device);
      reply := Some(bytes);
    }
  }

  /** A query that names the protocol in one of its questions, as far as the name goes before a NUL. */
  ghost predicate Asks(packet: Packet, protocol: Text)
  {
    packet.header.IsQuery() && exists q :: q in packet.queries && EqualIgnoringCase(CString(q.name), protocol)
  }

  /** One question, one answer and three additional records, put one behind the other, are the message. */
  lemma StepsCompose(m: Message, w1: Wire, w2: Wire, w3: Wire, w4: Wire, w5: Wire)
    requires |m.questions| == 1 && |m.answers| == 1 && m.auths == [] && |m.adds| == 3
    requires w1 == PutQuestion(m.Heading(), m.questions[0].name, m.questions[0].typ)
    requires w2 == PutResource(w1, m.answers[0])
    requires w3 == PutResource(w2, m.adds[0])
    requires w4 == PutResource(w3, m.adds[1])
    requires w5 == PutResource(w4, m.adds[2])
    ensures m.AfterQuestions() == w1 && m.AfterAnswers() == w2 && m.AfterAuths() == w2 && m.Composed() == w5
  {
    OneQuestion(m.Heading(), m.questions);
    OneResource(w1, m.answers);
    assert m.AfterAuths() == PutResources(w2, []);
    ThreeResources(w2, m.adds);
  }

  lemma OneQuestion(w: Wire, qs: seq<Question>)
    requires |qs| == 1
    ensures PutQuestions(w, qs) == PutQuestion(w, qs[0].name, qs[0].typ)
    ensures ParsedQuestions(w, qs) == [ParsedQuestion(w, qs[0])]
  {
    assert qs[1..] == [];
  }

  lemma OneResource(w: Wire, rs: seq<Resource>)
    requires |rs| == 1
    ensures PutResources(w, rs) == PutResource(w, rs[0])
    ensures forall s :: ParsedResources(w, rs, s) == [ParsedResource(w, rs[0], s)]
  {
    assert rs[1..] == [];
  }

  lemma TwoResources(w: Wire, rs: seq<Resource>)
    requires |rs| == 2
    ensures var w1 := PutResource(w, rs[0]);
            && PutResources(w, rs) == PutResource(w1, rs[1])
            && forall s :: ParsedResources(w, rs, s) == [ParsedResource(w, rs[0], s), ParsedResource(w1, rs[1], s)]
  {
    OneResource(PutResource(w, rs[0]), rs[1..]);
  }

  lemma ThreeResources(w: Wire, rs: seq<Resource>)
    requires |rs| == 3
    ensures var w1 := PutResource(w, rs[0]);
            var w2 := PutResource(w1, rs[1]);
            && PutResources(w, rs) == PutResource(w2, rs[2])
            && forall s :: ParsedResources(w, rs, s)
                 == [ParsedResource(w, rs[0], s), ParsedResource(w1, rs[1], s), ParsedResource(w2, rs[2], s)]
  {
    TwoResources(PutResource(w, rs[0]), rs[1..]);
  }

  // ---------------------------------------------------------------- the response fits, and is read back

  lemma {:induction false} NoEmptyKey(elems: Parts, pos: nat, cache: Cache)
    requires Components(elems) && [] !in cache
    ensures [] !in EncodeName(elems, pos, cache).cache
    decreases elems
  {
    if elems.Cons? && Join(elems, DOT) !in cache {
      SuffixIsShorter(elems);
      NoEmptyKey(elems.tail, pos + |Piece(elems.head)|, cache[Join(elems, DOT) := Low16(pos)]);
    }
  }

  lemma NameSize(name: Text, pos: nat, cache: Cache)
    requires NameText(name) && [] !in cache
    ensures var e := EncodeName(Split(name, DOT), pos, cache);
            |e.bytes| <= |name| + 2 && [] !in e.cache
  {
    JoinOfSplit(name, DOT);
    CompressionSaves(Split(name, DOT), pos, cache);
    NoEmptyKey(Split(name, DOT), pos, cache);
  }

  function DataSize(d: RData): nat
  {
    match d
    case PtrData(target) => |target| + 2
    case SrvData(host) => |host| + 8
    case TxtData(strings) => |StringsBytes(strings)|
    case AddrData(ip) => 4
  }

  ghost predicate DataNames(d: RData)
  {
    (d.PtrData? ==> NameText(d.target)) && (d.SrvData? ==> NameText(d.host))
  }

  lemma DataSizeBounds(d: RData, pos: nat, cache: Cache)
    requires DataNames(d) && [] !in cache
    ensures |EncodeData(d, pos, cache).bytes| <= DataSize(d) && [] !in EncodeData(d, pos, cache).cache
  {
    match d {
      case PtrData(target) => NameSize(target, pos, cache);
      case SrvData(host) => NameSize(host, pos + 6, cache);
      case TxtData(strings) =>
      case AddrData(ip) => AddressBytesLength(Split(ip, DOT));
    }
  }

  lemma ResourceSize(w: Wire, r: Resource)
    requires NameText(r.name) && DataNames(r.data) && [] !in w.cache
    ensures |PutResource(w, r).bytes| <= |w.bytes| + |r.name| + 12 + DataSize(r.data)
    ensures [] !in PutResource(w, r).cache
  {
    NameSize(r.name, |w.bytes|, w.cache);
    var h := PutHead(w, r);
    DataSizeBounds(r.data, |h.bytes| + 2, h.cache);
  }

  lemma QuestionSize(w: Wire, name: Text, typ: Word16)
    requires NameText(name) && [] !in w.cache
    ensures |PutQuestion(w, name, typ).bytes| <= |w.bytes| + |name| + 6
    ensures [] !in PutQuestion(w, name, typ).cache
  {
    NameSize(name, |w.bytes|, w.cache);
  }

  /** A property string of moderate length keeps all its bytes. */
  lemma ShortString(t: Text)
    requires 1 <= |t| <= 255 && 0 !in t
    ensures |Piece(t)| <= 256 && Low8(|CString(t)|) != 0
  {
    CStringWhole(t);
    PieceLength(t);
  }

  lemma PropertiesFit(device: Device)
    requires |device.name| <= 252 && |device.model| <= 252 && 0 !in device.name && 0 !in device.model
    ensures NoLengthVanishes(device.Properties()) && |StringsBytes(device.Properties())| <= 7 * 256
  {
    SevenFit(Ascii("id=") + device.name, Ascii("ve=02"), Ascii("md=") + device.model, Ascii("ic=/setup/icon.png"),
             Ascii("ca=5"), Ascii("fn=") + device.name, Ascii("st=0"));
  }

  lemma SevenFit(s1: Text, s2: Text, s3: Text, s4: Text, s5: Text, s6: Text, s7: Text)
    requires forall s :: s in [s1, s2, s3, s4, s5, s6, s7] ==> 1 <= |s| <= 255 && 0 !in s
    ensures var all := Cons(s1, Cons(s2, Cons(s3, Cons(s4, Cons(s5, Cons(s6, Cons(s7, Nil)))))));
            NoLengthVanishes(all) && |StringsBytes(all)| <= 7 * 256
  {
    var seven := [s1, s2, s3, s4, s5, s6, s7];
    assert forall k :: 0 <= k < 7 ==> seven[k] in seven;
    StringsFit(s7, Nil, 0);
    StringsFit(s6, Cons(s7, Nil), 1);
    StringsFit(s5, Cons(s6, Cons(s7, Nil)), 2);
    var four := Cons(s4, Cons(s5, Cons(s6, Cons(s7, Nil))));
    StringsFit(s4, four.tail, 3);
    StringsFit(s3, four, 4);
    StringsFit(s2, Cons(s3, four), 5);
    StringsFit(s1, Cons(s2, Cons(s3, four)), 6);
  }

  lemma StringsFit(s: Text, rest: Parts, n: nat)
    requires 1 <= |s| <= 255 && 0 !in s
    requires NoLengthVanishes(rest) && |StringsBytes(rest)| <= n * 256
    ensures NoLengthVanishes(Cons(s, rest)) && |StringsBytes(Cons(s, rest))| <= (n + 1) * 256
  {
    ShortString(s);
  }

  lemma QuadLength(ip: Text)
    requires IsQuad(ip)
    ensures |ip| <= 15
  {
    var a: Byte, b: Byte, c: Byte, d: Byte :| ip == Quad(a, b, c, d);
    ByteDigits(a);
    ByteDigits(b);
    ByteDigits(c);
    ByteDigits(d);
    var four := Cons(Numeral(d, 10), Nil);
    var three := Cons(Numeral(c, 10), four);
    var two := Cons(Numeral(b, 10), three);
    assert |Join(two, DOT)| <= 11 by { assert |Join(three, DOT)| <= 7; }
  }

  lemma ByteDigits(a: Byte)
    ensures 1 <= |Numeral(a, 10)| <= 3
  {
    assert Power(10, 1) == 10 && Power(10, 2) == 100 && Power(10, 3) == 1000;
    NumeralLength(a, 10, 3);
  }

  /** The response is far below the reach of a pointer. */
  lemma ResponseFits(device: Device, protocol: Text)
    requires device.Announceable(protocol)
    ensures |device.Response(protocol).Composed().bytes| <= OFFSET_LIMIT
  {
    hide PutQuestion, PutResource, PutQuestions, PutResources;
    var m := device.Response(protocol);
    var w0 := m.Heading();
    var w1 := PutQuestion(w0, protocol, TYPE_PTR);
    var w2 := PutResource(w1, device.Pointer(protocol));
    var w3 := PutResource(w2, device.Service(protocol));
    var w4 := PutResource(w3, device.TextRecord(protocol));
    var w5 := PutResource(w4, device.AddressRecord());
    StepsCompose(m, w1, w2, w3, w4, w5);
    SizesFit(device, protocol, w0, w1, w2, w3, w4, w5);
  }

  lemma SizesFit(device: Device, protocol: Text, w0: Wire, w1: Wire, w2: Wire, w3: Wire, w4: Wire, w5: Wire)
    requires device.Announceable(protocol)
    requires |w0.bytes| == HEADER_LENGTH && w0.cache == map[]
    requires w1 == PutQuestion(w0, protocol, TYPE_PTR)
    requires w2 == PutResource(w1, device.Pointer(protocol))
    requires w3 == PutResource(w2, device.Service(protocol))
    requires w4 == PutResource(w3, device.TextRecord(protocol))
    requires w5 == PutResource(w4, device.AddressRecord())
    ensures |w5.bytes| <= OFFSET_LIMIT
  {
    hide PutQuestion, PutResource;
    QuadLength(device.ip);
    PropertiesFit(device);
    QuestionSize(w0, protocol, TYPE_PTR);
    ResourceSize(w1, device.Pointer(protocol));
    ResourceSize(w2, device.Service(protocol));
    ResourceSize(w3, device.TextRecord(protocol));
    ResourceSize(w4, device.AddressRecord());
  }

  lemma ResponseIsCarried(device: Device, protocol: Text)
    requires device.Announceable(protocol)
    ensures var m := device.Response(protocol);
            && m.Countable() && AllNames(m.questions)
            && AllCarried(m.answers) && AllCarried(m.auths) && AllCarried(m.adds)
  {
    PropertiesFit(device);
  }

  predicate Says(rec: Record, name: Text, typ: Word16, data: RecordData, section: Byte)
  {
    rec.name == name && rec.typ == typ && rec.cls == 1 && rec.ttl == 10 && rec.data == data && rec.section == section
  }

  /** A string behind its length byte. */
  function Counted(s: Text): Text
    requires |s| < 256
  {
    [|s|] + s
  }

  /**
    The packet k, parsed from the bytes p, is the answer for a device: one question for the
    protocol; a pointer from the protocol to the instance; the service of the instance, with
    priority 0, weight 0, port 9431 and the host; its text record; the address of the host; and
    the cursor exactly at the end.
   */
  predicate IsResponse(k: Packet, p: Text, name: Text, ip: Text, protocol: Text)
  {
    var instance, host := name + ([46] + protocol), name + (ip + Ascii(".local"));
    && k.header == Header(0, 0x8400, 1, 1, 0, 3)
    && k.cursor == |p|
    && |k.queries| == 1 && |k.records| == 4
    && k.queries[0].name == protocol && k.queries[0].typ == 12 && k.queries[0].cls == 0x8001
    && Says(k.records[0], protocol, 12, Host(instance), 1)
    && Says(k.records[1], instance, 33, RecordData.Service(0, 0, 9431, host), 3)
    && Says(k.records[2], instance, 16, Opaque, 3)
    && Says(k.records[3], host, 1, Address(ip), 3)
  }

  /** The seven strings of the text record are the data of the third record, byte for byte. */
  ghost predicate TextIsThere(k: Packet, p: Text, name: Text, model: Text)
  {
    && |k.queries| == 1 && |k.records| == 4 && |name| <= 252 && |model| <= 252 &&
    var strings := Counted(Ascii("id=") + name) + (Counted(Ascii("ve=02")) + (Counted(Ascii("md=") + model)
                 + (Counted(Ascii("ic=/setup/icon.png")) + (Counted(Ascii("ca=5")) + (Counted(Ascii("fn=") + name)
                 + Counted(Ascii("st=0")))))));
    var end := 12 + k.queries[0].length as int + k.records[0].length as int + k.records[1].length as int
             + k.records[2].length as int;
    k.records[2].dataLength == |strings| && 0 <= end - |strings| && Holds(p, end - |strings|, strings)
  }

  /** Parsing the response finds everything that is announced, under its name, in its place. */
  lemma ResponseRoundTrip(device: Device, protocol: Text)
    requires device.Announceable(protocol)
    ensures var p := device.Response(protocol).Composed().bytes;
            && ParsePacket(p).Some?
            && IsResponse(ParsePacket(p).value, p, device.name, device.ip, protocol)
            && TextIsThere(ParsePacket(p).value, p, device.name, device.model)
  {
    hide ParsePacket, PutQuestion, PutResource, PutQuestions, PutResources, Message.Parsed, Message.Composed;
    hide IsResponse, TextIsThere, Device.Response, ParsedQuestion, ParsedResource, Shows, Device.Announceable;
    hide Device.Pointer, Device.Service, Device.TextRecord, Device.AddressRecord, AllCarried, AllNames, PutHeader;
    var m := device.Response(protocol);
    ResponseFits(device, protocol);
    ResponseIsCarried(device, protocol);
    MessageRoundTrip(m);
    var k := m.Parsed();
    var w1, w2, w3, w4, w5 := ResponseParsed(device, protocol, k);
    RecordShows(w1, device.Pointer(protocol), RR_TYPE_ANSWER);
    RecordShows(w2, device.Service(protocol), RR_TYPE_ADD);
    RecordShows(w3, device.TextRecord(protocol), RR_TYPE_ADD);
    RecordShows(w4, device.AddressRecord(), RR_TYPE_ADD);
    QuestionShows(AnswerHead(), protocol);
    ResponseSays(k, w5.bytes, device, protocol);
    TextStands(k, w5.bytes, device, protocol, w1, w2, w3, w4);
  }

  /** The response as a packet, and the message behind each of its parts. */
  lemma ResponseParsed(device: Device, protocol: Text, k: Packet)
      returns (w1: Wire, w2: Wire, w3: Wire, w4: Wire, w5: Wire)
    requires k == device.Response(protocol).Parsed()
    ensures w1 == PutQuestion(AnswerHead(), protocol, TYPE_PTR) && w2 == PutResource(w1, device.Pointer(protocol))
    ensures w3 == PutResource(w2, device.Service(protocol)) && w4 == PutResource(w3, device.TextRecord(protocol))
    ensures w5 == PutResource(w4, device.AddressRecord()) == device.Response(protocol).Composed()
    ensures k.header == Header(DEFAULT_ID, FLAG_RESPONSE + FLAG_AUTHORITATIVE, 1, 1, 0, 3) && k.cursor == |w5.bytes|
    ensures k.queries == [ParsedQuestion(AnswerHead(), Question(protocol, TYPE_PTR))]
    ensures k.records == [ParsedResource(w1, device.Pointer(protocol), RR_TYPE_ANSWER),
                          ParsedResource(w2, device.Service(protocol), RR_TYPE_ADD),
                          ParsedResource(w3, device.TextRecord(protocol), RR_TYPE_ADD),
                          ParsedResource(w4, device.AddressRecord(), RR_TYPE_ADD)]
  {
    hide PutQuestion, PutResource, PutQuestions, PutResources, ParsedQuestion, ParsedResource, PutHeader;
    hide ParsedQuestions, ParsedResources;
    var m := device.Response(protocol);
    w1 := PutQuestion(AnswerHead(), protocol, TYPE_PTR);
    w2 := PutResource(w1, device.Pointer(protocol));
    w3 := PutResource(w2, device.Service(protocol));
    w4 := PutResource(w3, device.TextRecord(protocol));
    w5 := PutResource(w4, device.AddressRecord());
    StepsCompose(m, w1, w2, w3, w4, w5);
    OneQuestion(m.Heading(), m.questions);
    OneResource(w1, m.answers);
    ThreeResources(w2, m.adds);
    NoResources(w2, RR_TYPE_AUTH);
  }

  function AnswerHead(): Wire
  {
    Wire(PutHeader(DEFAULT_ID, FLAG_RESPONSE + FLAG_AUTHORITATIVE, 1, 1, 0, 3), map[])
  }

  lemma NoResources(w: Wire, section: Byte)
    ensures ParsedResources(w, [], section) == []
  {
  }

  /** The record that was parsed says what the resource said. */
  predicate Shows(rec: Record, r: Resource, section: Byte)
  {
    && rec.name == r.name && rec.typ == r.typ && rec.cls == r.cls && rec.ttl == r.ttl
    && rec.data == ParsedData(r.data) && rec.section == section
  }

  lemma RecordShows(w: Wire, r: Resource, section: Byte)
    ensures Shows(ParsedResource(w, r, section), r, section)
  {
    hide PutHead, EncodeData, EncodeName, Low16;
  }

  lemma QuestionShows(w: Wire, protocol: Text)
    ensures var q := ParsedQuestion(w, Question(protocol, TYPE_PTR));
            q.name == protocol && q.typ == 12 && q.cls == 0x8001
  {
    hide PutQuestion, Low16;
  }

  lemma ResponseSays(k: Packet, p: Text, device: Device, protocol: Text)
    requires k.header == Header(0, 0x8400, 1, 1, 0, 3) && k.cursor == |p|
    requires |k.queries| == 1 && |k.records| == 4
    requires k.queries[0].name == protocol && k.queries[0].typ == 12 && k.queries[0].cls == 0x8001
    requires Shows(k.records[0], device.Pointer(protocol), 1) && Shows(k.records[1], device.Service(protocol), 3)
    requires Shows(k.records[2], device.TextRecord(protocol), 3) && Shows(k.records[3], device.AddressRecord(), 3)
    ensures IsResponse(k, p, device.name, device.ip, protocol)
  {
  }

  lemma TextStands(k: Packet, p: Text, device: Device, protocol: Text, w1: Wire, w2: Wire, w3: Wire, w4: Wire)
    requires device.Announceable(protocol)
    requires w1 == PutQuestion(AnswerHead(), protocol, TYPE_PTR) && w2 == PutResource(w1, device.Pointer(protocol))
    requires w3 == PutResource(w2, device.Service(protocol)) && w4 == PutResource(w3, device.TextRecord(protocol))
    requires PutResource(w4, device.AddressRecord()).bytes == p && |p| <= OFFSET_LIMIT
    requires k.queries == [ParsedQuestion(AnswerHead(), Question(protocol, TYPE_PTR))]
    requires k.records == [ParsedResource(w1, device.Pointer(protocol), RR_TYPE_ANSWER),
                           ParsedResource(w2, device.Service(protocol), RR_TYPE_ADD),
                           ParsedResource(w3, device.TextRecord(protocol), RR_TYPE_ADD),
                           ParsedResource(w4, device.AddressRecord(), RR_TYPE_ADD)]
    ensures TextIsThere(k, p, device.name, device.model)
  {
    hide PutQuestion, PutResource, PutHeader, ParsedQuestion, ParsedResource, StringsBytes, Counted;
    hide Device.Pointer, Device.Service, Device.TextRecord, Device.AddressRecord, Device.Properties, Holds;
    ResourceGrows(w4, device.AddressRecord());
    ResponseEnds(p, device, protocol, w1, w2, w3, w4);
    TextIsData(device, protocol);
    TextEnds(p, w3, device.TextRecord(protocol));
    PropertyBytes(device);
  }

  lemma TextIsData(device: Device, protocol: Text)
    ensures device.TextRecord(protocol).data == TxtData(device.Properties())
  {
  }

  /** The lengths of the parts add up. */
  lemma ResponseEnds(p: Text, device: Device, protocol: Text, w1: Wire, w2: Wire, w3: Wire, w4: Wire)
    requires device.Announceable(protocol) && w4.bytes <= p && |p| <= OFFSET_LIMIT
    requires w1 == PutQuestion(AnswerHead(), protocol, TYPE_PTR) && w2 == PutResource(w1, device.Pointer(protocol))
    requires w3 == PutResource(w2, device.Service(protocol)) && w4 == PutResource(w3, device.TextRecord(protocol))
    ensures |w4.bytes| == 12 + ParsedQuestion(AnswerHead(), Question(protocol, TYPE_PTR)).length as int
                        + ParsedResource(w1, device.Pointer(protocol), RR_TYPE_ANSWER).length as int
                        + ParsedResource(w2, device.Service(protocol), RR_TYPE_ADD).length as int
                        + ParsedResource(w3, device.TextRecord(protocol), RR_TYPE_ADD).length as int
  {
    hide PutQuestion, PutResource, PutHeader, ParsedQuestion, ParsedResource, Carried, CacheAgrees;
    hide Device.Pointer, Device.Service, Device.TextRecord, Device.Announceable;
    WholeResponse(device, protocol);
    ResourceGrows(w3, device.TextRecord(protocol));
    ResourceGrows(w2, device.Service(protocol));
    ResourceGrows(w1, device.Pointer(protocol));
    QuestionRoundTrip(p, AnswerHead(), Question(protocol, TYPE_PTR));
    ResourceRoundTrip(p, w1, device.Pointer(protocol), RR_TYPE_ANSWER);
    ResourceRoundTrip(p, w2, device.Service(protocol), RR_TYPE_ADD);
    ResourceRoundTrip(p, w3, device.TextRecord(protocol), RR_TYPE_ADD);
  }

  lemma WholeResponse(device: Device, protocol: Text)
    requires device.Announceable(protocol)
    ensures CacheAgrees(AnswerHead().bytes, AnswerHead().cache) && |AnswerHead().bytes| == 12 && NameText(protocol)
    ensures Carried(device.Pointer(protocol)) && Carried(device.Service(protocol))
    ensures Carried(device.TextRecord(protocol))
  {
    PropertiesFit(device);
  }

  lemma ResourceGrows(w: Wire, r: Resource)
    ensures w.bytes <= PutResource(w, r).bytes
  {
  }

  /** The strings of a text record are the last bytes of it. */
  lemma TextEnds(p: Text, w: Wire, r: Resource)
    requires r.data.TxtData? && PutResource(w, r).bytes <= p && |p| <= OFFSET_LIMIT
    ensures var d, end := StringsBytes(r.data.strings), |PutResource(w, r).bytes|;
            && ParsedResource(w, r, RR_TYPE_ADD).dataLength == |d|
            && |d| <= end && Holds(p, end - |d|, d)
  {
    hide StringsBytes, PutHead, PutData, ParsedResource, Holds;
    TextLast(p, PutHead(w, r), r.data.strings);
    assert PutResource(w, r) == PutData(PutHead(w, r), TxtData(r.data.strings));
    TextLength(w, r);
  }

  lemma TextLength(w: Wire, r: Resource)
    requires r.data.TxtData?
    ensures ParsedResource(w, r, RR_TYPE_ADD).dataLength == Low16(|StringsBytes(r.data.strings)|)
  {
    hide PutHead, StringsBytes, Low16;
  }

  lemma TextLast(p: Text, h: Wire, strings: Parts)
    requires PutData(h, TxtData(strings)).bytes <= p
    ensures var d, end := StringsBytes(strings), |PutData(h, TxtData(strings)).bytes|;
            |d| <= end <= |p| && Holds(p, end - |d|, d)
  {
    hide StringsBytes, StringsCount, Low16, Holds, EncodeName;
    var length := EncodeData(TxtData(strings), |h.bytes| + 2, h.cache).length;
    LastPart(p, h.bytes, Put16(length), StringsBytes(strings));
  }

  lemma LastPart(p: Text, a: Text, b: Text, c: Text)
    requires a + (b + c) <= p
    ensures var end := |a + (b + c)|; |c| <= end <= |p| && Holds(p, end - |c|, c)
  {
    PrefixParts(a, b + c, p);
    HoldsParts(p, |a|, b, c);
  }

  lemma CountedPiece(s: Text, rest: Parts)
    requires |s| <= 255 && 0 !in s
    ensures StringsBytes(Cons(s, rest)) == Counted(s) + StringsBytes(rest)
  {
    CStringWhole(s);
    assert RawBytes(s) == s;
  }

  lemma PropertyBytes(device: Device)
    requires |device.name| <= 252 && |device.model| <= 252 && 0 !in device.name && 0 !in device.model
    ensures StringsBytes(device.Properties()) ==
              Counted(Ascii("id=") + device.name) + (Counted(Ascii("ve=02")) + (Counted(Ascii("md=") + device.model)
              + (Counted(Ascii("ic=/setup/icon.png")) + (Counted(Ascii("ca=5")) + (Counted(Ascii("fn=") + device.name)
              + Counted(Ascii("st=0")))))))
  {
    hide StringsBytes, Piece;
    var s7 := Cons(Ascii("st=0"), Nil);
    var s6 := Cons(Ascii("fn=") + device.name, s7);
    var s5 := Cons(Ascii("ca=5"), s6);
    var s4 := Cons(Ascii("ic=/setup/icon.png"), s5);
    var s3 := Cons(Ascii("md=") + device.model, s4);
    var s2 := Cons(Ascii("ve=02"), s3);
    CountedPiece(s7.head, Nil);
    NoStringsNoBytes(Nil);
    assert Counted(s7.head) + [] == Counted(s7.head);
    CountedPiece(s6.head, s7);
    CountedPiece(s5.head, s6);
    CountedPiece(s4.head, s5);
    CountedPiece(s3.head, s4);
    CountedPiece(s2.head, s3);
    CountedPiece(Ascii("id=") + device.name, s2);
  }

  /** The responder does not answer its own responses. */
  lemma ResponseIsNotAnswered(device: Device, protocol: Text, other: Text)
    requires device.Announceable(protocol)
    ensures var p := device.Response(protocol).Composed().bytes;
            ParsePacket(p).Some? && !Asks(ParsePacket(p).value, other)
  {
    ResponseRoundTrip(device, protocol);
  }

  // ---------------------------------------------------------------- which queries are answered

  /** The same text, but that letters may be upper or lower case. */
  predicate SameLetters(a: Text, b: Text)
  {
    |a| == |b| && forall i :: 0 <= i < |a| ==>
      a[i] == b[i] || (65 <= a[i] <= 90 && b[i] == a[i] + 32) || (65 <= b[i] <= 90 && a[i] == b[i] + 32)
  }

  lemma SameLettersIs(a: Text, b: Text)
    ensures EqualIgnoringCase(a, b) <==> SameLetters(a, b)
  {
    if EqualIgnoringCase(a, b) {
      forall i | 0 <= i < |a|
        ensures a[i] == b[i] || (65 <= a[i] <= 90 && b[i] == a[i] + 32) || (65 <= b[i] <= 90 && a[i] == b[i] + 32)
      {
        assert Lower(a[i]) == Lower(b[i]);
      }
    }
  }

  lemma {:induction false} NamesHoldNoNul(parts: Parts)
    requires Components(parts)
    ensures 0 !in Join(parts, DOT)
  {
    if parts.Cons? {
      NamesHoldNoNul(parts.tail);
    }
  }

  lemma {:induction false} QuestionNames(w: Wire, qs: seq<Question>)
    ensures |ParsedQuestions(w, qs)| == |qs|
    ensures forall i :: 0 <= i < |qs| ==> ParsedQuestions(w, qs)[i].name == qs[i].name
    decreases |qs|
  {
    hide PutQuestion;
    if qs != [] {
      QuestionNames(PutQuestion(w, qs[0].name, qs[0].typ), qs[1..]);
    }
  }

  /**
    A composed message is answered if and only if the highest bit of its flags is clear and one of
    its questions is for the protocol, in whatever letter case.
   */
  lemma QueriesAreAnswered(m: Message, protocol: Text)
    requires m.Countable() && |m.Composed().bytes| <= OFFSET_LIMIT
    requires AllNames(m.questions) && AllCarried(m.answers) && AllCarried(m.auths) && AllCarried(m.adds)
    ensures var k := ParsePacket(m.Composed().bytes);
            k.Some? && (Asks(k.value, protocol) <==>
                          m.flag < 0x8000 && exists q :: q in m.questions && SameLetters(q.name, protocol))
  {
    MessageRoundTrip(m);
    hide ParsePacket, ParsedQuestions, Message.Composed;
    QuestionNames(m.Heading(), m.questions);
    var ps, qs := ParsedQuestions(m.Heading(), m.questions), m.questions;
    forall i | 0 <= i < |qs|
      ensures EqualIgnoringCase(CString(ps[i].name), protocol) <==> SameLetters(qs[i].name, protocol)
    {
      NameIsWhole(qs[i].name);
      SameLettersIs(qs[i].name, protocol);
    }
    AskedByIndex(m.Parsed(), ps, qs, protocol);
  }

  lemma NameIsWhole(name: Text)
    requires NameText(name)
    ensures CString(name) == name
  {
    JoinOfSplit(name, DOT);
    NamesHoldNoNul(Split(name, DOT));
    CStringWhole(name);
  }

  lemma AskedByIndex(k: Packet, ps: seq<Query>, qs: seq<Question>, protocol: Text)
    requires k.queries == ps && |ps| == |qs|
    requires forall i :: 0 <= i < |qs| ==>
               (EqualIgnoringCase(CString(ps[i].name), protocol) <==> SameLetters(qs[i].name, protocol))
    ensures Asks(k, protocol) <==>
              k.header.IsQuery() && exists q :: q in qs && SameLetters(q.name, protocol)
  {
    hide EqualIgnoringCase, SameLetters;
    if q :| q in ps && EqualIgnoringCase(CString(q.name), protocol) {
      var i :| 0 <= i < |ps| && ps[i] == q;
      assert qs[i] in qs;
    }
    if q :| q in qs && SameLetters(q.name, protocol) {
      var i :| 0 <= i < |qs| && qs[i] == q;
      assert ps[i] in ps;
    }
  }

  // ---------------------------------------------------------------- a device that can be announced

  lemma JoinedName(parts: Parts)
    requires parts.Cons? && Components(parts)
    ensures NameText(Join(parts, DOT))
  {
    ComponentsLackDots(parts);
    SplitOfJoin(parts, DOT);
  }

  lemma ShortNumber(a: Byte)
    ensures Component(Numeral(a, 10)) && |Numeral(a, 10)| <= 3
  {
    ByteDigits(a);
    ByteNumeral(a);
    NumeralRoundTrip(a, 10);
    assert forall c :: c in Numeral(a, 10) ==> IsDigit(c, 10);
  }

  /** For example, a device with a short name at any address, under the protocol of the default constructor. */
  lemma AnyDevice(name: Text, model: Text, a: Byte, b: Byte, c: Byte, d: Byte)
    requires 1 <= |name| <= 100 && |model| <= 252 && 0 !in name && DOT !in name && 0 !in model
    ensures Device(name, model, Quad(a, b, c, d)).Announceable(Ascii("_openflint._tcp.local"))
  {
    hide NameText, Numeral, Split;
    DefaultName(name);
    DeviceHost(name, a, b, c, d);
  }

  lemma DefaultName(name: Text)
    requires Component(name)
    ensures NameText(Ascii("_openflint._tcp.local")) && NameText(name + ([DOT] + Ascii("_openflint._tcp.local")))
  {
    hide NameText, Split;
    var parts := Cons(Ascii("_openflint"), Cons(Ascii("_tcp"), Cons(Ascii("local"), Nil)));
    assert DOT == '.' as int;
    assert Join(parts, DOT) == Ascii("_openflint._tcp.local");
    JoinedName(parts);
    JoinedName(Cons(name, parts));
  }

  lemma DeviceHost(name: Text, a: Byte, b: Byte, c: Byte, d: Byte)
    requires Component(name) && |name| <= 100
    ensures NameText(name + (Quad(a, b, c, d) + Ascii(".local")))
  {
    hide NameText, Numeral, Split;
    ShortNumber(a);
    ShortNumber(b);
    ShortNumber(c);
    ShortNumber(d);
    var local := Cons(Ascii("local"), Nil);
    var back := Cons(Numeral(c, 10), Cons(Numeral(d, 10), local));
    var parts := Cons(name + Numeral(a, 10), Cons(Numeral(b, 10), back));
    assert [DOT] + Ascii("local") == Ascii(".local");
    assert Components(local);
    assert Components(Cons(Numeral(d, 10), local));
    assert Components(Cons(Numeral(b, 10), back));
    JoinedName(parts);
    HostJoins(name, Numeral(a, 10), Numeral(b, 10), Numeral(c, 10), Numeral(d, 10), Ascii("local"));
  }

  lemma HostJoins(name: Text, a: Text, b: Text, c: Text, d: Text, local: Text)
    ensures Join(Cons(name + a, Cons(b, Cons(c, Cons(d, Cons(local, Nil))))), DOT)
         == name + (Join(Cons(a, Cons(b, Cons(c, Cons(d, Nil)))), DOT) + ([DOT] + local))
  {
    JoinCons(d, Nil, DOT);
    JoinCons(c, Cons(d, Nil), DOT);
    JoinCons(b, Cons(c, Cons(d, Nil)), DOT);
    JoinCons(a, Cons(b, Cons(c, Cons(d, Nil))), DOT);
    JoinCons(local, Nil, DOT);
    JoinCons(d, Cons(local, Nil), DOT);
    JoinCons(c, Cons(d, Cons(local, Nil)), DOT);
    JoinCons(b, Cons(c, Cons(d, Cons(local, Nil))), DOT);
    JoinCons(name + a, Cons(b, Cons(c, Cons(d, Cons(local, Nil)))), DOT);
    FlattenHost(name, a, b, c, d, [DOT], local);
  }

  lemma FlattenHost(name: Text, a: Text, b: Text, c: Text, d: Text, dot: Text, local: Text)
    ensures (name + a) + (dot + (b + (dot + (c + (dot + (d + (dot + local)))))))
         == name + ((a + (dot + (b + (dot + (c + (dot + d)))))) + (dot + local))
  {
    var tail := dot + local;
    Associate(c, dot + d, tail);
    Associate(dot, d, tail);
    var two := c + (dot + d);
    Associate(dot, two, tail);
    Associate(b, dot + two, tail);
    var three := b + (dot + two);
    Associate(dot, three, tail);
    Associate(a, dot + three, tail);
    Associate(name, a, dot + (three + tail));
  }
}
