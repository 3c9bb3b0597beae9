/**
  Questions and resource records (RFC 1035, sections 4.1.2 and 4.1.3; RFC 2782), appended to a
  message whose names share one cache. Record data is preceded by its length, which the code
  reserves, and fills in once the data is written.
 */
module Composer {
  import opened Bytes
  import opened Texts
  import opened Names
  import opened VosBuffer
  import opened Writer

  const CLASS_IN: Word16 := 0x0001
  const CLASS_UNICAST: Word16 := 0x8000
  const TYPE_ADDRESS: Word16 := 0x01
  const TYPE_NAMESERVER: Word16 := 0x02
  const TYPE_CNAME: Word16 := 0x05
  const TYPE_PTR: Word16 := 0x0C
  const TYPE_TXT: Word16 := 0x10
  const TYPE_AAAA: Word16 := 0x1C
  const TYPE_SRV: Word16 := 0x21
  const SRV_PORT: Word16 := 0x24d7

  /** A message under construction. */
  datatype Wire = Wire(bytes: Text, cache: Cache)

  datatype RData = PtrData(target: Text) | SrvData(host: Text) | TxtData(strings: Parts) | AddrData(ip: Text)

  datatype Resource = Resource(name: Text, typ: Word16, cls: Word16, ttl: Word32, data: RData)

  /** Record data: its bytes, the cache behind it, and the length that is put in front of it. */
  datatype Payload = Payload(bytes: Text, cache: Cache, length: Word16)

  const SRV_HEAD: Text := Put16(0) + (Put16(0) + Put16(SRV_PORT))

  /** The conversion of an int to uint16, for the values -1 and 4 that WriteIp returns. */
  function IpLength(count: int): Word16
    requires count == -1 || count == 4
  {
    if count < 0 then 0xFFFF else count
  }

  function EncodeData(d: RData, pos: nat, cache: Cache): Payload
  {
    match d
    case PtrData(target) =>
      var e := EncodeName(Split(target, DOT), pos, cache);
      Payload(e.bytes, e.cache, Low16(e.counted))
    case SrvData(host) =>
      var e := EncodeName(Split(host, DOT), pos + 6, cache);
      Payload(SRV_HEAD + e.bytes, e.cache, Low16(6 + e.counted))
    case TxtData(strings) => Payload(StringsBytes(strings), cache, Low16(StringsCount(strings)))
    case AddrData(ip) => Payload(IpBytes(ip), cache, IpLength(IpCount(ip)))
  }

  function PutHeader(id: Word16, flag: Word16, queries: Word16, answers: Word16, auths: Word16, adds: Word16): Text
  {
    Put16(id) + (Put16(flag) + (Put16(queries) + (Put16(answers) + (Put16(auths) + Put16(adds)))))
  }

  function PutName(w: Wire, name: Text): Wire
  {
    var e := EncodeName(Split(name, DOT), |w.bytes|, w.cache);
    Wire(w.bytes + e.bytes, e.cache)
  }

  /** The class of a question is fixed, whatever the caller asks for. */
  function PutQuestion(w: Wire, name: Text, typ: Word16): Wire
  {
    var n := PutName(w, name);
    n.(bytes := n.bytes + (Put16(typ) + Put16(CLASS_UNICAST + CLASS_IN)))
  }

  /** The part of a record before its data length. */
  function PutHead(w: Wire, r: Resource): Wire
  {
    var n := PutName(w, r.name);
    n.(bytes := n.bytes + (Put16(r.typ) + (Put16(r.cls) + Put32(r.ttl))))
  }

  /** Data with its length in front. */
  function PutData(h: Wire, data: RData): Wire
  {
    var d := EncodeData(data, |h.bytes| + 2, h.cache);
    Wire(h.bytes + (Put16(d.length) + d.bytes), d.cache)
  }

  function PutResource(w: Wire, r: Resource): Wire { PutData(PutHead(w, r), r.data) }

  // ---------------------------------------------------------------- the code

  method SetHeader(buf: Buffer, id: Word16, flag: Word16, queries: Word16, answers: Word16, auths: Word16, adds: Word16)
    requires buf.Valid()
    modifies buf, buf.data
    ensures buf.Valid() && (buf.data == old(buf.data) || fresh(buf.data))
    ensures buf.Contents() == old(buf.Contents()) + PutHeader(id, flag, queries, answers, auths, adds)
  {
    ghost var c := buf.Contents();
    Write16(buf, id);
    Write16(buf, flag);
    Write16(buf, queries);
    Write16(buf, answers);
    Write16(buf, auths);
    Write16(buf, adds);
    Associate6(c, Put16(id), Put16(flag), Put16(queries), Put16(answers), Put16(auths), Put16(adds));
  }

  lemma Associate6(c: Text, x1: Text, x2: Text, x3: Text, x4: Text, x5: Text, x6: Text)
    ensures (((((c + x1) + x2) + x3) + x4) + x5) + x6 == c + (x1 + (x2 + (x3 + (x4 + (x5 + x6)))))
  {
    Associate(((c + x1) + x2) + x3, x4, x5 + x6);
    Associate((c + x1) + x2, x3, x4 + (x5 + x6));
    Associate(c + x1, x2, x3 + (x4 + (x5 + x6)));
    Associate(c, x1, x2 + (x3 + (x4 + (x5 + x6))));
    Associate((((c + x1) + x2) + x3) + x4, x5, x6);
  }

  method AddQueryPtr(buf: Buffer, name: Text, typ: Word16, cls: Word16, cache: LabelCache)
    requires buf.Valid()
    modifies buf, buf.data, cache
    ensures buf.Valid() && (buf.data == old(buf.data) || fresh(buf.data))
    ensures Wire(buf.Contents(), cache.entries)
         == PutQuestion(Wire(old(buf.Contents()), old(cache.entries)), name, typ)
  {
    var _ := WriteLabel(buf, name, cache);
    ghost var c := buf.Contents();
    Write16(buf, typ);
    Write16(buf, CLASS_UNICAST + CLASS_IN);
    Associate(c, Put16(typ), Put16(CLASS_UNICAST + CLASS_IN));
  }

  method AddRecord(buf: Buffer, name: Text, typ: Word16, cls: Word16, ttl: Word32, cache: LabelCache, ghost r: Resource)
    requires buf.Valid()
    requires r.name == name && r.typ == typ && r.cls == cls && r.ttl == ttl
    modifies buf, buf.data, cache
    ensures buf.Valid() && (buf.data == old(buf.data) || fresh(buf.data))
    ensures Wire(buf.Contents(), cache.entries) == PutHead(Wire(old(buf.Contents()), old(cache.entries)), r)
  {
    var _ := WriteLabel(buf, name, cache);
    ghost var c := buf.Contents();
    Write16(buf, typ);
    Write16(buf, cls);
    Write32(buf, ttl);
    Associate(c + Put16(typ), Put16(cls), Put32(ttl));
    Associate(c, Put16(typ), Put16(cls) + Put32(ttl));
  }

  /** Filling in the reserved length gives the bytes that writing it at once would have given. */
  lemma PatchedSlot(h: Text, slot: Text, d: Text, length: Word16)
    requires |slot| == 2
    ensures Patched((h + slot) + d, |h|, length) == h + (Put16(length) + d)
  {
    var all := (h + slot) + d;
    assert all[..|h|] == h && all[|h| + 2..] == d;
  }

  /** A name written behind a reserved slot and the head of its data, and its length filled in. */
  lemma PatchedName(h: Text, head: Text, name: Text, cache: Cache, length: Word16)
    ensures var base := (h + Put16(0)) + head;
            var r := Continue(Split(name, DOT), Encoded(base, cache, 0));
            var e := EncodeName(Split(name, DOT), |base|, cache);
            && |h| + 2 <= |r.bytes| && r.cache == e.cache && r.counted == e.counted
            && Patched(r.bytes, |h|, length) == h + (Put16(length) + (head + e.bytes))
  {
    var base := (h + Put16(0)) + head;
    var e := EncodeName(Split(name, DOT), |base|, cache);
    ContinueEncodes(Split(name, DOT), Encoded(base, cache, 0));
    Associate(h + Put16(0), head, e.bytes);
    PatchedSlot(h, Put16(0), head + e.bytes, length);
  }

  /** Writes a name that ends the data begun with size bytes, and then the length of all of it. */
  method WriteNameData(buf: Buffer, name: Text, cache: LabelCache, position: nat, size: nat)
    requires buf.Valid() && position + 2 <= buf.index
    modifies buf, buf.data, cache
    ensures buf.Valid() && (buf.data == old(buf.data) || fresh(buf.data))
    ensures var r := Continue(Split(name, DOT), Encoded(old(buf.Contents()), old(cache.entries), 0));
            && position + 2 <= |r.bytes|
            && buf.Contents() == Patched(r.bytes, position, Low16(size + r.counted))
            && cache.entries == r.cache
  {
    ContinueGrows(Split(name, DOT), Encoded(buf.Contents(), cache.entries, 0));
    var length := AppendLabels(buf, name, cache);
    Replace16(buf, Low16(size + length), position);
  }

  lemma {:induction false} ContinueGrows(elems: Parts, acc: Encoded)
    ensures |Continue(elems, acc).bytes| >= |acc.bytes|
    decreases elems
  {
    if elems.Cons? {
      ContinueGrows(elems.tail, AfterLabel(acc, Join(elems, DOT), elems.head));
    }
  }

  /** The data of AddAnswerPtr, with its length in front. */
  method WritePtrData(buf: Buffer, target: Text, cache: LabelCache)
    requires buf.Valid()
    modifies buf, buf.data, cache
    ensures buf.Valid() && (buf.data == old(buf.data) || fresh(buf.data))
    ensures Wire(buf.Contents(), cache.entries)
         == PutData(Wire(old(buf.Contents()), old(cache.entries)), PtrData(target))
  {
    ghost var h, c := buf.Contents(), cache.entries;
    var position := buf.index;
    Write16(buf, 0);
    ghost var b := buf.Contents();
    WriteNameData(buf, target, cache, position, 0);
    PtrDataIs(h, c, target, b, Wire(buf.Contents(), cache.entries));
  }

  lemma PtrDataIs(h: Text, cache: Cache, target: Text, b: Text, w: Wire)
    requires b == h + Put16(0)
    requires var r := Continue(Split(target, DOT), Encoded(b, cache, 0));
             |h| + 2 <= |r.bytes| && w == Wire(Patched(r.bytes, |h|, Low16(0 + r.counted)), r.cache)
    ensures w == PutData(Wire(h, cache), PtrData(target))
  {
    var r := Continue(Split(target, DOT), Encoded(b, cache, 0));
    assert (h + Put16(0)) + [] == h + Put16(0);
    PatchedName(h, [], target, cache, Low16(r.counted));
    var e := EncodeName(Split(target, DOT), |h| + 2, cache);
    assert [] + e.bytes == e.bytes;
  }

  method AddAnswerPtr(buf: Buffer, name: Text, typ: Word16, cls: Word16, ttl: Word32, target: Text, cache: LabelCache)
    requires buf.Valid()
    modifies buf, buf.data, cache
    ensures buf.Valid() && (buf.data == old(buf.data) || fresh(buf.data))
    ensures Wire(buf.Contents(), cache.entries)
         == PutResource(Wire(old(buf.Contents()), old(cache.entries)), Resource(name, typ, cls, ttl, PtrData(target)))
  {
    AddRecord(buf, name, typ, cls, ttl, cache, Resource(name, typ, cls, ttl, PtrData(target)));
    WritePtrData(buf, target, cache);
  }

  /** The data of AddAdditionalSrv, with its length in front. */
  method WriteSrvData(buf: Buffer, host: Text, cache: LabelCache)
    requires buf.Valid()
    modifies buf, buf.data, cache
    ensures buf.Valid() && (buf.data == old(buf.data) || fresh(buf.data))
    ensures Wire(buf.Contents(), cache.entries) == PutData(Wire(old(buf.Contents()), old(cache.entries)), SrvData(host))
  {
    hide Continue, PutData, Patched;
    ghost var h, c := buf.Contents(), cache.entries;
    var position := buf.index;
    Write16(buf, 0);
    WriteSrvHead(buf);
    ghost var b := buf.Contents();
    WriteNameData(buf, host, cache, position, 6);
    SrvDataIs(h, c, host, b, Wire(buf.Contents(), cache.entries));
  }

  lemma SrvDataIs(h: Text, cache: Cache, host: Text, b: Text, w: Wire)
    requires b == (h + Put16(0)) + SRV_HEAD
    requires var r := Continue(Split(host, DOT), Encoded(b, cache, 0));
             |h| + 2 <= |r.bytes| && w == Wire(Patched(r.bytes, |h|, Low16(6 + r.counted)), r.cache)
    ensures w == PutData(Wire(h, cache), SrvData(host))
  {
    hide EncodeName, Patched;
    var r := Continue(Split(host, DOT), Encoded(b, cache, 0));
    PatchedName(h, SRV_HEAD, host, cache, Low16(6 + r.counted));
  }

  method AddAdditionalSrv(buf: Buffer, name: Text, typ: Word16, cls: Word16, ttl: Word32, host: Text, cache: LabelCache)
    requires buf.Valid()
    modifies buf, buf.data, cache
    ensures buf.Valid() && (buf.data == old(buf.data) || fresh(buf.data))
    ensures Wire(buf.Contents(), cache.entries)
         == PutResource(Wire(old(buf.Contents()), old(cache.entries)), Resource(name, typ, cls, ttl, SrvData(host)))
  {
    AddRecord(buf, name, typ, cls, ttl, cache, Resource(name, typ, cls, ttl, SrvData(host)));
    WriteSrvData(buf, host, cache);
  }

  /** Priority, weight and port of a service. */
  method WriteSrvHead(buf: Buffer)
    requires buf.Valid()
    modifies buf, buf.data
    ensures buf.Valid() && buf.Contents() == old(buf.Contents()) + SRV_HEAD
    ensures buf.data == old(buf.data) || fresh(buf.data)
  {
    ghost var c := buf.Contents();
    Write16(buf, 0x0000);
    Write16(buf, 0x0000);
    Write16(buf, SRV_PORT);
    Associate(c + Put16(0), Put16(0), Put16(SRV_PORT));
    Associate(c, Put16(0), Put16(0) + Put16(SRV_PORT));
  }

  /** The data of AddAdditionalTxt, with its length in front. */
  method WriteTxtData(buf: Buffer, strings: Parts, cache: LabelCache)
    requires buf.Valid()
    modifies buf, buf.data
    ensures buf.Valid() && (buf.data == old(buf.data) || fresh(buf.data)) && cache.entries == old(cache.entries)
    ensures Wire(buf.Contents(), cache.entries)
         == PutData(Wire(old(buf.Contents()), old(cache.entries)), TxtData(strings))
  {
    hide StringsBytes, StringsCount, PutData, Patched;
    ghost var h := buf.Contents();
    var position := buf.index;
    Write16(buf, 0);
    var length := WriteVector(buf, strings);
    ghost var b := buf.Contents();
    Replace16(buf, Low16(length), position);
    TxtDataIs(h, cache.entries, strings, b, Wire(buf.Contents(), cache.entries));
  }

  lemma TxtDataIs(h: Text, cache: Cache, strings: Parts, b: Text, w: Wire)
    requires b == (h + Put16(0)) + StringsBytes(strings)
    requires w == Wire(Patched(b, |h|, Low16(StringsCount(strings))), cache)
    ensures w == PutData(Wire(h, cache), TxtData(strings))
  {
    PatchedSlot(h, Put16(0), StringsBytes(strings), Low16(StringsCount(strings)));
  }

  method AddAdditionalTxt(buf: Buffer, name: Text, typ: Word16, cls: Word16, ttl: Word32, strings: Parts,
                          cache: LabelCache)
    requires buf.Valid()
    modifies buf, buf.data, cache
    ensures buf.Valid() && (buf.data == old(buf.data) || fresh(buf.data))
    ensures Wire(buf.Contents(), cache.entries)
         == PutResource(Wire(old(buf.Contents()), old(cache.entries)), Resource(name, typ, cls, ttl, TxtData(strings)))
  {
    AddRecord(buf, name, typ, cls, ttl, cache, Resource(name, typ, cls, ttl, TxtData(strings)));
    WriteTxtData(buf, strings, cache);
  }

  /** The data of AddAdditionalAddr, with its length in front. */
  method WriteAddrData(buf: Buffer, ip: Text, cache: LabelCache)
    requires buf.Valid()
    modifies buf, buf.data
    ensures buf.Valid() && (buf.data == old(buf.data) || fresh(buf.data)) && cache.entries == old(cache.entries)
    ensures Wire(buf.Contents(), cache.entries) == PutData(Wire(old(buf.Contents()), old(cache.entries)), AddrData(ip))
  {
    ghost var h := buf.Contents();
    var position := buf.index;
    Write16(buf, 0);
    var length := WriteIp(buf, ip);
    ghost var b := buf.Contents();
    Replace16(buf, IpLength(length), position);
    AddrDataIs(h, cache.entries, ip, b, Wire(buf.Contents(), cache.entries));
  }

  lemma AddrDataIs(h: Text, cache: Cache, ip: Text, b: Text, w: Wire)
    requires b == (h + Put16(0)) + IpBytes(ip)
    requires w == Wire(Patched(b, |h|, IpLength(IpCount(ip))), cache)
    ensures w == PutData(Wire(h, cache), AddrData(ip))
  {
    PatchedSlot(h, Put16(0), IpBytes(ip), IpLength(IpCount(ip)));
  }

  method AddAdditionalAddr(buf: Buffer, name: Text, typ: Word16, cls: Word16, ttl: Word32, ip: Text, cache: LabelCache)
    requires buf.Valid()
    modifies buf, buf.data, cache
    ensures buf.Valid() && (buf.data == old(buf.data) || fresh(buf.data))
    ensures Wire(buf.Contents(), cache.entries)
         == PutResource(Wire(old(buf.Contents()), old(cache.entries)), Resource(name, typ, cls, ttl, AddrData(ip)))
  {
    AddRecord(buf, name, typ, cls, ttl, cache, Resource(name, typ, cls, ttl, AddrData(ip)));
    WriteAddrData(buf, ip, cache);
  }
}
