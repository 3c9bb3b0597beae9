/** What every sequence of composer calls keeps, and when a data length is the right one. */
module Agreement {
  import opened Bytes
  import opened Texts
  import opened Names
  import opened Reader
  import opened Writer
  import opened Composer
  import opened Mdns
  import opened RoundTrip

  datatype Call = AddQuestion(name: Text, typ: Word16) | AddResource(r: Resource)

  function Perform(w: Wire, call: Call): Wire
  {
    match call
    case AddQuestion(name, typ) => PutQuestion(w, name, typ)
    case AddResource(r) => PutResource(w, r)
  }

  function PerformAll(w: Wire, calls: seq<Call>): Wire
    decreases |calls|
  {
    if calls == [] then w else PerformAll(Perform(w, calls[0]), calls[1..])
  }

  /** Every name in the call can be written; strings, addresses, types and lengths are arbitrary. */
  ghost predicate NamesWritable(call: Call)
  {
    match call
    case AddQuestion(name, _) => NameText(name)
    case AddResource(r) =>
      && NameText(r.name)
      && (r.data.PtrData? ==> NameText(r.data.target))
      && (r.data.SrvData? ==> NameText(r.data.host))
  }

  lemma NameKeepsAgreement(w: Wire, name: Text)
    requires CacheAgrees(w.bytes, w.cache) && NameText(name) && |PutName(w, name).bytes| <= OFFSET_LIMIT
    ensures CacheAgrees(PutName(w, name).bytes, PutName(w, name).cache) && Extends(w.cache, PutName(w, name).cache)
  {
    WriteNameSpells(w.bytes, name, w.cache);
  }

  lemma DataKeepsAgreement(h: Wire, data: RData)
    requires CacheAgrees(h.bytes, h.cache) && |PutData(h, data).bytes| <= OFFSET_LIMIT
    requires (data.PtrData? ==> NameText(data.target)) && (data.SrvData? ==> NameText(data.host))
    ensures CacheAgrees(PutData(h, data).bytes, PutData(h, data).cache) && Extends(h.cache, PutData(h, data).cache)
  {
    var d := EncodeData(data, |h.bytes| + 2, h.cache);
    var h2 := Wire(h.bytes + Put16(d.length), h.cache);
    Associate(h.bytes, Put16(d.length), d.bytes);
    CacheSurvives(h.bytes, h2.bytes, h.cache);
    CacheSurvives(h.bytes, PutData(h, data).bytes, h.cache);
    match data {
      case PtrData(target) => NameKeepsAgreement(h2, target);
      case SrvData(host) => HostKeepsAgreement(h2, host);
      case TxtData(_) =>
      case AddrData(_) =>
    }
  }

  lemma HostKeepsAgreement(w: Wire, host: Text)
    requires CacheAgrees(w.bytes, w.cache) && NameText(host)
    requires |w.bytes + EncodeData(SrvData(host), |w.bytes|, w.cache).bytes| <= OFFSET_LIMIT
    ensures var d := EncodeData(SrvData(host), |w.bytes|, w.cache);
            CacheAgrees(w.bytes + d.bytes, d.cache) && Extends(w.cache, d.cache)
  {
    var w6 := Wire(w.bytes + SRV_HEAD, w.cache);
    Associate(w.bytes, SRV_HEAD, EncodeName(Split(host, DOT), |w.bytes| + 6, w.cache).bytes);
    CacheSurvives(w.bytes, w6.bytes, w.cache);
    NameKeepsAgreement(w6, host);
  }

  lemma CallKeepsAgreement(w: Wire, call: Call)
    requires CacheAgrees(w.bytes, w.cache) && NamesWritable(call) && |Perform(w, call).bytes| <= OFFSET_LIMIT
    ensures var w' := Perform(w, call);
            CacheAgrees(w'.bytes, w'.cache) && Extends(w.cache, w'.cache) && w.bytes <= w'.bytes
  {
    match call {
      case AddQuestion(name, typ) =>
        NameKeepsAgreement(w, name);
        CacheSurvives(PutName(w, name).bytes, PutQuestion(w, name, typ).bytes, PutName(w, name).cache);
      case AddResource(r) =>
        NameKeepsAgreement(w, r.name);
        CacheSurvives(PutName(w, r.name).bytes, PutHead(w, r).bytes, PutName(w, r.name).cache);
        DataKeepsAgreement(PutHead(w, r), r.data);
    }
  }

  /**
    Over any sequence of composer calls the cache keeps agreeing with the message, entries are
    never lost or moved, and bytes that are written stay.
   */
  lemma {:induction false} CallsKeepAgreement(w: Wire, calls: seq<Call>)
    requires CacheAgrees(w.bytes, w.cache) && forall c :: c in calls ==> NamesWritable(c)
    requires |PerformAll(w, calls).bytes| <= OFFSET_LIMIT
    ensures var w' := PerformAll(w, calls);
            CacheAgrees(w'.bytes, w'.cache) && Extends(w.cache, w'.cache) && w.bytes <= w'.bytes
    decreases |calls|
  {
    if calls != [] {
      CallsGrow(Perform(w, calls[0]), calls[1..]);
      CallKeepsAgreement(w, calls[0]);
      CallsKeepAgreement(Perform(w, calls[0]), calls[1..]);
    }
  }

  lemma {:induction false} CallsGrow(w: Wire, calls: seq<Call>)
    ensures w.bytes <= PerformAll(w, calls).bytes
    decreases |calls|
  {
    if calls != [] {
      CallsGrow(Perform(w, calls[0]), calls[1..]);
    }
  }

  /** Agreement is what the reader needs: every cached text is read at its offset. */
  lemma CachedTextIsRead(w: Wire, s: Text)
    requires CacheAgrees(w.bytes, w.cache) && s in w.cache
    ensures w.cache[s] < OFFSET_LIMIT
    ensures LabelDefined(w.bytes, w.cache[s]) && LabelText(w.bytes, w.cache[s]) == s
  {
    assert EntryAgrees(w.bytes, s, w.cache[s]);
    LabelsSurvive(w.bytes, w.bytes, w.cache[s], w.cache[s], w.cache[s], Split(s, DOT));
    NameIsRead(w.bytes, w.cache[s], w.cache[s], s);
  }

  /** Every name that could be read before some calls is read the same after them. */
  lemma ReadableNamesStay(w: Wire, calls: seq<Call>, start: nat, pos: nat, name: Text)
    requires NameAt(w.bytes, start, pos, Split(name, DOT))
    ensures var p := PerformAll(w, calls).bytes;
            && LabelDefined(w.bytes, pos) && LabelText(w.bytes, pos) == name
            && LabelDefined(p, pos) && LabelText(p, pos) == name
  {
    CallsGrow(w, calls);
    NameIsRead(w.bytes, start, pos, name);
    NameSurvives(w.bytes, PerformAll(w, calls).bytes, start, start, pos, Split(name, DOT));
    NameIsRead(PerformAll(w, calls).bytes, start, pos, name);
  }

  /**
    The same holds of any position at which the loop ends with a name from bytes of the message,
    whether the writer would spell it so or not; and below 0x3FFF bytes every name is such a one.
   */
  lemma ReadNamesStay(w: Wire, calls: seq<Call>, pos: nat, fuel: nat)
    requires Walk(w.bytes, pos, false, 0, [], fuel).Named?
    requires Inside(w.bytes, pos, fuel) || |w.bytes| < 0x3FFF
    ensures var p := PerformAll(w, calls).bytes;
            && Ends(w.bytes, pos, false, 0, []) && Ends(p, pos, false, 0, [])
            && Outcome(p, pos, false, 0, []) == Outcome(w.bytes, pos, false, 0, [])
  {
    CallsGrow(w, calls);
    if !Inside(w.bytes, pos, fuel) {
      NamedInside(w.bytes, pos, false, 0, [], fuel);
    }
    NamedStays(w.bytes, PerformAll(w, calls).bytes, pos, false, 0, [], fuel);
    OutcomeIs(w.bytes, pos, false, 0, [], fuel);
    OutcomeIs(PerformAll(w, calls).bytes, pos, false, 0, [], fuel);
  }

  /** What makes the length in front of record data wrong. */
  ghost predicate LengthHonest(data: RData)
  {
    match data
    case PtrData(_) => true
    case SrvData(_) => true
    case TxtData(strings) => NoLengthVanishes(strings)
    case AddrData(ip) => Split(ip, DOT).Size() == 4 && AllNumbers(Split(ip, DOT))
  }

  /**
    The two bytes in front of record data read back as the number of bytes behind them exactly
    when no string has a length byte that vanishes and the address is four numbers. Names always
    report their length. Everything before the slot is as it was.
   */
  lemma DataLengthExact(h: Wire, data: RData)
    requires CacheAgrees(h.bytes, h.cache) && |PutData(h, data).bytes| <= OFFSET_LIMIT
    requires (data.PtrData? ==> NameText(data.target)) && (data.SrvData? ==> NameText(data.host))
    ensures var p := PutData(h, data).bytes;
            && h.bytes <= p && |h.bytes| + 2 <= |p|
            && (Read16(p, |h.bytes|) == |p| - (|h.bytes| + 2) <==> LengthHonest(data))
  {
    hide EncodeName, StringsBytes, StringsCount, AddressBytes, AllNumbers;
    var d := EncodeData(data, |h.bytes| + 2, h.cache);
    LengthField(PutData(h, data).bytes, h.bytes, d.length, d.bytes);
    match data {
      case PtrData(target) => NameCounted(h.bytes + Put16(d.length), target, h.cache, h);
      case SrvData(host) => NameCounted(h.bytes + Put16(d.length) + SRV_HEAD, host, h.cache, h);
      case TxtData(strings) => StringsCountExact(strings);
      case AddrData(ip) => IpCountExact(ip);
    }
  }

  lemma NameCounted(b: Text, name: Text, cache: Cache, h: Wire)
    requires CacheAgrees(h.bytes, cache) && h.bytes <= b && NameText(name)
    requires |b| + |EncodeName(Split(name, DOT), |b|, cache).bytes| <= OFFSET_LIMIT
    ensures var e := EncodeName(Split(name, DOT), |b|, cache); e.counted == |e.bytes|
  {
    CacheSurvives(h.bytes, b, cache);
    WriteNameSpells(b, name, cache);
  }
}
