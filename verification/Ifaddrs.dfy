/**
  The list of network interfaces: first the links, each with its index in a slot behind the
  header, then the addresses, which look their link up among the first entries.
 */
module Ifaddrs {
  import opened Bytes
  import opened IfaddrsLayout

  /** The bits that are set. */
  type Flags = set<nat>

  /** The name of an entry stands in its own block or, for an address, in that of its link. */
  datatype Name = NoName | NameIn(block: array<Byte>, at: nat)

  /** An entry; its pointers into its own block are positions in it. */
  class IfAddrs {
    var next: IfAddrs?
    const block: array<Byte>
    var flags: Flags
    var name: Name
    var addr: Option<nat>
    var dst: Option<nat>
    var netmask: Option<nat>
    var data: Option<nat>

    constructor (size: nat)
      ensures next == null && fresh(block) && block.Length == size
      ensures name == NoName && addr == dst == netmask == data == None
    {
      block := new Byte[size];
      next, flags, name := null, {}, NoName;
      addr, dst, netmask, data := None, None, None, None;
    }
  }

  /** Only a link has the slot that the index is read from. */
  predicate HasIndex(e: IfAddrs) { e.block.Length >= HEADER + INT_SIZE }

  predicate Indexed(nodes: seq<IfAddrs>) { forall i :: 0 <= i < |nodes| ==> HasIndex(nodes[i]) }

  function IndexOf(e: IfAddrs): Word32
    requires HasIndex(e)
    reads e.block
  {
    GetHost32(e.block[..], HEADER)
  }

  /** The first of some links that has an index, or null. */
  ghost predicate IsLinkOf(link: IfAddrs?, index: Word32, nodes: seq<IfAddrs>)
    requires Indexed(nodes)
    reads (set e | e in nodes :: e.block)
  {
    if link == null then forall i :: 0 <= i < |nodes| ==> IndexOf(nodes[i]) != index
    else exists i :: 0 <= i < |nodes| && link == nodes[i] && IndexOf(nodes[i]) == index &&
                     forall j :: 0 <= j < i ==> IndexOf(nodes[j]) != index
  }

  function NodeAt(nodes: seq<IfAddrs>, i: nat): IfAddrs? { if i < |nodes| then nodes[i] else null }

  class ResultList {
    var head: IfAddrs?
    ghost var spine: seq<IfAddrs>

    ghost predicate Valid()
      reads this, spine
    {
      && head == NodeAt(spine, 0)
      && (forall i :: 0 <= i < |spine| ==> spine[i].next == NodeAt(spine, i + 1))
    }

    constructor ()
      ensures Valid() && spine == []
    {
      head, spine := null, [];
    }

    method AddToEnd(entry: IfAddrs)
      requires Valid() && entry.next == null && entry !in spine
      modifies this, (set e | e in spine)`next
      ensures Valid() && spine == old(spine) + [entry]
    {
      if head == null {
        head := entry;
      } else {
        var cur := head;
        ghost var i := 0;
        while cur.next != null
          invariant 0 <= i < |spine| && cur == spine[i]
          decreases |spine| - i
        {
          assert cur.next == NodeAt(spine, i + 1);
          cur := cur.next;
          i := i + 1;
        }
        assert cur.next == NodeAt(spine, i + 1);
        SpineDistinct();
        cur.next := entry;
      }
      spine := spine + [entry];
      assert forall k :: 0 <= k < |spine| ==> spine[k].next == NodeAt(spine, k + 1);
    }

    /** A chain that ends cannot visit a node twice. */
    lemma SpineDistinct()
      requires Valid()
      ensures forall i, j :: 0 <= i < j < |spine| ==> spine[i] != spine[j]
    {
      forall i, j | 0 <= i < j < |spine|
        ensures spine[i] != spine[j]
      {
        NotTwice(i, j);
      }
    }

    lemma {:induction false} NotTwice(i: nat, j: nat)
      requires Valid() && i < j < |spine|
      ensures spine[i] != spine[j]
      decreases |spine| - j
    {
      assert spine[i].next == NodeAt(spine, i + 1) && spine[j].next == NodeAt(spine, j + 1);
      if j + 1 < |spine| {
        NotTwice(i + 1, j + 1);
      }
    }

    /** The first link with an index, or null; entries behind the links are not looked at. */
    method FindInterface(index: Word32, numLinks: nat) returns (found: IfAddrs?)
      requires Valid() && numLinks <= |spine| && Indexed(spine[..numLinks])
      ensures IsLinkOf(found, index, spine[..numLinks])
      ensures found != null ==> found in spine
    {
      ghost var links := spine[..numLinks];
      var num := 0;
      var cur := head;
      while cur != null && num < numLinks
        invariant 0 <= num <= numLinks
        invariant cur == NodeAt(spine, num)
        invariant forall i :: 0 <= i < num ==> IndexOf(links[i]) != index
        decreases numLinks - num
      {
        assert links[num] == cur;
        if IndexOf(cur) == index {
          return cur;
        }
        cur := cur.next;
        num := num + 1;
      }
      found := null;
    }
  }

  // ---------------------------------------------------------------- one message

  /** A netlink message: the header's interface and flags, the attributes, and what may follow them. */
  datatype Message = Message(info: Info, flags: Flags, attrs: seq<Attr>, rest: nat)

  function LayoutOf(m: Message): Layout
  {
    var nameAt := if m.info.Link? then HEADER + INT_SIZE else HEADER;
    var addrAt := nameAt + Names(m.attrs, |m.attrs|, m.rest);
    Layout(nameAt, addrAt, addrAt + Slots(m.info, m.attrs, |m.attrs|) + NetmaskRoom(m.info, m.attrs, |m.attrs|))
  }

  function PointersOf(m: Message): Pointers { AllPointed(m.info, m.attrs, |m.attrs|, LayoutOf(m)) }

  /** An entry's block holds, all at the same time, what the attributes of a message said. */
  ghost predicate Stores(e: IfAddrs, m: Message)
    reads e`addr, e`dst, e`data, e.block
  {
    && Measured(e.block.Length, m.info, m.attrs, m.rest, LayoutOf(m))
    && FilledIn(e.block[..], m.info, m.attrs, |m.attrs|, LayoutOf(m))
    && e.addr == PointersOf(m).addr && e.dst == PointersOf(m).dst && e.data == PointersOf(m).data
  }

  ghost predicate IsLink(e: IfAddrs, m: Message)
    reads e`addr, e`dst, e`data, e`name, e`flags, e.block
  {
    && m.info.Link? && Stores(e, m)
    && HasIndex(e) && IndexOf(e) == m.info.index
    && e.flags == m.flags
    && e.name == if PointersOf(m).name.Some? then NameIn(e.block, LayoutOf(m).nameAt) else NoName
  }

  function MaskSize(family: Word16): nat { if family == AF_INET then 4 else 16 }

  /** An internet address has a netmask in a slot of its own behind the addresses. */
  ghost predicate MaskIn(e: IfAddrs, m: Message)
    requires m.info.Addr?
    reads e`netmask, e.block
  {
    var end := LayoutOf(m).addrAt + Slots(m.info, m.attrs, |m.attrs|);
    var at := end + DataOffset(m.info.family);
    if PointersOf(m).addr.Some? && Internet(m.info.family) then
      && e.netmask == Some(end) && end + CalcAddrLen(m.info.family, 0) <= e.block.Length
      && Holds(e.block[..], end, Host16(m.info.family))
      && IsMask(e.block[..][at..at + if m.info.family == 2 then 4 else 16], m.info.prefixLen)
    else e.netmask == None
  }

  method InterpretLink(m: Message, list: ResultList)
    requires list.Valid() && m.info.Link?
    modifies list, (set e | e in list.spine)`next
    ensures list.Valid() && |list.spine| == |old(list.spine)| + 1 && old(list.spine) == list.spine[..|old(list.spine)|]
    ensures fresh(list.spine[|old(list.spine)|]) && IsLink(list.spine[|old(list.spine)|], m)
  {
    var nameSize, addrSize, dataSize := MeasureLink(m.info, m.attrs, m.rest);
    var e := new IfAddrs(HEADER + INT_SIZE + nameSize + addrSize + dataSize);
    NoNetmask(m.info, m.attrs, |m.attrs|);
    var l := Layout(HEADER + INT_SIZE, HEADER + INT_SIZE + nameSize, HEADER + INT_SIZE + nameSize + addrSize);
    Copy(e.block, HEADER, Host32(m.info.index));
    e.flags := m.flags;
    FillLink(e, m, l);
    list.AddToEnd(e);
  }

  lemma {:induction false} NoNetmask(m: Info, attrs: seq<Attr>, k: nat)
    requires k <= |attrs| && m.Link?
    ensures NetmaskRoom(m, attrs, k) == 0
  {
  }

  /** The second pass for a link, with the index already in its slot. */
  method FillLink(e: IfAddrs, m: Message, l: Layout)
    requires m.info.Link? && l == LayoutOf(m) && Measured(e.block.Length, m.info, m.attrs, m.rest, l)
    requires Holds(e.block[..], HEADER, Host32(m.info.index)) && e.flags == m.flags && e.name == NoName
    modifies e`addr, e`dst, e`data, e`name, e.block
    ensures IsLink(e, m)
  {
    ghost var was := e.block[..];
    var p, end := Fill(e.block, m.info, m.attrs, m.rest, l);
    HoldsKept(was, e.block[..], HEADER, l.nameAt, HEADER, Host32(m.info.index));
    HeldLong(e.block[..], HEADER, m.info.index);
    e.addr, e.dst, e.data := p.addr, p.dst, p.data;
    if p.name.Some? {
      e.name := NameIn(e.block, p.name.value);
      NameIsFirst(m.info, m.attrs, |m.attrs|, l);
    }
  }

  lemma {:induction false} NameIsFirst(m: Info, attrs: seq<Attr>, k: nat, l: Layout)
    requires k <= |attrs|
    ensures AllPointed(m, attrs, k, l).name.Some? ==> AllPointed(m, attrs, k, l).name == Some(l.nameAt)
    ensures AllPointed(m, attrs, k, l).name.Some? <==> LastData(attrs, k, NAME).Some?
    decreases k
  {
    if k > 0 {
      NameIsFirst(m, attrs, k - 1, l);
    }
  }

  /** An address entry: its flags are joined to those of its link, and it borrows the link's name if it has none. */
  ghost predicate IsAddr(e: IfAddrs, m: Message, linkName: Name, linkFlags: Flags)
    reads e`addr, e`dst, e`data, e`name, e`flags, e`netmask, e.block
  {
    && StoresAddr(e, m)
    && e.flags == m.flags + linkFlags
    && e.name == if PointersOf(m).name.Some? then NameIn(e.block, LayoutOf(m).nameAt) else linkName
  }

  function NameOf(link: IfAddrs?): Name
    reads link
  {
    if link == null then NoName else link.name
  }

  function FlagsOf(link: IfAddrs?): Flags
    reads link
  {
    if link == null then {} else link.flags
  }

  method InterpretAddr(m: Message, list: ResultList, numLinks: nat) returns (link: IfAddrs?)
    requires list.Valid() && m.info.Addr? && AddressesFit(m.info, m.attrs)
    requires numLinks <= |list.spine| && Indexed(list.spine[..numLinks])
    modifies list, (set e | e in list.spine)`next
    ensures list.Valid()
    ensures IsLinkOf(link, m.info.index, old(list.spine)[..numLinks])
    ensures m.info.family == AF_PACKET ==> list.spine == old(list.spine)
    ensures m.info.family != AF_PACKET ==>
              && |list.spine| == |old(list.spine)| + 1 && old(list.spine) == list.spine[..|old(list.spine)|]
              && fresh(list.spine[|old(list.spine)|]) && StoresAddr(list.spine[|old(list.spine)|], m)
              && IsAddr(list.spine[|old(list.spine)|], m, old(NameOf(link)), old(FlagsOf(link)))
  {
    link := list.FindInterface(m.info.index, numLinks);
    if m.info.family == AF_PACKET {
      return;
    }
    var e := MakeAddr(m, NameOf(link), FlagsOf(link));
    list.AddToEnd(e);
  }

  method MakeAddr(m: Message, linkName: Name, linkFlags: Flags) returns (e: IfAddrs)
    requires m.info.Addr? && AddressesFit(m.info, m.attrs)
    ensures fresh(e) && e.next == null && IsAddr(e, m, linkName, linkFlags)
  {
    var nameSize, addrSize := MeasureAddr(m.info, m.attrs, m.rest);
    e := new IfAddrs(HEADER + nameSize + addrSize);
    NoStats(m.info, m.attrs, |m.attrs|, m.rest);
    e.name := linkName;
    e.flags := m.flags + linkFlags;
    var l := Layout(HEADER, HEADER + nameSize, HEADER + nameSize + addrSize);
    FillAddr(e, m, l);
  }

  lemma {:induction false} NoStats(m: Info, attrs: seq<Attr>, k: nat, rest: nat)
    requires k <= |attrs| && m.Addr?
    ensures Stats(m, attrs, k, rest) == 0
    decreases k
  {
    if k > 0 {
      NoStats(m, attrs, k - 1, rest);
    }
  }

  /** The second pass for an address, and its netmask. */
  method FillAddr(e: IfAddrs, m: Message, l: Layout)
    requires m.info.Addr? && AddressesFit(m.info, m.attrs)
    requires l == LayoutOf(m) && Measured(e.block.Length, m.info, m.attrs, m.rest, l) && e.netmask == None
    modifies e`addr, e`dst, e`data, e`name, e`netmask, e.block
    ensures Stores(e, m) && MaskIn(e, m)
    ensures e.name == if PointersOf(m).name.Some? then NameIn(e.block, l.nameAt) else old(e.name)
  {
    var p, end := Fill(e.block, m.info, m.attrs, m.rest, l);
    e.addr, e.dst, e.data := p.addr, p.dst, p.data;
    if p.name.Some? {
      e.name := NameIn(e.block, p.name.value);
      NameIsFirst(m.info, m.attrs, |m.attrs|, l);
    }
    AddNetmask(e, m, l, end);
  }

  method AddNetmask(e: IfAddrs, m: Message, l: Layout, end: nat)
    requires m.info.Addr? && AddressesFit(m.info, m.attrs) && l == LayoutOf(m) && Stores(e, m) && e.netmask == None
    requires end == l.addrAt + Slots(m.info, m.attrs, |m.attrs|)
    modifies e`netmask, e.block
    ensures Stores(e, m) && MaskIn(e, m)
  {
    hide AddressesIn, StatsIn, Slots, Names, Stats, AllPointed, AddressesFit;
    NetmaskHasRoom(e.block[..], m.info, m.attrs, |m.attrs|, l);
    if e.addr.Some? && Internet(GetHost16(e.block[..], e.addr.value)) {
      var size := MaskSize(GetHost16(e.block[..], e.addr.value));
      var mask := MakeMask(m.info.prefixLen, size);
      PlaceNetmask(e.block, m.info, m.attrs, m.rest, l, end, mask);
      HeldSlice(e.block[..], end + DataOffset(m.info.family), mask);
      e.netmask := Some(end);
    }
  }

  // ---------------------------------------------------------------- whole replies

  /** A header in a netlink reply; only those meant for this socket count. */
  datatype Reply =
    | Done(ours: bool)
    | NewLink(ours: bool, m: Message)
    | NewAddr(ours: bool, m: Message)
    | Other(ours: bool)

  predicate WellFormed(r: Reply)
  {
    (r.NewLink? ==> r.m.info.Link?) && (r.NewAddr? ==> r.m.info.Addr? && AddressesFit(r.m.info, r.m.attrs))
  }

  /** The link messages of one block, up to its end mark. */
  function Links(block: seq<Reply>): seq<Message>
    decreases |block|
  {
    if block == [] || block[0] == Done(true) then []
    else (if block[0].NewLink? && block[0].ours then [block[0].m] else []) + Links(block[1..])
  }

  /** The address messages that make an entry. */
  function Addrs(block: seq<Reply>): seq<Message>
    decreases |block|
  {
    if block == [] || block[0] == Done(true) then []
    else
      var r := block[0];
      (if r.NewAddr? && r.ours && Family(r.m.info) != AF_PACKET then [r.m] else []) + Addrs(block[1..])
  }

  function AllLinks(blocks: seq<seq<Reply>>): seq<Message>
    decreases |blocks|
  {
    if blocks == [] then [] else Links(blocks[0]) + AllLinks(blocks[1..])
  }

  function AllAddrs(blocks: seq<seq<Reply>>): seq<Message>
    decreases |blocks|
  {
    if blocks == [] then [] else Addrs(blocks[0]) + AllAddrs(blocks[1..])
  }

  /** Of a single reply, a link or an address counts when it is meant for this socket; packet addresses do not. */
  lemma OneReply(r: Reply)
    requires WellFormed(r)
    ensures Links([r]) == if r.NewLink? && r.ours then [r.m] else []
    ensures Addrs([r]) == if r.NewAddr? && r.ours && r.m.info.family != 17 then [r.m] else []
  {
    assert [r][1..] == [];
  }

  /** Links count in order; nothing behind an end mark does, unless the mark is meant for another socket. */
  lemma {:induction false} LinksInOrder(a: seq<Reply>, b: seq<Reply>)
    ensures Links(a + b) == Links(a) + (if Done(true) in a then [] else Links(b))
    decreases |a|
  {
    if a == [] {
      assert a + b == b;
      Move(Links(b), [], []);
    } else {
      FirstReply(a, b);
      LinksInOrder(a[1..], b);
      var r := a[0];
      Move(if r.NewLink? && r.ours then [r.m] else [], Links(a[1..]), if Done(true) in a then [] else Links(b));
    }
  }

  /** So do addresses. */
  lemma {:induction false} AddrsInOrder(a: seq<Reply>, b: seq<Reply>)
    ensures Addrs(a + b) == Addrs(a) + (if Done(true) in a then [] else Addrs(b))
    decreases |a|
  {
    if a == [] {
      assert a + b == b;
      Move(Addrs(b), [], []);
    } else {
      FirstReply(a, b);
      AddrsInOrder(a[1..], b);
      var r := a[0];
      Move(if r.NewAddr? && r.ours && Family(r.m.info) != AF_PACKET then [r.m] else [], Addrs(a[1..]),
           if Done(true) in a then [] else Addrs(b));
    }
  }

  lemma FirstReply(a: seq<Reply>, b: seq<Reply>)
    requires a != []
    ensures (a + b)[0] == a[0] && (a + b)[1..] == a[1..] + b
    ensures Done(true) in a <==> a[0] == Done(true) || Done(true) in a[1..]
  {
    assert a == [a[0]] + a[1..];
  }

  lemma {:induction false} BlocksInOrder(a: seq<seq<Reply>>, b: seq<seq<Reply>>)
    ensures AllLinks(a + b) == AllLinks(a) + AllLinks(b) && AllAddrs(a + b) == AllAddrs(a) + AllAddrs(b)
    decreases |a|
  {
    hide Links, Addrs;
    if a == [] {
      assert a + b == b;
      Move(AllLinks(b), [], []);
      Move(AllAddrs(b), [], []);
    } else {
      assert (a + b)[0] == a[0] && (a + b)[1..] == a[1..] + b;
      BlocksInOrder(a[1..], b);
      Move(Links(a[0]), AllLinks(a[1..]), AllLinks(b));
      Move(Addrs(a[0]), AllAddrs(a[1..]), AllAddrs(b));
    }
  }

  lemma Move(a: seq<Message>, b: seq<Message>, c: seq<Message>)
    ensures a + (b + c) == (a + b) + c
    ensures a + [] == a && [] + a == a
  {
  }

  /** The entries are the links of these messages, one each, in order. */
  ghost predicate AreLinks(nodes: seq<IfAddrs>, ms: seq<Message>)
    reads (set e | e in nodes)`addr, (set e | e in nodes)`dst, (set e | e in nodes)`data
    reads (set e | e in nodes)`name, (set e | e in nodes)`flags, (set e | e in nodes :: e.block)
  {
    |nodes| == |ms| && forall i :: 0 <= i < |nodes| ==> IsLink(nodes[i], ms[i])
  }

  /** What an address takes from a link. */
  datatype LinkInfo = LinkInfo(index: Word32, name: Name, flags: Flags)

  /** The first entry of a table from position i on that has an index; without one there is nothing to take. */
  function Lookup(table: seq<LinkInfo>, index: Word32, i: nat): LinkInfo
    decreases |table| - i
  {
    if i >= |table| then LinkInfo(index, NoName, {})
    else if table[i].index == index then table[i]
    else Lookup(table, index, i + 1)
  }

  /** The table shows each of some links, in order. */
  ghost predicate Tabled(links: seq<IfAddrs>, table: seq<LinkInfo>)
    reads (set e | e in links)`name, (set e | e in links)`flags, (set e | e in links :: e.block)
  {
    && |links| == |table| && Indexed(links)
    && forall i :: 0 <= i < |links| ==> table[i] == LinkInfo(IndexOf(links[i]), links[i].name, links[i].flags)
  }

  lemma {:induction false} LookupSkips(links: seq<IfAddrs>, table: seq<LinkInfo>, index: Word32, i: nat, k: nat)
    requires Tabled(links, table) && i <= k <= |links|
    requires forall j :: i <= j < k ==> IndexOf(links[j]) != index
    ensures Lookup(table, index, i) == Lookup(table, index, k)
    decreases k - i
  {
    if i < k {
      assert table[i].index == IndexOf(links[i]);
      LookupSkips(links, table, index, i + 1, k);
    }
  }

  /** The link that is found is the one in the table. */
  lemma LookupIs(link: IfAddrs?, index: Word32, links: seq<IfAddrs>, table: seq<LinkInfo>)
    requires Tabled(links, table) && IsLinkOf(link, index, links)
    ensures Lookup(table, index, 0) == LinkInfo(index, NameOf(link), FlagsOf(link))
  {
    if link == null {
      LookupSkips(links, table, index, 0, |links|);
    } else {
      var i :| 0 <= i < |links| && link == links[i] && IndexOf(links[i]) == index &&
               forall j :: 0 <= j < i ==> IndexOf(links[j]) != index;
      LookupSkips(links, table, index, 0, i);
    }
  }

  /**
    From the n-th on, the entries are the addresses of these messages, one each, in order, each
    with the flags, and if need be the name, of the first link with its index.
   */
  ghost predicate AreAddrs(nodes: seq<IfAddrs>, n: nat, ms: seq<Message>, table: seq<LinkInfo>)
    reads (set e | e in nodes)`addr, (set e | e in nodes)`dst, (set e | e in nodes)`data
    reads (set e | e in nodes)`name, (set e | e in nodes)`flags
    reads (set e | e in nodes)`netmask, (set e | e in nodes :: e.block)
  {
    |nodes| == n + |ms| && forall i :: n <= i < |nodes| ==> IsAddrOf(nodes[i], ms[i - n], table)
  }

  ghost predicate IsAddrOf(e: IfAddrs, m: Message, table: seq<LinkInfo>)
    reads e`addr, e`dst, e`data, e`name, e`flags, e`netmask, e.block
  {
    var link := Lookup(table, m.info.index, 0);
    IsAddr(e, m, link.name, link.flags)
  }

  ghost predicate StoresAddr(e: IfAddrs, m: Message)
    reads e`addr, e`dst, e`data, e`netmask, e.block
  {
    m.info.Addr? && Stores(e, m) && MaskIn(e, m)
  }

  /** What a reply adds to the messages so far. */
  lemma LinkStep(got: seq<Message>, block: seq<Reply>, k: nat)
    requires k < |block|
    ensures var r := block[k];
            got + Links(block[k..]) ==
              if r == Done(true) then got
              else if r.ours && r.NewLink? then (got + [r.m]) + Links(block[k + 1..])
              else got + Links(block[k + 1..])
  {
    var r := block[k];
    assert block[k..][0] == r && block[k..][1..] == block[k + 1..];
    Move(got, if r.ours && r.NewLink? then [r.m] else [], Links(block[k + 1..]));
  }

  lemma AddrStep(got: seq<Message>, block: seq<Reply>, k: nat)
    requires k < |block|
    ensures var r := block[k];
            got + Addrs(block[k..]) ==
              if r == Done(true) then got
              else if r.ours && r.NewAddr? && Family(r.m.info) != AF_PACKET then (got + [r.m]) + Addrs(block[k + 1..])
              else got + Addrs(block[k + 1..])
  {
    var r := block[k];
    assert block[k..][0] == r && block[k..][1..] == block[k + 1..];
    Move(got, if r.ours && r.NewAddr? && Family(r.m.info) != AF_PACKET then [r.m] else [], Addrs(block[k + 1..]));
  }

  method AddLink(m: Message, list: ResultList, ghost got: seq<Message>)
    requires list.Valid() && m.info.Link? && AreLinks(list.spine, got)
    modifies list, (set e | e in list.spine)`next
    ensures list.Valid() && AreLinks(list.spine, got + [m])
    ensures forall e :: e in list.spine ==> e in old(list.spine) || fresh(e)
  {
    hide IsLink, ResultList.Valid;
    ghost var was := list.spine;
    InterpretLink(m, list);
    assert list.spine == was + [list.spine[|was|]];
  }

  method InterpretLinkBlock(block: seq<Reply>, list: ResultList, ghost before: seq<Message>) returns (count: nat)
    requires list.Valid() && (forall r :: r in block ==> WellFormed(r)) && AreLinks(list.spine, before)
    modifies list, (set e | e in list.spine)`next
    ensures list.Valid() && AreLinks(list.spine, before + Links(block)) && count == |Links(block)|
    ensures forall e :: e in list.spine ==> e in old(list.spine) || fresh(e)
  {
    hide IsLink, AreLinks, ResultList.Valid;
    count := 0;
    ghost var got := before;
    assert block[0..] == block;
    for k := 0 to |block|
      invariant list.Valid() && AreLinks(list.spine, got)
      invariant before + Links(block) == got + Links(block[k..])
      invariant count + |before| == |got|
      invariant forall e :: e in list.spine ==> e in old(list.spine) || fresh(e)
    {
      var r := block[k];
      assert WellFormed(r);
      LinkStep(got, block, k);
      if r == Done(true) {
        return;
      }
      if r.ours && r.NewLink? {
        AddLink(r.m, list, got);
        got := got + [r.m];
        count := count + 1;
      }
    }
    Move(got, [], []);
  }

  method InterpretLinks(blocks: seq<seq<Reply>>, list: ResultList) returns (numLinks: nat)
    requires list.Valid() && list.spine == [] && forall b :: b in blocks ==> forall r :: r in b ==> WellFormed(r)
    modifies list
    ensures list.Valid() && AreLinks(list.spine, AllLinks(blocks)) && numLinks == |list.spine|
    ensures forall e :: e in list.spine ==> fresh(e)
  {
    hide IsLink, ResultList.Valid;
    numLinks := 0;
    ghost var got: seq<Message> := [];
    assert blocks[0..] == blocks;
    Move([], [], AllLinks(blocks));
    for k := 0 to |blocks|
      invariant list.Valid() && AreLinks(list.spine, got) && numLinks == |got|
      invariant AllLinks(blocks) == got + AllLinks(blocks[k..])
      invariant forall e :: e in list.spine ==> fresh(e)
    {
      assert blocks[k] in blocks;
      var count := InterpretLinkBlock(blocks[k], list, got);
      assert blocks[k..][0] == blocks[k] && blocks[k..][1..] == blocks[k + 1..];
      Move(got, Links(blocks[k]), AllLinks(blocks[k + 1..]));
      got := got + Links(blocks[k]);
      numLinks := numLinks + count;
    }
    Move(got, [], []);
  }

  method AddAddr(m: Message, list: ResultList, numLinks: nat, ghost got: seq<Message>, ghost table: seq<LinkInfo>)
    requires list.Valid() && WellFormed(NewAddr(true, m))
    requires numLinks <= |list.spine| && Tabled(list.spine[..numLinks], table)
    requires AreAddrs(list.spine, numLinks, got, table)
    modifies list, (set e | e in list.spine)`next
    ensures list.Valid() && numLinks <= |list.spine| && list.spine[..numLinks] == old(list.spine[..numLinks])
    ensures Tabled(list.spine[..numLinks], table)
    ensures AreAddrs(list.spine, numLinks, if Family(m.info) == AF_PACKET then got else got + [m], table)
    ensures forall e :: e in list.spine ==> e in old(list.spine) || fresh(e)
  {
    hide IsAddrOf, Tabled, ResultList.Valid;
    ghost var was := list.spine;
    AddOne(m, list, numLinks, table);
    if m.info.family != AF_PACKET {
      assert list.spine == was + [list.spine[|was|]];
    }
  }

  method AddOne(m: Message, list: ResultList, numLinks: nat, ghost table: seq<LinkInfo>)
    requires list.Valid() && WellFormed(NewAddr(true, m))
    requires numLinks <= |list.spine| && Tabled(list.spine[..numLinks], table)
    modifies list, (set e | e in list.spine)`next
    ensures list.Valid() && Tabled(old(list.spine[..numLinks]), table)
    ensures m.info.family == AF_PACKET ==> list.spine == old(list.spine)
    ensures m.info.family != AF_PACKET ==>
              && |list.spine| == |old(list.spine)| + 1 && old(list.spine) == list.spine[..|old(list.spine)|]
              && fresh(list.spine[|old(list.spine)|]) && IsAddrOf(list.spine[|old(list.spine)|], m, table)
  {
    hide IsAddr, IsLinkOf, ResultList.Valid;
    ghost var links := list.spine[..numLinks];
    var link := InterpretAddr(m, list, numLinks);
    LookupIs(link, m.info.index, links, table);
  }

  method InterpretAddrBlock(block: seq<Reply>, list: ResultList, numLinks: nat,
                            ghost before: seq<Message>, ghost table: seq<LinkInfo>)
    requires list.Valid() && forall r :: r in block ==> WellFormed(r)
    requires numLinks <= |list.spine| && Tabled(list.spine[..numLinks], table)
    requires AreAddrs(list.spine, numLinks, before, table)
    modifies list, (set e | e in list.spine)`next
    ensures list.Valid() && numLinks <= |list.spine| && list.spine[..numLinks] == old(list.spine[..numLinks])
    ensures Tabled(list.spine[..numLinks], table)
    ensures AreAddrs(list.spine, numLinks, before + Addrs(block), table)
    ensures forall e :: e in list.spine ==> e in old(list.spine) || fresh(e)
  {
    hide AreAddrs, Tabled, ResultList.Valid;
    ghost var got := before;
    assert block[0..] == block;
    for k := 0 to |block|
      invariant list.Valid() && numLinks <= |list.spine| && list.spine[..numLinks] == old(list.spine[..numLinks])
      invariant Tabled(list.spine[..numLinks], table)
      invariant AreAddrs(list.spine, numLinks, got, table)
      invariant before + Addrs(block) == got + Addrs(block[k..])
      invariant forall e :: e in list.spine ==> e in old(list.spine) || fresh(e)
    {
      var r := block[k];
      assert WellFormed(r);
      AddrStep(got, block, k);
      if r == Done(true) {
        return;
      }
      if r.ours && r.NewAddr? {
        AddAddr(r.m, list, numLinks, got, table);
        got := if Family(r.m.info) == AF_PACKET then got else got + [r.m];
      }
    }
    Move(got, [], []);
  }

  lemma NoneYet(nodes: seq<IfAddrs>, table: seq<LinkInfo>)
    ensures AreAddrs(nodes, |nodes|, [], table)
  {
  }

  ghost method MakeTable(links: seq<IfAddrs>) returns (table: seq<LinkInfo>)
    requires Indexed(links)
    ensures Tabled(links, table)
  {
    table := [];
    for i := 0 to |links|
      invariant |table| == i
      invariant forall j :: 0 <= j < i ==> table[j] == LinkInfo(IndexOf(links[j]), links[j].name, links[j].flags)
    {
      table := table + [LinkInfo(IndexOf(links[i]), links[i].name, links[i].flags)];
    }
  }

  method InterpretAddrs(blocks: seq<seq<Reply>>, list: ResultList, numLinks: nat) returns (ghost table: seq<LinkInfo>)
    requires list.Valid() && forall b :: b in blocks ==> forall r :: r in b ==> WellFormed(r)
    requires numLinks == |list.spine| && Indexed(list.spine)
    modifies list, (set e | e in list.spine)`next
    ensures list.Valid() && numLinks <= |list.spine| && list.spine[..numLinks] == old(list.spine)
    ensures Tabled(list.spine[..numLinks], table)
    ensures AreAddrs(list.spine, numLinks, AllAddrs(blocks), table)
    ensures forall e :: e in list.spine ==> e in old(list.spine) || fresh(e)
  {
    hide AreAddrs, Tabled, ResultList.Valid, Indexed;
    ghost var got: seq<Message> := [];
    assert blocks[0..] == blocks;
    Move([], [], AllAddrs(blocks));
    table := MakeTable(list.spine);
    NoneYet(list.spine, table);
    assert list.spine[..numLinks] == list.spine;
    for k := 0 to |blocks|
      invariant list.Valid() && numLinks <= |list.spine| && list.spine[..numLinks] == old(list.spine)
      invariant Tabled(list.spine[..numLinks], table)
      invariant AreAddrs(list.spine, numLinks, got, table)
      invariant AllAddrs(blocks) == got + AllAddrs(blocks[k..])
      invariant forall e :: e in list.spine ==> e in old(list.spine) || fresh(e)
    {
      assert blocks[k] in blocks;
      InterpretAddrBlock(blocks[k], list, numLinks, got, table);
      assert blocks[k..][0] == blocks[k] && blocks[k..][1..] == blocks[k + 1..];
      Move(got, Addrs(blocks[k]), AllAddrs(blocks[k + 1..]));
      got := got + Addrs(blocks[k]);
    }
    Move(got, [], []);
  }

  /**
    All links first, then all addresses, each entry complete in a block of its own, and each
    address with the flags and name of its link.
   */
  method GetIfAddrs(linkResults: seq<seq<Reply>>, addrResults: seq<seq<Reply>>)
      returns (list: ResultList, ghost table: seq<LinkInfo>)
    requires forall b :: b in linkResults + addrResults ==> forall r :: r in b ==> WellFormed(r)
    ensures list.Valid()
    ensures var n := |AllLinks(linkResults)|;
            && n <= |list.spine|
            && AreLinks(list.spine[..n], AllLinks(linkResults))
            && Tabled(list.spine[..n], table)
            && AreAddrs(list.spine, n, AllAddrs(addrResults), table)
  {
    list := new ResultList();
    assert forall b :: b in linkResults ==> b in linkResults + addrResults;
    assert forall b :: b in addrResults ==> b in linkResults + addrResults;
    var numLinks := InterpretLinks(linkResults, list);
    ghost var links := list.spine;
    table := InterpretAddrs(addrResults, list, numLinks);
    assert AreLinks(links, AllLinks(linkResults));
  }
}
