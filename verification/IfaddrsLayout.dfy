/**
  The memory of a network interface entry. A first pass over the attributes of a netlink message
  measures them, one block is allocated for everything, and a second pass fills the block: the
  interface index, the name, the addresses one behind the other, and the statistics.
 */
module IfaddrsLayout {
  import opened Bytes

  /** sizeof(struct ifaddrs), sizeof(int) and sizeof(struct rtattr) on a 64-bit machine. */
  const HEADER := 56
  const INT_SIZE := 4
  const RTA_HEADER := 4

  const AF_INET: Word16 := 2
  const AF_INET6: Word16 := 10
  const AF_PACKET: Word16 := 17

  /** IFLA_ADDRESS and IFA_ADDRESS; IFLA_BROADCAST and IFA_LOCAL; IFLA_IFNAME and IFA_LABEL. */
  const ADDRESS := 1
  const LINK_BROADCAST := 2
  const LOCAL := 2
  const NAME := 3
  const BROADCAST := 4
  const STATS := 7

  // Native integers, low byte first as on every machine that the program is built for.

  function Host16(v: Word16): Text { [Low8(v), High8(v)] }

  function Host32(v: Word32): Text { Host16(Low16(v)) + Host16(High16(v)) }

  function GetHost16(b: Text, i: nat): Word16
    requires i + 2 <= |b|
  {
    (b[i + 1] as int) * 0x100 + b[i] as int
  }

  function GetHost32(b: Text, i: nat): Word32
    requires i + 4 <= |b|
  {
    (GetHost16(b, i + 2) as int) * 0x1_0000 + GetHost16(b, i) as int
  }

  datatype Attr = Attr(kind: nat, data: Text)

  /** The message the attributes belong to. Its header says which interface is meant. */
  datatype Info = Link(index: Word32, hatype: Word16) | Addr(index: Word32, family: Word16, prefixLen: Byte)

  function Family(m: Info): Word16 { if m.Link? then AF_PACKET else m.family }

  predicate IsAddress(m: Info, a: Attr) { a.kind == ADDRESS || a.kind == LOCAL || (m.Addr? && a.kind == BROADCAST) }

  /** NLMSG_ALIGN */
  function Align(n: nat): (r: nat)
    ensures n <= r < n + 4 && r % 4 == 0
  {
    (n + 3) / 4 * 4
  }

  function MaxSize(a: nat, b: nat): nat { if a > b then a else b }

  function CalcAddrLen(family: Word16, dataSize: nat): nat
  {
    if family == AF_INET then 16
    else if family == AF_INET6 then 28
    else if family == AF_PACKET then MaxSize(20, 12 + dataSize)
    else MaxSize(16, 2 + dataSize)
  }

  /** Where the address bytes stand in a sockaddr. */
  function DataOffset(family: Word16): nat
  {
    if family == AF_INET then 4 else if family == AF_INET6 then 8 else if family == AF_PACKET then 12 else 2
  }

  /** An address that the fixed sizes of the internet families have room for. */
  predicate AddressFits(family: Word16, dataSize: nat)
  {
    (family == AF_INET ==> dataSize <= 12) && (family == AF_INET6 ==> dataSize <= 20)
  }

  /** An address stays within its sockaddr exactly when it is not too long for its family. */
  lemma SockaddrHasRoom(family: Word16, dataSize: nat)
    ensures DataOffset(family) + dataSize <= CalcAddrLen(family, dataSize) <==> AddressFits(family, dataSize)
    ensures DataOffset(family) + dataSize <= Align(CalcAddrLen(family, dataSize)) <==> AddressFits(family, dataSize)
    ensures 16 <= CalcAddrLen(family, dataSize) && CalcAddrLen(2, dataSize) == 16 && CalcAddrLen(10, dataSize) == 28
    ensures CalcAddrLen(17, dataSize) == if dataSize <= 8 then 20 else 12 + dataSize
  {
  }

  // ---------------------------------------------------------------- the first pass

  function RtaSize(a: Attr): nat { Align(RTA_HEADER + |a.data|) }

  /** The bytes from attribute k on, with what may follow the last one. */
  function Remaining(attrs: seq<Attr>, k: nat, rest: nat): (n: nat)
    requires k <= |attrs|
    ensures n >= rest && (k < |attrs| ==> n >= RTA_HEADER + |attrs[k].data|)
    decreases |attrs| - k
  {
    if k == |attrs| then rest else RtaSize(attrs[k]) + Remaining(attrs, k + 1, rest)
  }

  function Slot(m: Info, a: Attr): nat
  {
    if IsAddress(m, a) then Align(CalcAddrLen(Family(m), |a.data|)) else 0
  }

  /** Where the slot of attribute k begins, counted from the first one. */
  function Slots(m: Info, attrs: seq<Attr>, k: nat): nat
    requires k <= |attrs|
  {
    if k == 0 then 0 else Slots(m, attrs, k - 1) + Slot(m, attrs[k - 1])
  }

  /** The room for names in front of attribute k: each takes what is left of the message, and one byte. */
  function Names(attrs: seq<Attr>, k: nat, rest: nat): nat
    requires k <= |attrs|
  {
    if k == 0 then 0
    else Names(attrs, k - 1, rest) + if attrs[k - 1].kind == NAME then Align(Remaining(attrs, k - 1, rest) + 1) else 0
  }

  function Stats(m: Info, attrs: seq<Attr>, k: nat, rest: nat): nat
    requires k <= |attrs|
  {
    if k == 0 then 0
    else Stats(m, attrs, k - 1, rest) +
         if m.Link? && attrs[k - 1].kind == STATS then Align(Remaining(attrs, k - 1, rest)) else 0
  }

  /** Whether room for a netmask has been made: with the first address of an internet family. */
  function NetmaskRoom(m: Info, attrs: seq<Attr>, k: nat): nat
    requires k <= |attrs|
  {
    if k == 0 || m.Link? || (m.family != AF_INET && m.family != AF_INET6) then 0
    else if NetmaskRoom(m, attrs, k - 1) > 0 then NetmaskRoom(m, attrs, k - 1)
    else if attrs[k - 1].kind == ADDRESS || attrs[k - 1].kind == LOCAL then Slot(m, attrs[k - 1])
    else 0
  }

  method MeasureLink(m: Info, attrs: seq<Attr>, rest: nat) returns (nameSize: nat, addrSize: nat, dataSize: nat)
    requires m.Link?
    ensures nameSize == Names(attrs, |attrs|, rest)
    ensures addrSize == Slots(m, attrs, |attrs|)
    ensures dataSize == Stats(m, attrs, |attrs|, rest)
  {
    nameSize, addrSize, dataSize := 0, 0, 0;
    var rtaSize := PayloadSize(attrs, rest);
    for k := 0 to |attrs|
      invariant rtaSize == Remaining(attrs, k, rest)
      invariant nameSize == Names(attrs, k, rest)
      invariant addrSize == Slots(m, attrs, k)
      invariant dataSize == Stats(m, attrs, k, rest)
    {
      var a := attrs[k];
      if a.kind == ADDRESS || a.kind == LINK_BROADCAST {
        addrSize := addrSize + Align(CalcAddrLen(AF_PACKET, |a.data|));
      } else if a.kind == NAME {
        nameSize := nameSize + Align(rtaSize + 1);
      } else if a.kind == STATS {
        dataSize := dataSize + Align(rtaSize);
      }
      rtaSize := rtaSize - RtaSize(a);
    }
  }

  method MeasureAddr(m: Info, attrs: seq<Attr>, rest: nat) returns (nameSize: nat, addrSize: nat)
    requires m.Addr?
    ensures nameSize == Names(attrs, |attrs|, rest)
    ensures addrSize == Slots(m, attrs, |attrs|) + NetmaskRoom(m, attrs, |attrs|)
  {
    nameSize, addrSize := 0, 0;
    var addedNetmask := false;
    var rtaSize := PayloadSize(attrs, rest);
    for k := 0 to |attrs|
      invariant rtaSize == Remaining(attrs, k, rest)
      invariant nameSize == Names(attrs, k, rest)
      invariant addrSize == Slots(m, attrs, k) + NetmaskRoom(m, attrs, k)
      invariant addedNetmask <==> NetmaskRoom(m, attrs, k) > 0
    {
      var a := attrs[k];
      if a.kind == ADDRESS || a.kind == LOCAL || a.kind == BROADCAST {
        if a.kind != BROADCAST && (m.family == AF_INET || m.family == AF_INET6) && !addedNetmask {
          addrSize := addrSize + Align(CalcAddrLen(m.family, |a.data|));
          addedNetmask := true;
        }
        addrSize := addrSize + Align(CalcAddrLen(m.family, |a.data|));
      } else if a.kind == NAME {
        nameSize := nameSize + Align(rtaSize + 1);
      }
      rtaSize := rtaSize - RtaSize(a);
    }
  }

  /** NLMSG_PAYLOAD: the size of all attributes together. */
  method PayloadSize(attrs: seq<Attr>, rest: nat) returns (n: nat)
    ensures n == Remaining(attrs, 0, rest)
  {
    n := rest;
    for k := |attrs| downto 0
      invariant n == Remaining(attrs, k, rest)
    {
      n := n + RtaSize(attrs[k]);
    }
  }

  lemma {:induction false} SlotsGrow(m: Info, attrs: seq<Attr>, j: nat, k: nat)
    requires j < k <= |attrs|
    ensures Slots(m, attrs, j) + Slot(m, attrs[j]) <= Slots(m, attrs, k)
    decreases k
  {
    if j < k - 1 {
      SlotsGrow(m, attrs, j, k - 1);
    }
  }

  /** Although it is measured from what is left of the message, the room for a name is enough for each name. */
  lemma {:induction false} NamesGrow(attrs: seq<Attr>, j: nat, k: nat, rest: nat)
    requires j < k <= |attrs| && attrs[j].kind == NAME
    ensures |attrs[j].data| + 1 <= Names(attrs, k, rest)
    decreases k
  {
    if j < k - 1 {
      NamesGrow(attrs, j, k - 1, rest);
    }
  }

  lemma {:induction false} StatsGrow(m: Info, attrs: seq<Attr>, j: nat, k: nat, rest: nat)
    requires j < k <= |attrs| && attrs[j].kind == STATS && m.Link?
    ensures |attrs[j].data| <= Stats(m, attrs, k, rest)
    decreases k
  {
    if j < k - 1 {
      StatsGrow(m, attrs, j, k - 1, rest);
    }
  }

  // ---------------------------------------------------------------- the second pass

  /** IN6_IS_ADDR_LINKLOCAL or IN6_IS_ADDR_MC_LINKLOCAL */
  predicate LinkLocal(data: Text)
  {
    |data| >= 2 && ((data[0] == 0xFE && 0x80 <= data[1] < 0xC0) || (data[0] == 0xFF && data[1] % 16 == 2))
  }

  predicate Scoped(m: Info, data: Text) { m.Addr? && m.family == AF_INET6 && LinkLocal(data) }

  /** The address bytes; the scope id of a link-local address stands behind the sixteenth. */
  function AddressBytes(m: Info, data: Text): Text
  {
    if Scoped(m, data) && |data| > 16 then data[..16] else data
  }

  /** A complete socket address at pos. */
  ghost predicate SockaddrAt(w: Text, pos: nat, m: Info, data: Text)
  {
    && Holds(w, pos, Host16(Family(m)))
    && Holds(w, pos + DataOffset(Family(m)), AddressBytes(m, data))
    && (m.Link? ==> Holds(w, pos + 4, Host32(m.index)) && Holds(w, pos + 8, Host16(m.hatype)))
    && (m.Link? ==> Holds(w, pos + 11, [Low8(|data|)]))
    && (Scoped(m, data) ==> Holds(w, pos + 24, Host32(m.index)))
  }

  /** Nothing has changed from lo to hi. */
  predicate Agree(was: Text, now: Text, lo: nat, hi: nat)
  {
    |was| == |now| && forall k :: lo <= k < hi && k < |was| ==> now[k] == was[k]
  }

  lemma HoldsKept(was: Text, now: Text, lo: nat, hi: nat, pos: nat, bytes: Text)
    requires Agree(was, now, lo, hi) && Holds(was, pos, bytes) && lo <= pos && pos + |bytes| <= hi
    ensures Holds(now, pos, bytes)
  {
  }

  lemma OutsideAgrees(was: Text, now: Text, lo: nat, hi: nat, from: nat, to: nat)
    requires SameOutside(was, now, lo, hi) && (to <= lo || hi <= from)
    ensures Agree(was, now, from, to)
  {
  }

  /** memcpy */
  method Copy(block: array<Byte>, at: nat, bytes: Text)
    requires at + |bytes| <= block.Length
    modifies block
    ensures Holds(block[..], at, bytes)
    ensures SameOutside(old(block[..]), block[..], at, at + |bytes|)
  {
    for k := 0 to |bytes|
      invariant forall i :: 0 <= i < k ==> block[at + i] == bytes[i]
      invariant SameOutside(old(block[..]), block[..], at, at + k)
    {
      block[at + k] := bytes[k];
    }
  }

  lemma SockaddrKept(was: Text, now: Text, pos: nat, m: Info, data: Text)
    requires SockaddrAt(was, pos, m, data)
    requires AddressFits(Family(m), |data|) && Agree(was, now, pos, pos + Align(CalcAddrLen(Family(m), |data|)))
    ensures SockaddrAt(now, pos, m, data)
  {
    hide Holds, Agree;
    var end := pos + Align(CalcAddrLen(Family(m), |data|));
    SockaddrHasRoom(Family(m), |data|);
    HoldsKept(was, now, pos, end, pos, Host16(Family(m)));
    HoldsKept(was, now, pos, end, pos + DataOffset(Family(m)), AddressBytes(m, data));
    if m.Link? {
      HoldsKept(was, now, pos, end, pos + 4, Host32(m.index));
      HoldsKept(was, now, pos, end, pos + 8, Host16(m.hatype));
      HoldsKept(was, now, pos, end, pos + 11, [Low8(|data|)]);
    }
    if Scoped(m, data) {
      HoldsKept(was, now, pos, end, pos + 24, Host32(m.index));
    }
  }

  /** Writes a plain socket address: its bytes, their number where there is a place for it, the family. */
  method MakeSockaddr(block: array<Byte>, pos: nat, family: Word16, data: Text)
    requires AddressFits(family, |data|) && pos + Align(CalcAddrLen(family, |data|)) <= block.Length
    modifies block
    ensures Holds(block[..], pos, Host16(family)) && Holds(block[..], pos + DataOffset(family), data)
    ensures family == AF_PACKET ==> Holds(block[..], pos + 11, [Low8(|data|)])
    ensures SameOutside(old(block[..]), block[..], pos, pos + Align(CalcAddrLen(family, |data|)))
    ensures family == 10 && |data| <= 16 ==> block[pos + 24..pos + 28] == old(block[pos + 24..pos + 28])
  {
    SockaddrHasRoom(family, |data|);
    Copy(block, pos + DataOffset(family), data);
    if family == AF_PACKET {
      block[pos + 11] := Low8(|data|);
    }
    var low, high := Low8(family), High8(family);
    block[pos], block[pos + 1] := low, high;
  }

  lemma HoldsOutside(was: Text, now: Text, lo: nat, hi: nat, pos: nat, bytes: Text)
    requires SameOutside(was, now, lo, hi) && Holds(was, pos, bytes) && (pos + |bytes| <= lo || hi <= pos)
    ensures Holds(now, pos, bytes)
  {
  }

  lemma OutsideTwice(a: Text, b: Text, c: Text, lo: nat, hi: nat, from: nat, to: nat)
    requires SameOutside(a, b, lo, hi) && SameOutside(b, c, from, to) && lo <= from && to <= hi
    ensures SameOutside(a, c, lo, hi)
  {
  }

  /** Copies a field into a range that has been written before, beside another field. */
  method CopyField(block: array<Byte>, at: nat, bytes: Text, ghost first: Text, ghost lo: nat, ghost hi: nat)
    requires at + |bytes| <= block.Length && SameOutside(first, block[..], lo, hi) && lo <= at && at + |bytes| <= hi
    modifies block
    ensures Holds(block[..], at, bytes) && SameOutside(first, block[..], lo, hi)
    ensures SameOutside(old(block[..]), block[..], at, at + |bytes|)
  {
    ghost var was := block[..];
    Copy(block, at, bytes);
    OutsideTwice(first, was, block[..], lo, hi, at, at + |bytes|);
  }

  /** A socket address with the fields that each kind of message adds to it. */
  method PlaceAddress(block: array<Byte>, pos: nat, m: Info, data: Text)
    requires AddressFits(Family(m), |data|) && pos + Align(CalcAddrLen(Family(m), |data|)) <= block.Length
    modifies block
    ensures SockaddrAt(block[..], pos, m, data)
    ensures SameOutside(old(block[..]), block[..], pos, pos + Align(CalcAddrLen(Family(m), |data|)))
    ensures m.Addr? && m.family == 10 && |data| <= 16 && !LinkLocal(data) ==>
              block[pos + 24..pos + 28] == old(block[pos + 24..pos + 28])
  {
    MakeSockaddr(block, pos, Family(m), data);
    SockaddrHasRoom(Family(m), |data|);
    ghost var end := pos + Align(CalcAddrLen(Family(m), |data|));
    if m.Link? {
      AddLinkFields(block, pos, m, data, old(block[..]), end);
    } else if Scoped(m, data) {
      AddScope(block, pos, m, data, old(block[..]), end);
    }
  }

  method AddLinkFields(block: array<Byte>, pos: nat, m: Info, data: Text, ghost first: Text, ghost end: nat)
    requires m.Link? && pos + 12 + |data| <= end <= block.Length && SameOutside(first, block[..], pos, end)
    requires Holds(block[..], pos, Host16(AF_PACKET)) && Holds(block[..], pos + 12, data)
    requires Holds(block[..], pos + 11, [Low8(|data|)])
    modifies block
    ensures SockaddrAt(block[..], pos, m, data)
    ensures SameOutside(first, block[..], pos, end)
  {
    ghost var was := block[..];
    CopyField(block, pos + 4, Host32(m.index), first, pos, end);
    ghost var then1 := block[..];
    CopyField(block, pos + 8, Host16(m.hatype), first, pos, end);
    HoldsOutside(then1, block[..], pos + 8, pos + 10, pos + 4, Host32(m.index));
    OutsideTwice(was, then1, then1, pos + 4, pos + 10, pos + 4, pos + 8);
    OutsideTwice(was, then1, block[..], pos + 4, pos + 10, pos + 8, pos + 10);
    HoldsOutside(was, block[..], pos + 4, pos + 10, pos, Host16(AF_PACKET));
    HoldsOutside(was, block[..], pos + 4, pos + 10, pos + 11, [Low8(|data|)]);
    HoldsOutside(was, block[..], pos + 4, pos + 10, pos + 12, data);
  }

  method AddScope(block: array<Byte>, pos: nat, m: Info, data: Text, ghost first: Text, ghost end: nat)
    requires Scoped(m, data) && pos + 28 <= end <= block.Length && SameOutside(first, block[..], pos, end)
    requires Holds(block[..], pos, Host16(AF_INET6)) && Holds(block[..], pos + 8, data)
    modifies block
    ensures SockaddrAt(block[..], pos, m, data)
    ensures SameOutside(first, block[..], pos, end)
  {
    ghost var was := block[..];
    CopyField(block, pos + 24, Host32(m.index), first, pos, end);
    HoldsOutside(was, block[..], pos + 24, pos + 28, pos, Host16(AF_INET6));
    assert Holds(was, pos + 8, AddressBytes(m, data));
    HoldsOutside(was, block[..], pos + 24, pos + 28, pos + 8, AddressBytes(m, data));
  }

  /** What strncpy leaves: the bytes up to a NUL, and then only NULs. */
  function StrNCpy(data: Text): (t: Text)
    ensures |t| == |data|
  {
    CString(data) + seq(|data| - |CString(data)|, _ => 0)
  }

  ghost predicate NameAt(w: Text, pos: nat, data: Text) { Holds(w, pos, StrNCpy(data) + [0]) }

  /** So the name reads as the bytes of the attribute up to their NUL, if they have one. */
  lemma NameReads(w: Text, pos: nat, data: Text)
    requires NameAt(w, pos, data)
    ensures CString(w[pos..]) == CString(data)
  {
    var n := |CString(data)|;
    var t := StrNCpy(data) + [0];
    assert forall i :: 0 <= i < n ==> w[pos..][..n][i] == w[pos + i] == t[i] == CString(data)[i];
    assert w[pos..][..n] == CString(data);
    CStringWhole(data);
    assert w[pos..][n] == w[pos + n] == t[n] == 0;
    FirstNulAfter(w[pos..], n, 0);
  }

  lemma {:induction false} FirstNulAfter(t: Text, n: nat, i: nat)
    requires i <= n < |t| && t[n] == 0 && 0 !in t[..n]
    ensures FirstNul(t, i) == n
    decreases n - i
  {
    if i < n {
      assert t[i] in t[..n];
      FirstNulAfter(t, n, i + 1);
    }
  }

  method PlaceName(block: array<Byte>, pos: nat, data: Text)
    requires pos + |data| + 1 <= block.Length
    modifies block
    ensures NameAt(block[..], pos, data)
    ensures SameOutside(old(block[..]), block[..], pos, pos + |data| + 1)
  {
    Copy(block, pos, StrNCpy(data));
    block[pos + |data|] := 0;
  }

  /** The entry's pointers into its own block. The broadcast address shares its field with the destination. */
  datatype Pointers = Pointers(name: Option<nat>, addr: Option<nat>, dst: Option<nat>, data: Option<nat>)

  /** Where the parts of the block begin. */
  datatype Layout = Layout(nameAt: nat, addrAt: nat, dataAt: nat)

  /** The pointers after one more attribute, whose address would stand at pos. */
  function Pointed(m: Info, p: Pointers, a: Attr, pos: nat, l: Layout): Pointers
  {
    if a.kind == ADDRESS then
      if m.Addr? && p.addr.Some? then p.(dst := Some(pos)) else p.(addr := Some(pos))
    else if m.Addr? && a.kind == LOCAL then p.(addr := Some(pos), dst := if p.addr.Some? then p.addr else p.dst)
    else if a.kind == if m.Link? then LINK_BROADCAST else BROADCAST then p.(dst := Some(pos))
    else if a.kind == NAME then p.(name := Some(l.nameAt))
    else if m.Link? && a.kind == STATS then p.(data := Some(l.dataAt))
    else p
  }

  function AllPointed(m: Info, attrs: seq<Attr>, k: nat, l: Layout): Pointers
    requires k <= |attrs|
  {
    if k == 0 then Pointers(None, None, None, None)
    else Pointed(m, AllPointed(m, attrs, k - 1, l), attrs[k - 1], l.addrAt + Slots(m, attrs, k - 1), l)
  }

  /** The data of the last of the first k attributes that has a kind. */
  function LastData(attrs: seq<Attr>, k: nat, kind: nat): Option<Text>
    requires k <= |attrs|
  {
    if k == 0 then None
    else if attrs[k - 1].kind == kind then Some(attrs[k - 1].data)
    else LastData(attrs, k - 1, kind)
  }

  /** Each of the first k addresses is complete in its own slot. */
  ghost predicate AddressesIn(w: Text, m: Info, attrs: seq<Attr>, k: nat, addrAt: nat)
    requires k <= |attrs|
  {
    k > 0 ==>
      && AddressesIn(w, m, attrs, k - 1, addrAt)
      && (IsAddress(m, attrs[k - 1]) ==> SockaddrAt(w, addrAt + Slots(m, attrs, k - 1), m, attrs[k - 1].data))
  }

  lemma {:induction false} AddressIsIn(w: Text, m: Info, attrs: seq<Attr>, j: nat, k: nat, addrAt: nat)
    requires j < k <= |attrs| && AddressesIn(w, m, attrs, k, addrAt) && IsAddress(m, attrs[j])
    ensures SockaddrAt(w, addrAt + Slots(m, attrs, j), m, attrs[j].data)
    decreases k
  {
    hide SockaddrAt;
    if j < k - 1 {
      AddressIsIn(w, m, attrs, j, k - 1, addrAt);
    }
  }

  ghost predicate NameIn(w: Text, attrs: seq<Attr>, k: nat, nameAt: nat)
    requires k <= |attrs|
  {
    LastData(attrs, k, NAME).Some? ==> NameAt(w, nameAt, LastData(attrs, k, NAME).value)
  }

  ghost predicate StatsIn(w: Text, m: Info, attrs: seq<Attr>, k: nat, dataAt: nat)
    requires k <= |attrs|
  {
    m.Link? && LastData(attrs, k, STATS).Some? ==> Holds(w, dataAt, LastData(attrs, k, STATS).value)
  }

  /** All that the first k attributes say is in the block at the same time. */
  ghost predicate FilledIn(w: Text, m: Info, attrs: seq<Attr>, k: nat, l: Layout)
    requires k <= |attrs|
  {
    AddressesIn(w, m, attrs, k, l.addrAt) && NameIn(w, attrs, k, l.nameAt) && StatsIn(w, m, attrs, k, l.dataAt)
  }

  /** The block and its parts as the first pass measured them. */
  predicate Measured(size: nat, m: Info, attrs: seq<Attr>, rest: nat, l: Layout)
  {
    && l.addrAt == l.nameAt + Names(attrs, |attrs|, rest)
    && l.dataAt == l.addrAt + Slots(m, attrs, |attrs|) + NetmaskRoom(m, attrs, |attrs|)
    && size == l.dataAt + Stats(m, attrs, |attrs|, rest)
  }

  /** No address is too long for its family; the kernel sends four or sixteen bytes. */
  predicate AddressesFit(m: Info, attrs: seq<Attr>)
  {
    forall j :: 0 <= j < |attrs| && IsAddress(m, attrs[j]) ==> AddressFits(Family(m), |attrs[j].data|)
  }

  lemma {:induction false} AddressesKept(was: Text, now: Text, m: Info, attrs: seq<Attr>, k: nat, addrAt: nat)
    requires k <= |attrs| && AddressesFit(m, attrs) && AddressesIn(was, m, attrs, k, addrAt)
    requires Agree(was, now, addrAt, addrAt + Slots(m, attrs, k))
    ensures AddressesIn(now, m, attrs, k, addrAt)
    decreases k
  {
    hide SockaddrAt;
    if k > 0 {
      AddressesKept(was, now, m, attrs, k - 1, addrAt);
      if IsAddress(m, attrs[k - 1]) {
        SockaddrKept(was, now, addrAt + Slots(m, attrs, k - 1), m, attrs[k - 1].data);
      }
    }
  }

  lemma {:induction false} LastDataIs(attrs: seq<Attr>, k: nat, kind: nat)
    requires k <= |attrs| && LastData(attrs, k, kind).Some?
    ensures exists j :: 0 <= j < k && attrs[j].kind == kind && attrs[j].data == LastData(attrs, k, kind).value
  {
    if attrs[k - 1].kind != kind {
      LastDataIs(attrs, k - 1, kind);
    }
  }

  lemma NameKept(was: Text, now: Text, attrs: seq<Attr>, k: nat, rest: nat, nameAt: nat)
    requires k <= |attrs| && NameIn(was, attrs, k, nameAt)
    requires Agree(was, now, nameAt, nameAt + Names(attrs, |attrs|, rest))
    ensures NameIn(now, attrs, k, nameAt)
  {
    if LastData(attrs, k, NAME).Some? {
      LastDataIs(attrs, k, NAME);
      var j :| 0 <= j < k && attrs[j].kind == NAME && attrs[j].data == LastData(attrs, k, NAME).value;
      NamesGrow(attrs, j, |attrs|, rest);
      HoldsKept(was, now, nameAt, nameAt + Names(attrs, |attrs|, rest), nameAt, StrNCpy(attrs[j].data) + [0]);
    }
  }

  lemma StatsKept(was: Text, now: Text, m: Info, attrs: seq<Attr>, k: nat, rest: nat, dataAt: nat)
    requires k <= |attrs| && StatsIn(was, m, attrs, k, dataAt)
    requires Agree(was, now, dataAt, dataAt + Stats(m, attrs, |attrs|, rest))
    ensures StatsIn(now, m, attrs, k, dataAt)
  {
    if m.Link? && LastData(attrs, k, STATS).Some? {
      LastDataIs(attrs, k, STATS);
      var j :| 0 <= j < k && attrs[j].kind == STATS && attrs[j].data == LastData(attrs, k, STATS).value;
      StatsGrow(m, attrs, j, |attrs|, rest);
      HoldsKept(was, now, dataAt, dataAt + Stats(m, attrs, |attrs|, rest), dataAt, attrs[j].data);
    }
  }

  lemma AddressPlaced(was: Text, now: Text, m: Info, attrs: seq<Attr>, k: nat, rest: nat, l: Layout,
                      pos: nat, slot: nat)
    requires k < |attrs| && AddressesFit(m, attrs) && pos == l.addrAt + Slots(m, attrs, k) && slot == Slot(m, attrs[k])
    requires Measured(|was|, m, attrs, rest, l) && FilledIn(was, m, attrs, k, l)
    requires SameOutside(was, now, pos, pos + slot)
    ensures AddressesIn(now, m, attrs, k, l.addrAt)
    ensures NameIn(now, attrs, k, l.nameAt) && StatsIn(now, m, attrs, k, l.dataAt)
  {
    SlotsGrow(m, attrs, k, |attrs|);
    OutsideAgrees(was, now, pos, pos + slot, l.addrAt, pos);
    AddressesKept(was, now, m, attrs, k, l.addrAt);
    OutsideAgrees(was, now, pos, pos + slot, l.nameAt, l.addrAt);
    NameKept(was, now, attrs, k, rest, l.nameAt);
    OutsideAgrees(was, now, pos, pos + slot, l.dataAt, |was|);
    StatsKept(was, now, m, attrs, k, rest, l.dataAt);
  }

  /** Writing into the room for names, or into the room for statistics, touches nothing else. */
  lemma OthersKept(was: Text, now: Text, m: Info, attrs: seq<Attr>, k: nat, rest: nat, l: Layout, name: bool, n: nat)
    requires k < |attrs| && AddressesFit(m, attrs)
    requires Measured(|was|, m, attrs, rest, l) && FilledIn(was, m, attrs, k, l)
    requires if name then n <= Names(attrs, |attrs|, rest) else n <= Stats(m, attrs, |attrs|, rest)
    requires SameOutside(was, now, if name then l.nameAt else l.dataAt, (if name then l.nameAt else l.dataAt) + n)
    ensures AddressesIn(now, m, attrs, k, l.addrAt)
    ensures if name then StatsIn(now, m, attrs, k, l.dataAt) else NameIn(now, attrs, k, l.nameAt)
  {
    var lo := if name then l.nameAt else l.dataAt;
    SlotsGrow(m, attrs, k, |attrs|);
    OutsideAgrees(was, now, lo, lo + n, l.addrAt, l.addrAt + Slots(m, attrs, k));
    AddressesKept(was, now, m, attrs, k, l.addrAt);
    if name {
      OutsideAgrees(was, now, lo, lo + n, l.dataAt, |was|);
      StatsKept(was, now, m, attrs, k, rest, l.dataAt);
    } else {
      OutsideAgrees(was, now, lo, lo + n, l.nameAt, l.addrAt);
      NameKept(was, now, attrs, k, rest, l.nameAt);
    }
  }

  lemma AddressAdded(was: Text, now: Text, m: Info, attrs: seq<Attr>, k: nat, rest: nat, l: Layout, pos: nat, slot: nat)
    requires k < |attrs| && AddressesFit(m, attrs) && pos == l.addrAt + Slots(m, attrs, k) && slot == Slot(m, attrs[k])
    requires Measured(|was|, m, attrs, rest, l) && FilledIn(was, m, attrs, k, l)
    requires SameOutside(was, now, pos, pos + slot)
    requires IsAddress(m, attrs[k]) && SockaddrAt(now, pos, m, attrs[k].data)
    ensures FilledIn(now, m, attrs, k + 1, l)
  {
    hide FilledIn, AddressesIn, NameIn, StatsIn, SockaddrAt, SameOutside, AddressesFit;
    AddressPlaced(was, now, m, attrs, k, rest, l, pos, slot);
    AddressedNext(now, m, attrs, k, l, pos);
  }

  lemma AddressedNext(w: Text, m: Info, attrs: seq<Attr>, k: nat, l: Layout, pos: nat)
    requires k < |attrs| && IsAddress(m, attrs[k]) && pos == l.addrAt + Slots(m, attrs, k)
    requires AddressesIn(w, m, attrs, k, l.addrAt) && SockaddrAt(w, pos, m, attrs[k].data)
    requires NameIn(w, attrs, k, l.nameAt) && StatsIn(w, m, attrs, k, l.dataAt)
    ensures FilledIn(w, m, attrs, k + 1, l)
  {
    hide SockaddrAt, NameAt, Holds;
  }

  lemma SlotInBlock(size: nat, m: Info, attrs: seq<Attr>, k: nat, rest: nat, l: Layout, pos: nat)
    requires k < |attrs| && IsAddress(m, attrs[k]) && pos == l.addrAt + Slots(m, attrs, k)
    requires Measured(size, m, attrs, rest, l)
    ensures l.nameAt <= pos && pos + Align(CalcAddrLen(Family(m), |attrs[k].data|)) <= size
  {
    SlotsGrow(m, attrs, k, |attrs|);
  }

  method FillAddress(block: array<Byte>, m: Info, attrs: seq<Attr>, k: nat, ghost rest: nat, l: Layout, pos: nat)
    requires k < |attrs| && AddressesFit(m, attrs) && pos == l.addrAt + Slots(m, attrs, k) && IsAddress(m, attrs[k])
    requires Measured(block.Length, m, attrs, rest, l) && FilledIn(block[..], m, attrs, k, l)
    modifies block
    ensures FilledIn(block[..], m, attrs, k + 1, l)
    ensures SameOutside(old(block[..]), block[..], l.nameAt, block.Length)
  {
    ghost var was := block[..];
    SlotInBlock(block.Length, m, attrs, k, rest, l, pos);
    PlaceAddress(block, pos, m, attrs[k].data);
    AddressAdded(was, block[..], m, attrs, k, rest, l, pos, Align(CalcAddrLen(Family(m), |attrs[k].data|)));
  }

  method FillName(block: array<Byte>, m: Info, attrs: seq<Attr>, k: nat, ghost rest: nat, l: Layout)
    requires k < |attrs| && AddressesFit(m, attrs) && attrs[k].kind == NAME
    requires Measured(block.Length, m, attrs, rest, l) && FilledIn(block[..], m, attrs, k, l)
    modifies block
    ensures FilledIn(block[..], m, attrs, k + 1, l)
    ensures SameOutside(old(block[..]), block[..], l.nameAt, block.Length)
  {
    ghost var was := block[..];
    NamesGrow(attrs, k, |attrs|, rest);
    PlaceName(block, l.nameAt, attrs[k].data);
    OthersKept(was, block[..], m, attrs, k, rest, l, true, |attrs[k].data| + 1);
  }

  method FillStats(block: array<Byte>, m: Info, attrs: seq<Attr>, k: nat, ghost rest: nat, l: Layout)
    requires k < |attrs| && AddressesFit(m, attrs) && m.Link? && attrs[k].kind == STATS
    requires Measured(block.Length, m, attrs, rest, l) && FilledIn(block[..], m, attrs, k, l)
    modifies block
    ensures FilledIn(block[..], m, attrs, k + 1, l)
    ensures SameOutside(old(block[..]), block[..], l.nameAt, block.Length)
  {
    ghost var was := block[..];
    StatsGrow(m, attrs, k, |attrs|, rest);
    Copy(block, l.dataAt, attrs[k].data);
    OthersKept(was, block[..], m, attrs, k, rest, l, false, |attrs[k].data|);
  }

  lemma OtherKind(w: Text, m: Info, attrs: seq<Attr>, k: nat, l: Layout)
    requires k < |attrs| && FilledIn(w, m, attrs, k, l)
    requires !IsAddress(m, attrs[k]) && attrs[k].kind != NAME && (m.Link? ==> attrs[k].kind != STATS)
    ensures FilledIn(w, m, attrs, k + 1, l)
  {
  }

  /** One attribute of the second pass; its address, if it is one, goes to pos. */
  method FillOne(block: array<Byte>, m: Info, attrs: seq<Attr>, k: nat, ghost rest: nat, l: Layout,
                 p: Pointers, pos: nat)
      returns (q: Pointers)
    requires k < |attrs| && AddressesFit(m, attrs) && pos == l.addrAt + Slots(m, attrs, k)
    requires Measured(block.Length, m, attrs, rest, l) && FilledIn(block[..], m, attrs, k, l)
    modifies block
    ensures FilledIn(block[..], m, attrs, k + 1, l)
    ensures SameOutside(old(block[..]), block[..], l.nameAt, block.Length)
    ensures q == Pointed(m, p, attrs[k], pos, l)
  {
    q := Pointed(m, p, attrs[k], pos, l);
    if IsAddress(m, attrs[k]) {
      FillAddress(block, m, attrs, k, rest, l, pos);
    } else if attrs[k].kind == NAME {
      FillName(block, m, attrs, k, rest, l);
    } else if m.Link? && attrs[k].kind == STATS {
      FillStats(block, m, attrs, k, rest, l);
    } else {
      OtherKind(block[..], m, attrs, k, l);
    }
  }

  lemma NothingYet(w: Text, m: Info, attrs: seq<Attr>, l: Layout)
    ensures FilledIn(w, m, attrs, 0, l)
  {
  }

  /**
    The second pass of either kind of message. Everything is written within the block that the
    first pass measured, and nothing overwrites anything but an earlier name or statistics.
   */
  method Fill(block: array<Byte>, m: Info, attrs: seq<Attr>, ghost rest: nat, l: Layout) returns (p: Pointers, end: nat)
    requires AddressesFit(m, attrs) && Measured(block.Length, m, attrs, rest, l)
    modifies block
    ensures FilledIn(block[..], m, attrs, |attrs|, l)
    ensures SameOutside(old(block[..]), block[..], l.nameAt, block.Length)
    ensures p == AllPointed(m, attrs, |attrs|, l)
    ensures end == l.addrAt + Slots(m, attrs, |attrs|)
  {
    hide FilledIn, AddressesFit, Measured, Slot, Pointed;
    NothingYet(block[..], m, attrs, l);
    p, end := Pointers(None, None, None, None), l.addrAt;
    for k := 0 to |attrs|
      invariant FilledIn(block[..], m, attrs, k, l)
      invariant SameOutside(old(block[..]), block[..], l.nameAt, block.Length)
      invariant p == AllPointed(m, attrs, k, l)
      invariant end == l.addrAt + Slots(m, attrs, k)
    {
      p := FillOne(block, m, attrs, k, rest, l, p, end);
      end := end + Slot(m, attrs[k]);
    }
  }

  /**
    The rooms do not overlap and lie within the block: each name in front of the addresses, each
    address in front of the next, the netmask behind the last, and all statistics behind that.
   */
  lemma RoomsAreApart(size: nat, m: Info, attrs: seq<Attr>, rest: nat, l: Layout, i: nat, j: nat)
    requires Measured(size, m, attrs, rest, l) && i < |attrs| && j < |attrs|
    ensures attrs[i].kind == NAME ==> l.nameAt + |attrs[i].data| + 1 <= l.addrAt
    ensures i < j ==> l.addrAt + Slots(m, attrs, i) + Slot(m, attrs[i]) <= l.addrAt + Slots(m, attrs, j)
    ensures l.addrAt + Slots(m, attrs, i) + Slot(m, attrs[i]) <= l.dataAt - NetmaskRoom(m, attrs, |attrs|)
    ensures m.Link? && attrs[i].kind == STATS ==> l.dataAt + |attrs[i].data| <= size
  {
    if attrs[i].kind == NAME {
      NamesGrow(attrs, i, |attrs|, rest);
    }
    if i < j {
      SlotsGrow(m, attrs, i, j);
    }
    SlotsGrow(m, attrs, i, |attrs|);
    if m.Link? && attrs[i].kind == STATS {
      StatsGrow(m, attrs, i, |attrs|, rest);
    }
  }

  lemma {:induction false} SizesAreAligned(m: Info, attrs: seq<Attr>, k: nat, rest: nat)
    requires k <= |attrs|
    ensures Slots(m, attrs, k) % 4 == 0 && Names(attrs, k, rest) % 4 == 0
    ensures Stats(m, attrs, k, rest) % 4 == 0 && NetmaskRoom(m, attrs, k) % 4 == 0
    decreases k
  {
    hide Align, CalcAddrLen, IsAddress, Remaining;
    if k > 0 {
      SizesAreAligned(m, attrs, k - 1, rest);
      var name, stats := Align(Remaining(attrs, k - 1, rest) + 1), Align(Remaining(attrs, k - 1, rest));
      assert Slot(m, attrs[k - 1]) % 4 == 0;
      SumIsAligned(Slots(m, attrs, k - 1), Slot(m, attrs[k - 1]), 0);
      SumIsAligned(Names(attrs, k - 1, rest), name, 0);
      SumIsAligned(Stats(m, attrs, k - 1, rest), stats, 0);
    }
  }

  /** Every address, the netmask and the statistics begin at a multiple of four, as the names do. */
  lemma RoomsAreAligned(size: nat, m: Info, attrs: seq<Attr>, rest: nat, l: Layout, k: nat)
    requires Measured(size, m, attrs, rest, l) && k <= |attrs| && l.nameAt % 4 == 0
    ensures (l.addrAt + Slots(m, attrs, k)) % 4 == 0 && l.dataAt % 4 == 0 && size % 4 == 0
  {
    hide Slots, Names, Stats, NetmaskRoom;
    SizesAreAligned(m, attrs, k, rest);
    SizesAreAligned(m, attrs, |attrs|, rest);
    SumIsAligned(l.nameAt, Names(attrs, |attrs|, rest), Slots(m, attrs, k));
    SumIsAligned(l.addrAt, Slots(m, attrs, |attrs|), NetmaskRoom(m, attrs, |attrs|));
    SumIsAligned(l.dataAt, Stats(m, attrs, |attrs|, rest), 0);
  }

  lemma SumIsAligned(a: nat, b: nat, c: nat)
    requires a % 4 == 0 && b % 4 == 0 && c % 4 == 0
    ensures (a + b) % 4 == 0 && (a + b + c) % 4 == 0
  {
  }

  // ---------------------------------------------------------------- which address is which

  function SlotAt(m: Info, attrs: seq<Attr>, k: nat, l: Layout): Option<nat>
    requires k <= |attrs|
  {
    Some(l.addrAt + Slots(m, attrs, k))
  }

  /** The slot of the first, or of the last, of the first k attributes that has a kind. */
  function FirstSlot(m: Info, attrs: seq<Attr>, k: nat, kind: nat, l: Layout): Option<nat>
    requires k <= |attrs|
  {
    if k == 0 then None
    else if FirstSlot(m, attrs, k - 1, kind, l).Some? then FirstSlot(m, attrs, k - 1, kind, l)
    else if attrs[k - 1].kind == kind then SlotAt(m, attrs, k - 1, l)
    else None
  }

  function LastSlot(m: Info, attrs: seq<Attr>, k: nat, kind: nat, l: Layout): Option<nat>
    requires k <= |attrs|
  {
    if k == 0 then None
    else if attrs[k - 1].kind == kind then SlotAt(m, attrs, k - 1, l)
    else LastSlot(m, attrs, k - 1, kind, l)
  }

  /** In whatever order the attributes come, the local address is the entry's own, if there is one. */
  lemma {:induction false} LocalWins(m: Info, attrs: seq<Attr>, k: nat, l: Layout)
    requires k <= |attrs| && m.Addr?
    ensures AllPointed(m, attrs, k, l).addr ==
              if LastSlot(m, attrs, k, 2, l).Some? then LastSlot(m, attrs, k, 2, l)
              else FirstSlot(m, attrs, k, 1, l)
  {
    if k > 0 {
      LocalWins(m, attrs, k - 1, l);
    }
  }

  /** On a point-to-point link, an address and a local address in either order are the other end and one's own. */
  lemma {:induction false} PointToPoint(m: Info, attrs: seq<Attr>, i: nat, j: nat, k: nat, l: Layout)
    requires m.Addr? && i < |attrs| && j < |attrs| && attrs[i].kind == 1 && attrs[j].kind == 2
    requires forall x :: 0 <= x < |attrs| && x != i && x != j ==> attrs[x].kind !in {1, 2, 4}
    requires k <= |attrs|
    ensures var p := AllPointed(m, attrs, k, l);
            && p.addr == (if j < k then SlotAt(m, attrs, j, l) else if i < k then SlotAt(m, attrs, i, l) else None)
            && p.dst == (if i < k && j < k then SlotAt(m, attrs, i, l) else None)
    decreases k
  {
    if k > 0 {
      PointToPoint(m, attrs, i, j, k - 1, l);
    }
  }

  /**
    A link's own address is its last attribute of kind 1, its broadcast address the last of kind 2,
    and its statistics are those of kind 7.
   */
  lemma {:induction false} LinkAddresses(m: Info, attrs: seq<Attr>, k: nat, l: Layout)
    requires k <= |attrs| && m.Link?
    ensures var p := AllPointed(m, attrs, k, l);
            && p.addr == LastSlot(m, attrs, k, 1, l) && p.dst == LastSlot(m, attrs, k, 2, l)
            && p.data == (if LastData(attrs, k, 7).Some? then Some(l.dataAt) else None)
            && p.name == (if LastData(attrs, k, 3).Some? then Some(l.nameAt) else None)
  {
    if k > 0 {
      LinkAddresses(m, attrs, k - 1, l);
    }
  }

  /** An address entry has no statistics; its name is there exactly with an attribute of kind 3. */
  lemma {:induction false} AddressName(m: Info, attrs: seq<Attr>, k: nat, l: Layout)
    requires k <= |attrs| && m.Addr?
    ensures var p := AllPointed(m, attrs, k, l);
            p.data == None && p.name == (if LastData(attrs, k, 3).Some? then Some(l.nameAt) else None)
  {
    if k > 0 {
      AddressName(m, attrs, k - 1, l);
    }
  }

  /** A broadcast address, kind 4, shares its field with the destination and takes it, unless others come behind it. */
  lemma {:induction false} BroadcastWins(m: Info, attrs: seq<Attr>, b: nat, k: nat, l: Layout)
    requires m.Addr? && b < k <= |attrs| && attrs[b].kind == 4
    requires forall x :: b < x < k ==> attrs[x].kind !in {1, 2, 4}
    ensures AllPointed(m, attrs, k, l).dst == SlotAt(m, attrs, b, l)
  {
    if b < k - 1 {
      BroadcastWins(m, attrs, b, k - 1, l);
    }
  }

  /** Each single address can be read back from the filled block: its family and its bytes. */
  lemma AddressReads(w: Text, m: Info, attrs: seq<Attr>, l: Layout, j: nat)
    requires FilledIn(w, m, attrs, |attrs|, l) && j < |attrs| && IsAddress(m, attrs[j])
    ensures var pos, bytes := l.addrAt + Slots(m, attrs, j), AddressBytes(m, attrs[j].data);
            var at := pos + DataOffset(Family(m));
            && pos + 2 <= |w| && GetHost16(w, pos) == Family(m)
            && at + |bytes| <= |w| && w[at..at + |bytes|] == bytes
  {
    hide AddressesIn, SockaddrAt, Holds, NameIn, StatsIn;
    AddressIsIn(w, m, attrs, j, |attrs|, l.addrAt);
    var pos := l.addrAt + Slots(m, attrs, j);
    FamilyHeld(w, pos, m, attrs[j].data);
    BytesHeld(w, pos, m, attrs[j].data);
    HeldSlice(w, pos + DataOffset(Family(m)), AddressBytes(m, attrs[j].data));
  }

  /** The link-local addresses: those from fe80 to febf, and the groups whose second byte ends in 2. */
  lemma LinkLocalIs(data: Text)
    ensures LinkLocal(data) <==>
              |data| >= 2 &&
              var word := data[0] as int * 256 + data[1] as int;
              0xFE80 <= word <= 0xFEBF || exists n: int :: 0 <= n < 16 && word == 0xFF02 + 16 * n
  {
    if |data| >= 2 {
      var word: int, n: int := data[0] as int * 256 + data[1] as int, data[1] as int / 16;
      assert data[1] as int == 16 * n + data[1] as int % 16;
      if LinkLocal(data) && data[0] == 0xFF {
        assert word == 0xFF02 + 16 * n;
      }
    }
  }

  /** In the filled block, a link-local IPv6 address has the interface behind it. */
  lemma ScopeReads(w: Text, m: Info, attrs: seq<Attr>, l: Layout, j: nat)
    requires FilledIn(w, m, attrs, |attrs|, l) && j < |attrs| && m.Addr? && m.family == 10
    requires attrs[j].kind in {1, 2, 4} && LinkLocal(attrs[j].data)
    ensures var pos := l.addrAt + Slots(m, attrs, j);
            pos + 28 <= |w| && GetHost32(w, pos + 24) == m.index
  {
    hide AddressesIn, SockaddrAt, Holds, NameIn, StatsIn;
    AddressIsIn(w, m, attrs, j, |attrs|, l.addrAt);
    ScopeHeld(w, l.addrAt + Slots(m, attrs, j), m, attrs[j].data);
  }

  lemma ScopeHeld(w: Text, pos: nat, m: Info, data: Text)
    requires SockaddrAt(w, pos, m, data) && Scoped(m, data)
    ensures pos + 28 <= |w| && GetHost32(w, pos + 24) == m.index
  {
    HeldLong(w, pos + 24, m.index);
  }

  /** In the filled block, an address of a link has the interface, its hardware type and its length with it. */
  lemma LinkFieldsRead(w: Text, m: Info, attrs: seq<Attr>, l: Layout, j: nat)
    requires FilledIn(w, m, attrs, |attrs|, l) && j < |attrs| && m.Link? && attrs[j].kind in {1, 2}
    ensures var pos := l.addrAt + Slots(m, attrs, j);
            && pos + 12 <= |w| && GetHost16(w, pos) == 17
            && GetHost32(w, pos + 4) == m.index && GetHost16(w, pos + 8) == m.hatype
            && w[pos + 11] == Low8(|attrs[j].data|)
  {
    hide AddressesIn, SockaddrAt, Holds, NameIn, StatsIn;
    AddressIsIn(w, m, attrs, j, |attrs|, l.addrAt);
    FamilyHeld(w, l.addrAt + Slots(m, attrs, j), m, attrs[j].data);
    LinkFieldsHeld(w, l.addrAt + Slots(m, attrs, j), m, attrs[j].data);
  }

  lemma LinkFieldsHeld(w: Text, pos: nat, m: Info, data: Text)
    requires SockaddrAt(w, pos, m, data) && m.Link?
    ensures pos + 12 <= |w| && GetHost32(w, pos + 4) == m.index && GetHost16(w, pos + 8) == m.hatype
    ensures w[pos + 11] == Low8(|data|)
  {
    HeldLong(w, pos + 4, m.index);
    HeldWord(w, pos + 8, m.hatype);
    assert w[pos + 11 + 0] == [Low8(|data|)][0];
  }

  predicate Internet(family: Word16) { family == AF_INET || family == AF_INET6 }

  /** There is room for a netmask exactly when the entry has an internet address to which it belongs. */
  lemma {:induction false} NetmaskHasRoom(w: Text, m: Info, attrs: seq<Attr>, k: nat, l: Layout)
    requires k <= |attrs| && m.Addr? && AddressesIn(w, m, attrs, k, l.addrAt)
    ensures var addr := AllPointed(m, attrs, k, l).addr;
            && (NetmaskRoom(m, attrs, k) > 0 <==> addr.Some? && Internet(m.family))
            && (addr.Some? ==> addr.value + 2 <= |w| && GetHost16(w, addr.value) == m.family)
    ensures NetmaskRoom(m, attrs, k) > 0 ==> NetmaskRoom(m, attrs, k) == CalcAddrLen(m.family, 0)
    decreases k
  {
    hide SockaddrAt;
    if k > 0 {
      NetmaskHasRoom(w, m, attrs, k - 1, l);
      if IsAddress(m, attrs[k - 1]) {
        FamilyHeld(w, l.addrAt + Slots(m, attrs, k - 1), m, attrs[k - 1].data);
      }
    }
  }

  lemma BytesHeld(w: Text, pos: nat, m: Info, data: Text)
    requires SockaddrAt(w, pos, m, data)
    ensures Holds(w, pos + DataOffset(Family(m)), AddressBytes(m, data))
    ensures pos + DataOffset(Family(m)) + |AddressBytes(m, data)| <= |w|
  {
  }

  lemma FamilyHeld(w: Text, pos: nat, m: Info, data: Text)
    requires SockaddrAt(w, pos, m, data)
    ensures pos + 2 <= |w| && GetHost16(w, pos) == Family(m)
  {
    HeldWord(w, pos, Family(m));
  }

  lemma HeldSlice(w: Text, pos: nat, bytes: Text)
    requires Holds(w, pos, bytes)
    ensures w[pos..pos + |bytes|] == bytes
  {
  }

  lemma HeldWord(w: Text, pos: nat, v: Word16)
    requires Holds(w, pos, Host16(v))
    ensures GetHost16(w, pos) == v == w[pos] as int + w[pos + 1] as int * 256
  {
    assert w[pos + 0] == Host16(v)[0] && w[pos + 1] == Host16(v)[1];
  }

  lemma HeldLong(w: Text, pos: nat, v: Word32)
    requires Holds(w, pos, Host32(v))
    ensures GetHost32(w, pos) == v
  {
    assert w[pos + 0] == Host32(v)[0] && w[pos + 1] == Host32(v)[1];
    assert w[pos + 2] == Host32(v)[2] && w[pos + 3] == Host32(v)[3];
  }

  // ---------------------------------------------------------------- the netmask

  /** The bit of a byte that comes after b others, the highest one first. */
  predicate Bit(c: Byte, b: nat)
    decreases b
  {
    if b == 0 then c >= 128 else Bit(2 * (if c >= 128 then c - 128 else c), b - 1)
  }

  /** 0xff << (8 - n), cut to a byte. */
  function HighBits(n: nat): Byte
    requires n <= 8
  {
    if n == 0 then 0 else if n == 1 then 128 else if n == 2 then 192 else if n == 3 then 224
    else if n == 4 then 240 else if n == 5 then 248 else if n == 6 then 252 else if n == 7 then 254 else 255
  }

  lemma {:induction false} HighBitsAre(n: nat, b: nat)
    requires n <= 8
    ensures Bit(HighBits(n), b) <==> b < n
    decreases b
  {
    if b > 0 {
      HighBitsAre(if n == 0 then 0 else n - 1, b - 1);
    }
  }

  /** Exactly the first bits are set, as many as the prefix is long. */
  predicate IsMask(mask: Text, prefixLen: nat)
  {
    forall n, b :: 0 <= n < |mask| && 0 <= b < 8 ==> (Bit(mask[n], b) <==> 8 * n + b < prefixLen)
  }

  /** The mask for a prefix; a prefix longer than the mask sets all of it. */
  method MakeMask(prefixLen: nat, size: nat) returns (mask: Text)
    requires size <= 16
    ensures |mask| == size
    ensures IsMask(mask, prefixLen)
  {
    var prefix := if prefixLen > 8 * size then 8 * size else prefixLen;
    var bytes := new Byte[16](_ => 0);
    var i := 0;
    while i < prefix / 8
      invariant 0 <= i <= prefix / 8 <= size
      invariant forall n :: 0 <= n < 16 ==> bytes[n] == if n < i then 0xFF else 0
    {
      bytes[i] := 0xFF;
      i := i + 1;
    }
    if prefix % 8 != 0 {
      bytes[i] := HighBits(prefix % 8);
    }
    mask := bytes[..size];
    forall n, b | 0 <= n < size && 0 <= b < 8
      ensures Bit(mask[n], b) <==> 8 * n + b < prefixLen
    {
      HighBitsAre(prefix % 8, b);
      HighBitsAre(8, b);
      HighBitsAre(0, b);
    }
  }

  /** Writes the netmask behind the addresses; nothing that was filled in is touched. */
  method PlaceNetmask(block: array<Byte>, m: Info, attrs: seq<Attr>, ghost rest: nat, l: Layout, end: nat, mask: Text)
    requires m.Addr? && AddressesFit(m, attrs) && Measured(block.Length, m, attrs, rest, l)
    requires FilledIn(block[..], m, attrs, |attrs|, l) && end == l.addrAt + Slots(m, attrs, |attrs|)
    requires Internet(m.family) && |mask| == (if m.family == AF_INET then 4 else 16)
    requires end + CalcAddrLen(m.family, 0) <= l.dataAt
    modifies block
    ensures FilledIn(block[..], m, attrs, |attrs|, l)
    ensures Holds(block[..], end, Host16(m.family)) && Holds(block[..], end + DataOffset(m.family), mask)
    ensures SameOutside(old(block[..]), block[..], l.nameAt, block.Length)
  {
    ghost var was := block[..];
    MakeSockaddr(block, end, m.family, mask);
    OutsideAgrees(was, block[..], end, l.dataAt, l.addrAt, end);
    AddressesKept(was, block[..], m, attrs, |attrs|, l.addrAt);
    OutsideAgrees(was, block[..], end, l.dataAt, l.nameAt, l.addrAt);
    NameKept(was, block[..], attrs, |attrs|, rest, l.nameAt);
  }
}
