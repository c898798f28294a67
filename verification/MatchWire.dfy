/** The bytes of an encoded match against the published numbers of the fields, and the values they carry. */
module MatchWire {
  import opened Common
  import opened Bytes
  import opened Oxm
  import opened MatchCodec
  import opened Seqs

  /**
   The headers of fields sent without a mask, as 32-bit numbers: the basic class of OpenFlow 1.3.5 (section 7.2.3.7),
   and the Nicira classes 0 and 1 that Open vSwitch publishes.
   */
  function Published(header: nat): Option<Slot> {
    match header
    case 0x8000_0004 => Some(InPort)
    case 0x8000_0204 => Some(InPhyPort)
    case 0x8000_0408 => Some(Metadata)
    case 0x8000_0606 => Some(EthDst)
    case 0x8000_0806 => Some(EthSrc)
    case 0x8000_0a02 => Some(EthType)
    case 0x8000_0c02 => Some(VlanVid)
    case 0x8000_0e01 => Some(VlanPcp)
    case 0x8000_1001 => Some(IpDscp)
    case 0x8000_1201 => Some(IpEcn)
    case 0x8000_1401 => Some(IpProto)
    case 0x8000_1604 => Some(Ipv4Src)
    case 0x8000_1804 => Some(Ipv4Dst)
    case 0x8000_1a02 => Some(TcpSrc)
    case 0x8000_1c02 => Some(TcpDst)
    case 0x8000_1e02 => Some(UdpSrc)
    case 0x8000_2002 => Some(UdpDst)
    case 0x8000_2601 => Some(IcmpType)
    case 0x8000_2801 => Some(IcmpCode)
    case 0x8000_2a02 => Some(ArpOp)
    case 0x8000_2c04 => Some(ArpSpa)
    case 0x8000_2e04 => Some(ArpTpa)
    case 0x8000_3006 => Some(ArpSha)
    case 0x8000_3206 => Some(ArpTha)
    case 0x8000_3410 => Some(Ipv6Src)
    case 0x8000_3610 => Some(Ipv6Dst)
    case 0x8000_3804 => Some(Ipv6Flabel)
    case 0x8000_3a01 => Some(Icmpv6Type)
    case 0x8000_3c01 => Some(Icmpv6Code)
    case 0x8000_4c08 => Some(TunnelId)
    case 0x0001_2008 => Some(TunnelId)
    case 0x0001_d204 => Some(CtState)
    case 0x0001_d402 => Some(CtZone)
    case 0x0001_d604 => Some(CtMark)
    case 0x0000_0002 => Some(InPort)
    case 0x0000_0206 => Some(EthDst)
    case 0x0000_0406 => Some(EthSrc)
    case 0x0000_0602 => Some(EthType)
    case 0x0000_0802 => Some(VlanVid)
    case 0x0000_0a01 => Some(IpDscp)
    case 0x0000_0c01 => Some(IpProto)
    case 0x0000_0e04 => Some(Ipv4Src)
    case 0x0000_1004 => Some(Ipv4Dst)
    case 0x0000_1202 => Some(TcpSrc)
    case 0x0000_1402 => Some(TcpDst)
    case 0x0000_1602 => Some(UdpSrc)
    case 0x0000_1802 => Some(UdpDst)
    case 0x0000_1a01 => Some(IcmpType)
    case 0x0000_1c01 => Some(IcmpCode)
    case 0x0000_1e02 => Some(ArpOp)
    case 0x0000_2004 => Some(ArpSpa)
    case 0x0000_2204 => Some(ArpTpa)
    case _ => None
  }

  /** A header as one number: class, field number, mask flag, length. */
  function HeaderOf(oxmClass: nat, field: nat, hasMask: bool, length: nat): nat {
    oxmClass * 0x1_0000 + field * 0x200 + (if hasMask then 0x100 else 0) + length
  }

  lemma {:induction false} FourBytes(a: byte, b: byte, c: byte, d: byte)
    ensures FromBe([a, b, c, d]) == ((a as nat * 256 + b) * 256 + c) * 256 + d
  {
    assert [a, b, c, d][..3] == [a, b, c] && [a, b, c][..2] == [a, b] && [a, b][..1] == [a] && [a][..0] == [];
    assert FromBe([a]) == a && FromBe([a, b]) == a as nat * 256 + b;
  }

  /** The four header bytes of a field are its published header, big-endian. */
  lemma {:induction false} HeaderOnWire(t: Tlv)
    requires t.Valid()
    ensures FromBe(HeaderBytes(t)) == HeaderOf(t.oxmClass, t.field, t.hasMask, |t.payload|)
  {
    FourBytes(t.oxmClass / 256, t.oxmClass % 256, t.field * 2 + if t.hasMask then 1 else 0, |t.payload|);
  }

  /** The decoder reads exactly the published fields, each into its slot and at its width. */
  lemma {:induction false} ReadsPublished(t: Tlv, width: nat)
    requires t.field < 128 && width < 256
    ensures ReadingOf(t).Some? && ReadingOf(t).value.width == width
       <==> Published(HeaderOf(t.oxmClass, t.field, false, width)).Some?
    ensures ReadingOf(t).Some? ==>
              Published(HeaderOf(t.oxmClass, t.field, false, ReadingOf(t).value.width)) == Some(ReadingOf(t).value.slot)
  {
  }

  /** The encoder sends every field under its published number, in its published width. */
  lemma {:induction false} SendsPublished(s: Slot)
    ensures Published(HeaderOf(LayoutOf(s).oxmClass, LayoutOf(s).field, false, LayoutOf(s).width)) == Some(s)
  {
  }

  /**
   What a field with a published number puts into the match: its number, big-endian, except that a VLAN id is the low
   twelve bits of the basic field, and a DSCP the upper six bits of the Nicira type-of-service byte.
   */
  lemma {:induction false} DecodesNumber(m: Match, t: Tlv)
    requires ReadingOf(t).Some? && ReadingOf(t).value.width <= ValueLen(t)
    ensures var (r, n) := (ReadingOf(t).value, FromBe(t.payload[..ReadingOf(t).value.width]));
            Apply(m, t).values == m.values[r.slot :=
              if t.oxmClass == 0x8000 && t.field == 6 then n % 0x1000 else if t.oxmClass == 0 && t.field == 5 then n / 4
              else n]
  {
  }

  // ------------------------------------------------------------ bytes of a field

  /** Where the field of a slot starts in an encoded match. */
  function At(m: Match, s: Slot): nat { 4 + |AllBytes(TlvsUpTo(m, Rank(s)))| }

  /** `x` stands in `s` from position `i` on. */
  predicate Stands<T(==)>(s: seq<T>, i: nat, x: seq<T>) { i + |x| <= |s| && s[i..i + |x|] == x }

  lemma {:induction false} StandsBefore<T>(a: seq<T>, b: seq<T>, i: nat, x: seq<T>)
    requires Stands(a, i, x)
    ensures Stands(a + b, i, x)
  {
  }

  /** What is appended step by step stays where it was put. */
  lemma {:induction false} AppendedStands<T>(whole: nat -> seq<T>, piece: nat -> seq<T>, i: nat, k: nat)
    requires i < k && forall j: nat :: j < k ==> whole(j + 1) == whole(j) + piece(j)
    ensures Stands(whole(k), |whole(i)|, piece(i))
    decreases k
  {
    assert whole(k - 1 + 1) == whole(k - 1) + piece(k - 1);
    if i < k - 1 {
      AppendedStands(whole, piece, i, k - 1);
      StandsBefore(whole(k - 1), piece(k - 1), |whole(i)|, piece(i));
    } else {
      StandsLast(whole(i), piece(i));
    }
  }

  function BytesUpTo(m: Match): nat -> seq<byte> { (k: nat) => if k <= SLOTS then AllBytes(TlvsUpTo(m, k)) else [] }

  function BytesAt(m: Match): nat -> seq<byte> { (k: nat) => if k < SLOTS then AllBytes(FieldTlvs(m, Nth(k))) else [] }

  lemma {:induction false} FieldStands(m: Match, k: nat, i: nat, t: Tlv)
    requires i < k <= SLOTS && t.Valid() && FieldTlvs(m, Nth(i)) == [t]
    ensures Stands(AllBytes(TlvsUpTo(m, k)), |AllBytes(TlvsUpTo(m, i))|, TlvBytes(t))
  {
    forall j: nat | j < k
      ensures BytesUpTo(m)(j + 1) == BytesUpTo(m)(j) + BytesAt(m)(j)
    {
      FieldsSnoc(m, j);
    }
    AppendedStands(BytesUpTo(m), BytesAt(m), i, k);
    OneField(t);
  }

  lemma {:induction false} FieldsSnoc(m: Match, k: nat)
    requires k < SLOTS
    ensures AllBytes(TlvsUpTo(m, k + 1)) == AllBytes(TlvsUpTo(m, k)) + AllBytes(FieldTlvs(m, Nth(k)))
  {
    AllBytesConcat(TlvsUpTo(m, k), FieldTlvs(m, Nth(k)));
  }

  lemma {:induction false} StandsLast<T>(a: seq<T>, x: seq<T>)
    ensures Stands(a + x, |a|, x)
  {
  }

  lemma {:induction false} StandsFramed(fields: seq<byte>, i: nat, x: seq<byte>)
    requires Stands(fields, i, x)
    ensures Stands(Framed(fields), 4 + i, x)
  {
  }

  /** The bytes of a field in the whole encoding. */
  lemma {:induction false} FieldInMatch(m: Match, s: Slot)
    requires s in m.values
    ensures Stands(MatchBytes(m), At(m, s), TlvBytes(FieldTlvs(m, s)[0]))
  {
    FieldStands(m, SLOTS, Rank(s), FieldTlvs(m, s)[0]);
    StandsFramed(AllBytes(Tlvs(m)), At(m, s) - 4, TlvBytes(FieldTlvs(m, s)[0]));
  }

  /** The mask a field is sent with, by its kind of mask. */
  ghost predicate MaskSent(s: Slot, given: Option<nat>, sent: Option<nat>) {
    match s
    case Metadata | EthDst | EthSrc | CtMark => sent == given
    case Ipv4Src | Ipv4Dst => PrefixSent(32, given, sent)
    case Ipv6Src | Ipv6Dst => PrefixSent(128, given, sent)
    case CtState => sent == if given == Some(0xffff_ffff) then None else given
    case _ => sent == None
  }

  /** A shorter prefix is sent as a number whose zeros are the bits outside it. */
  ghost predicate PrefixSent(bits: nat, given: Option<nat>, sent: Option<nat>) {
    if given.Some? && given.value < bits then sent == Some(Pow2(bits) - Pow2(bits - given.value)) else sent == None
  }

  /** The numbers on the wire for a value: itself, or for a VLAN id itself with bit 12 set. */
  predicate ValueSent(s: Slot, v: nat, sent: nat) {
    if s == VlanVid then
      && sent / 0x1000 % 2 == 1 && sent % 0x1000 == v % 0x1000 && sent / 0x2000 == v / 0x2000
      && (v < 0x1000 ==> sent == 0x1000 + v)
    else sent == v
  }

  /** The bytes of a field: its header, which says whether it is masked, its value and its mask. */
  predicate FieldBytes(buf: seq<byte>, at: nat, s: Slot, v: nat, sent: Option<nat>, header: nat, width: nat) {
    && header % 0x100 == width && at + 4 + width + (if sent.Some? then width else 0) <= |buf|
    && FromBe(buf[at..at + 4]) == header + (if sent.Some? then 0x100 + width else 0)
    && ValueSent(s, v, FromBe(buf[at + 4..at + 4 + width]))
    && (sent.Some? ==> FromBe(buf[at + 4 + width..at + 4 + width + width]) == sent.value)
  }

  /** Every field with a value stands in the encoded match: published header, value and mask, byte for byte. */
  lemma {:induction false} FieldSent(m: Match, s: Slot) returns (sent: Option<nat>, header: nat, width: nat)
    requires Typed(m) && s in m.values
    ensures FieldBytes(MatchBytes(m), At(m, s), s, m.values[s], sent, header, width)
    ensures MaskSent(s, if s in m.masks then Some(m.masks[s]) else None, sent)
    ensures Published(header) == Some(s)
  {
    var l := LayoutOf(s);
    sent, header, width := WireMask(m, s), HeaderOf(l.oxmClass, l.field, false, l.width), l.width;
    FieldBytesSent(m, s, l);
    MaskSentBy(s, l, MaskOf(m, s));
    SendsPublished(s);
  }

  lemma {:induction false} FieldBytesSent(m: Match, s: Slot, l: Layout)
    requires Typed(m) && s in m.values && l == LayoutOf(s)
    ensures FieldBytes(MatchBytes(m), At(m, s), s, m.values[s], WireMask(m, s),
              HeaderOf(l.oxmClass, l.field, false, l.width), l.width)
  {
    FieldInMatch(m, s);
    PayloadParts(m, s);
    NumberSent(s, m.values[s]);
    MaskNumberSent(m, s);
    BytesOfField(MatchBytes(m), At(m, s), FieldTlvs(m, s)[0], l, s, m.values[s], WireMask(m, s));
  }

  /** A field in its place, read as numbers. */
  lemma {:induction false} BytesOfField(
      buf: seq<byte>, at: nat, t: Tlv, l: Layout, s: Slot, v: nat, sent: Option<nat>)
    requires t.Valid() && Stands(buf, at, TlvBytes(t)) && t.oxmClass == l.oxmClass && t.field == l.field
    requires t.hasMask == sent.Some? && |t.payload| == (if t.hasMask then 2 * l.width else l.width)
    requires ValueSent(s, v, FromBe(t.payload[..l.width]))
    requires sent.Some? ==> FromBe(t.payload[l.width..2 * l.width]) == sent.value
    requires l.width <= 16
    ensures FieldBytes(buf, at, s, v, sent, HeaderOf(l.oxmClass, l.field, false, l.width), l.width)
  {
    HeaderOnWire(t);
    PartsOfField(buf, at, t, l.width);
    LowByte(l.oxmClass, l.field, l.width);
  }

  lemma {:induction false} LowByte(oxmClass: nat, field: nat, length: nat)
    requires length < 256
    ensures HeaderOf(oxmClass, field, false, length) % 0x100 == length
  {
  }

  lemma {:induction false} PartsOfField(buf: seq<byte>, at: nat, t: Tlv, width: nat)
    requires t.Valid() && Stands(buf, at, TlvBytes(t)) && |t.payload| == if t.hasMask then 2 * width else width
    ensures at + 4 + |t.payload| <= |buf| && buf[at..at + 4] == HeaderBytes(t)
    ensures buf[at + 4..at + 4 + width] == t.payload[..width]
    ensures t.hasMask ==> buf[at + 4 + width..at + 4 + width + width] == t.payload[width..2 * width]
  {
    var all := TlvBytes(t);
    var x := buf[at..at + |all|];
    assert x[..4] == HeaderBytes(t) && x[4..] == t.payload;
  }

  lemma {:induction false} NumberSent(s: Slot, v: nat)
    requires v < Pow256(LayoutOf(s).width)
    ensures ValueSent(s, v, FromBe(Be(WireValue(s, v), LayoutOf(s).width)))
  {
    ValueReadBack(s, v);
    FromBeBe(WireValue(s, v), LayoutOf(s).width);
  }

  lemma {:induction false} MaskSentBy(s: Slot, l: Layout, given: Option<nat>)
    requires l == LayoutOf(s)
    ensures MaskSent(s, given, Masked(l, given))
  {
    match s
    case Ipv4Src | Ipv4Dst => PrefixZeros(l, given);
    case Ipv6Src | Ipv6Dst => PrefixZeros(l, given);
    case _ =>
  }

  lemma {:induction false} PrefixZeros(l: Layout, given: Option<nat>)
    requires l.masking == Prefix
    ensures PrefixSent(8 * l.width, given, Masked(l, given))
  {
  }

  lemma {:induction false} MaskNumberSent(m: Match, s: Slot)
    requires Typed(m)
    ensures WireMask(m, s).Some? ==> FromBe(Be(WireMask(m, s).value, LayoutOf(s).width)) == WireMask(m, s).value
  {
    if WireMask(m, s).Some? {
      MaskNumber(LayoutOf(s), m.masks[s]);
    }
  }

  lemma {:induction false} MaskNumber(l: Layout, mask: nat)
    requires 1 <= l.width <= 16 && MaskFits(l, mask) && Masked(l, Some(mask)).Some?
    ensures FromBe(Be(Masked(l, Some(mask)).value, l.width)) == Masked(l, Some(mask)).value
  {
    MaskReadBack(l, mask);
  }

  /**
   The VLAN field of an encoded match: header of the basic class, field 6, no mask, two bytes; then the id with the
   present bit, which is bit 12, set and every other bit as given.
   */
  lemma {:induction false} VlanOnWire(m: Match)
    requires Typed(m) && VlanVid in m.values
    ensures var (buf, at, v) := (MatchBytes(m), At(m, VlanVid), m.values[VlanVid]);
            && at + 6 <= |buf| && FromBe(buf[at..at + 4]) == 0x8000_0c02
            && (var n := FromBe(buf[at + 4..at + 6]);
                && (v < 0x1000 ==> n == 0x1000 + v)
                && n / 0x1000 % 2 == 1 && n % 0x1000 == v % 0x1000 && n / 0x2000 == v / 0x2000)
  {
    FieldBytesSent(m, VlanVid, LayoutOf(VlanVid));
  }

  // ----------------------------------------------------------------- the order

  /** What a field needs before it (OpenFlow 1.3.5, section 7.2.3.7). */
  function Prerequisite(s: Slot): Option<Slot> {
    match s
    case InPhyPort => Some(InPort)
    case VlanPcp => Some(VlanVid)
    case IpDscp | IpEcn | IpProto | Ipv4Src | Ipv4Dst | Ipv6Src | Ipv6Dst | Ipv6Flabel => Some(EthType)
    case ArpOp | ArpSpa | ArpTpa | ArpSha | ArpTha => Some(EthType)
    case TcpSrc | TcpDst | UdpSrc | UdpDst | IcmpType | IcmpCode | Icmpv6Type | Icmpv6Code => Some(IpProto)
    case _ => None
  }

  lemma {:induction false} OffsetGrows(m: Match, i: nat, k: nat)
    requires i < k <= SLOTS && Nth(i) in m.values
    ensures |AllBytes(TlvsUpTo(m, i))| < |AllBytes(TlvsUpTo(m, k))|
  {
    FieldStands(m, k, i, FieldTlvs(m, Nth(i))[0]);
  }

  /** Whatever fields a match has, one that another needs is encoded before it. */
  lemma {:induction false} PrerequisitesFirst(m: Match, s: Slot)
    requires s in m.values && Prerequisite(s).Some? && Prerequisite(s).value in m.values
    ensures At(m, Prerequisite(s).value) < At(m, s)
  {
    OffsetGrows(m, Rank(Prerequisite(s).value), Rank(s));
  }
}
