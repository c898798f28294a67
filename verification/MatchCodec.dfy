/**
 Matches and their wire form: `encode`, `decode` and `decode_oxm`. A match is a value for some of the fields and a
 mask for some of them; addresses and numbers alike are unsigned big-endian numbers of the field's width.
 */
module MatchCodec {
  import opened Common
  import opened Bytes
  import opened Oxm
  import OxmDecode
  import opened Seqs

  datatype Slot =
    | InPort | InPhyPort | Metadata | EthDst | EthSrc | EthType | VlanVid | VlanPcp | IpDscp | IpEcn | IpProto
    | Ipv4Src | Ipv4Dst | TcpSrc | TcpDst | UdpSrc | UdpDst | IcmpType | IcmpCode | Icmpv6Type | Icmpv6Code
    | ArpOp | ArpSpa | ArpTpa | ArpSha | ArpTha | Ipv6Src | Ipv6Dst | Ipv6Flabel | TunnelId | CtState | CtZone | CtMark

  const SLOTS := 33

  /** The order in which fields are encoded. */
  function Nth(i: nat): Slot
    requires i < SLOTS
  {
    match i
    case 0 => InPort case 1 => InPhyPort case 2 => Metadata case 3 => EthDst case 4 => EthSrc case 5 => EthType
    case 6 => VlanVid case 7 => VlanPcp case 8 => IpDscp case 9 => IpEcn case 10 => IpProto case 11 => Ipv4Src
    case 12 => Ipv4Dst case 13 => TcpSrc case 14 => TcpDst case 15 => UdpSrc case 16 => UdpDst case 17 => IcmpType
    case 18 => IcmpCode case 19 => Icmpv6Type case 20 => Icmpv6Code case 21 => ArpOp case 22 => ArpSpa
    case 23 => ArpTpa case 24 => ArpSha case 25 => ArpTha case 26 => Ipv6Src case 27 => Ipv6Dst case 28 => Ipv6Flabel
    case 29 => TunnelId case 30 => CtState case 31 => CtZone case _ => CtMark
  }

  /** The first `k` slots in that order. */
  function Order(k: nat): (slots: seq<Slot>)
    requires k <= SLOTS
    ensures |slots| == k
  {
    if k == 0 then [] else Order(k - 1) + [Nth(k - 1)]
  }

  /** How a field is masked: not at all, by any mask, by a prefix length, or by any mask other than all ones. */
  datatype Masking = Exact | Raw | Prefix | Partial

  /** `tcp_flags` can be set on a match but has no wire form here. */
  datatype Match = Match(values: map<Slot, nat>, masks: map<Slot, nat>, tcpFlags: Option<u16>)

  const ANY := Match(map[], map[], None)

  datatype Layout = Layout(oxmClass: u16, field: nat, width: nat, masking: Masking)

  function LayoutOf(s: Slot): (l: Layout)
    ensures l.field < 128 && 1 <= l.width <= 16
  {
    match s
    case InPort => Layout(BASIC, 0, 4, Exact)
    case InPhyPort => Layout(BASIC, 1, 4, Exact)
    case Metadata => Layout(BASIC, 2, 8, Raw)
    case EthDst => Layout(BASIC, 3, 6, Raw)
    case EthSrc => Layout(BASIC, 4, 6, Raw)
    case EthType => Layout(BASIC, 5, 2, Exact)
    case VlanVid => Layout(BASIC, 6, 2, Exact)
    case VlanPcp => Layout(BASIC, 7, 1, Exact)
    case IpDscp => Layout(BASIC, 8, 1, Exact)
    case IpEcn => Layout(BASIC, 9, 1, Exact)
    case IpProto => Layout(BASIC, 10, 1, Exact)
    case Ipv4Src => Layout(BASIC, 11, 4, Prefix)
    case Ipv4Dst => Layout(BASIC, 12, 4, Prefix)
    case TcpSrc => Layout(BASIC, 13, 2, Exact)
    case TcpDst => Layout(BASIC, 14, 2, Exact)
    case UdpSrc => Layout(BASIC, 15, 2, Exact)
    case UdpDst => Layout(BASIC, 16, 2, Exact)
    case IcmpType => Layout(BASIC, 19, 1, Exact)
    case IcmpCode => Layout(BASIC, 20, 1, Exact)
    case ArpOp => Layout(BASIC, 21, 2, Exact)
    case ArpSpa => Layout(BASIC, 22, 4, Exact)
    case ArpTpa => Layout(BASIC, 23, 4, Exact)
    case ArpSha => Layout(BASIC, 24, 6, Exact)
    case ArpTha => Layout(BASIC, 25, 6, Exact)
    case Ipv6Src => Layout(BASIC, 26, 16, Prefix)
    case Ipv6Dst => Layout(BASIC, 27, 16, Prefix)
    case Ipv6Flabel => Layout(BASIC, 28, 4, Exact)
    case Icmpv6Type => Layout(BASIC, 29, 1, Exact)
    case Icmpv6Code => Layout(BASIC, 30, 1, Exact)
    case TunnelId => Layout(NXM1, 16, 8, Exact)
    case CtState => Layout(NXM1, 105, 4, Partial)
    case CtZone => Layout(NXM1, 106, 2, Exact)
    case CtMark => Layout(NXM1, 107, 4, Raw)
  }

  predicate MaskFits(l: Layout, mask: nat) {
    l.masking != Exact && mask < if l.masking == Prefix then 256 else Pow256(l.width)
  }

  /** The types of the fields: every value and mask fits; only maskable fields have masks; prefix lengths are bytes. */
  ghost predicate Typed(m: Match) {
    && (forall s :: s in m.values ==> m.values[s] < Pow256(LayoutOf(s).width))
    && (forall s :: s in m.masks ==> MaskFits(LayoutOf(s), m.masks[s]))
  }

  // ---------------------------------------------------------------- encoding

  /** A VLAN id is sent with the "present" bit set: `vid | 0x1000`. */
  function WithPresent(v: nat): nat { if v / 0x1000 % 2 == 1 then v else v + 0x1000 }

  function WireValue(s: Slot, v: nat): nat { if s == VlanVid then WithPresent(v) else v }

  function MaskOf(m: Match, s: Slot): Option<nat> { if s in m.masks then Some(m.masks[s]) else None }

  function Masked(l: Layout, mask: Option<nat>): Option<nat> {
    if mask.None? then None
    else
      match l.masking
      case Exact => None
      case Raw => mask
      case Prefix => if mask.value < 8 * l.width then Some(PrefixToMask(mask.value, 8 * l.width)) else None
      case Partial => if mask.value != 0xffff_ffff then mask else None
  }

  /** The mask a field is sent with, if it is sent masked. */
  function WireMask(m: Match, s: Slot): Option<nat> { Masked(LayoutOf(s), MaskOf(m, s)) }

  /** The wire form of one field: nothing if it has no value, whatever mask is set. */
  function FieldTlvs(m: Match, s: Slot): (ts: seq<Tlv>)
    ensures AllValid(ts) && |ts| <= 1
    ensures forall t :: t in ts ==> |t.payload| <= 32
  {
    if s !in m.values then []
    else
      var l, value := LayoutOf(s), Be(WireValue(s, m.values[s]), LayoutOf(s).width);
      match WireMask(m, s)
      case None => [Tlv(l.oxmClass, l.field, false, value)]
      case Some(mask) => [Tlv(l.oxmClass, l.field, true, value + Be(mask, l.width))]
  }

  /** The fields of the first `k` slots in encoding order. */
  function TlvsUpTo(m: Match, k: nat): (ts: seq<Tlv>)
    requires k <= SLOTS
    ensures AllValid(ts)
  {
    if k == 0 then [] else TlvsUpTo(m, k - 1) + FieldTlvs(m, Nth(k - 1))
  }

  function Tlvs(m: Match): (ts: seq<Tlv>)
    ensures AllValid(ts)
  {
    TlvsUpTo(m, SLOTS)
  }

  lemma {:induction false} EncodedLength(m: Match, k: nat)
    requires k <= SLOTS
    ensures |AllBytes(TlvsUpTo(m, k))| <= 36 * k
  {
    if k > 0 {
      EncodedLength(m, k - 1);
      var ts := FieldTlvs(m, Nth(k - 1));
      AllBytesConcat(TlvsUpTo(m, k - 1), ts);
      if ts != [] {
        assert ts[0] in ts && ts[1..] == [];
        assert AllBytes(ts) == TlvBytes(ts[0]) + [];
      }
    }
  }

  /** The whole match: type 1, the length of header and fields, the fields, zeros up to a multiple of eight. */
  function MatchBytes(m: Match): (s: seq<byte>)
    ensures |s| == PadTo8(4 + |AllBytes(Tlvs(m))|) <= 1192
  {
    EncodedLength(m, SLOTS);
    Framed(AllBytes(Tlvs(m)))
  }

  function Framed(fields: seq<byte>): (s: seq<byte>)
    ensures |s| == PadTo8(4 + |fields|)
  {
    [0, 1] + Be(4 + |fields|, 2) + fields + Zeros(PadTo8(4 + |fields|) - (4 + |fields|))
  }

  method EncodeFields(m: Match) returns (fields: seq<byte>)
    ensures fields == AllBytes(Tlvs(m))
  {
    fields := [];
    for i := 0 to SLOTS
      invariant fields == AllBytes(TlvsUpTo(m, i))
    {
      var s := Nth(i);
      NextField(m, i);
      if s in m.values {
        var t := FieldTlvs(m, s)[0];
        fields := fields + HeaderBytes(t);
        fields := fields + t.payload;
      }
    }
  }

  lemma {:induction false} NextField(m: Match, i: nat)
    requires i < SLOTS
    ensures Nth(i) in m.values ==>
              AllBytes(TlvsUpTo(m, i + 1))
                == AllBytes(TlvsUpTo(m, i)) + HeaderBytes(FieldTlvs(m, Nth(i))[0]) + FieldTlvs(m, Nth(i))[0].payload
    ensures Nth(i) !in m.values ==> TlvsUpTo(m, i + 1) == TlvsUpTo(m, i)
  {
    var before, ts := TlvsUpTo(m, i), FieldTlvs(m, Nth(i));
    AllBytesConcat(before, ts);
    if Nth(i) in m.values {
      var t := ts[0];
      OneField(t);
      assert ts == [t];
      Associative(AllBytes(before), HeaderBytes(t), t.payload);
    } else {
      NilConcat(before);
    }
  }

  lemma {:induction false} OneField(t: Tlv)
    requires t.Valid()
    ensures AllBytes([t]) == HeaderBytes(t) + t.payload
  {
  }

  /** The length is a multiple of eight, and the 16-bit length field never truncates. */
  method Encode(m: Match) returns (buf: seq<byte>)
    ensures buf == MatchBytes(m) && |buf| % 8 == 0 && |buf| < 0x1_0000
  {
    var fields := EncodeFields(m);
    EncodedLength(m, SLOTS);
    buf := Frame(fields);
  }

  /** Header and padding around the fields. */
  method Frame(fields: seq<byte>) returns (buf: seq<byte>)
    requires |fields| <= 1188
    ensures buf == Framed(fields)
  {
    var matchLen := 4 + |fields|;
    var paddedLen := (matchLen + 7) / 8 * 8;
    buf := [0, 1];
    buf := buf + Be(matchLen % 0x1_0000, 2);
    buf := buf + fields;
    buf := buf + Zeros(paddedLen - matchLen);
  }

  /** `encode_oxm_fields`: the fields without header and padding, cut back out of the full encoding. */
  method EncodeOxmFields(m: Match) returns (fields: seq<byte>)
    ensures fields == AllBytes(Tlvs(m))
  {
    var full := Encode(m);
    EncodedLength(m, SLOTS);
    var matchLen := FromBe(full[2..4]);
    ghost var n := 4 + |AllBytes(Tlvs(m))|;
    assert full[2..4] == Be(n, 2);
    TwoBytes(n);
    fields := full[4..matchLen];
  }

  // ---------------------------------------------------------------- decoding

  datatype Fix = Same | LowTwelve | ShiftTwo

  /** Where a decoded field goes, how many bytes it needs, and how its value is adjusted. */
  datatype Reading = Reading(slot: Slot, width: nat, fix: Fix)

  function ReadBasic(field: nat): Option<Reading> {
    match field
    case 0 => Some(Reading(InPort, 4, Same))
    case 1 => Some(Reading(InPhyPort, 4, Same))
    case 2 => Some(Reading(Metadata, 8, Same))
    case 3 => Some(Reading(EthDst, 6, Same))
    case 4 => Some(Reading(EthSrc, 6, Same))
    case 5 => Some(Reading(EthType, 2, Same))
    case 6 => Some(Reading(VlanVid, 2, LowTwelve))
    case 7 => Some(Reading(VlanPcp, 1, Same))
    case 8 => Some(Reading(IpDscp, 1, Same))
    case 9 => Some(Reading(IpEcn, 1, Same))
    case 10 => Some(Reading(IpProto, 1, Same))
    case 11 => Some(Reading(Ipv4Src, 4, Same))
    case 12 => Some(Reading(Ipv4Dst, 4, Same))
    case 13 => Some(Reading(TcpSrc, 2, Same))
    case 14 => Some(Reading(TcpDst, 2, Same))
    case 15 => Some(Reading(UdpSrc, 2, Same))
    case 16 => Some(Reading(UdpDst, 2, Same))
    case 19 => Some(Reading(IcmpType, 1, Same))
    case 20 => Some(Reading(IcmpCode, 1, Same))
    case 21 => Some(Reading(ArpOp, 2, Same))
    case 22 => Some(Reading(ArpSpa, 4, Same))
    case 23 => Some(Reading(ArpTpa, 4, Same))
    case 24 => Some(Reading(ArpSha, 6, Same))
    case 25 => Some(Reading(ArpTha, 6, Same))
    case 26 => Some(Reading(Ipv6Src, 16, Same))
    case 27 => Some(Reading(Ipv6Dst, 16, Same))
    case 28 => Some(Reading(Ipv6Flabel, 4, Same))
    case 29 => Some(Reading(Icmpv6Type, 1, Same))
    case 30 => Some(Reading(Icmpv6Code, 1, Same))
    case 38 => Some(Reading(TunnelId, 8, Same))
    case _ => None
  }

  function ReadNxm0(field: nat): Option<Reading> {
    match field
    case 0 => Some(Reading(InPort, 2, Same))
    case 1 => Some(Reading(EthDst, 6, Same))
    case 2 => Some(Reading(EthSrc, 6, Same))
    case 3 => Some(Reading(EthType, 2, Same))
    case 4 => Some(Reading(VlanVid, 2, Same))
    case 5 => Some(Reading(IpDscp, 1, ShiftTwo))
    case 6 => Some(Reading(IpProto, 1, Same))
    case 7 => Some(Reading(Ipv4Src, 4, Same))
    case 8 => Some(Reading(Ipv4Dst, 4, Same))
    case 9 => Some(Reading(TcpSrc, 2, Same))
    case 10 => Some(Reading(TcpDst, 2, Same))
    case 11 => Some(Reading(UdpSrc, 2, Same))
    case 12 => Some(Reading(UdpDst, 2, Same))
    case 13 => Some(Reading(IcmpType, 1, Same))
    case 14 => Some(Reading(IcmpCode, 1, Same))
    case 15 => Some(Reading(ArpOp, 2, Same))
    case 16 => Some(Reading(ArpSpa, 4, Same))
    case 17 => Some(Reading(ArpTpa, 4, Same))
    case _ => None
  }

  function ReadNxm1(field: nat): Option<Reading> {
    match field
    case 16 => Some(Reading(TunnelId, 8, Same))
    case 105 => Some(Reading(CtState, 4, Same))
    case 106 => Some(Reading(CtZone, 2, Same))
    case 107 => Some(Reading(CtMark, 4, Same))
    case _ => None
  }

  function ReadingOf(t: Tlv): Option<Reading> {
    if t.oxmClass == BASIC then ReadBasic(t.field)
    else if t.oxmClass == NXM1 then ReadNxm1(t.field)
    else if t.oxmClass == NXM0 then ReadNxm0(t.field)
    else None
  }

  function Fixed(f: Fix, v: nat): nat {
    match f
    case Same => v
    case LowTwelve => v % 0x1000
    case ShiftTwo => v / 4
  }

  /** A masked field has half its length for the value. */
  function ValueLen(t: Tlv): nat { if t.hasMask then |t.payload| / 2 else |t.payload| }

  /** The mask a field writes, if it writes one; a prefix is written even when no mask is sent. */
  function MaskWritten(t: Tlv, r: Reading): Option<nat> {
    var masked := t.hasMask && |t.payload| >= 2 * r.width;
    match LayoutOf(r.slot).masking
    case Exact => None
    case Prefix => Some(if masked then LeadingOnes(FromBe(t.payload[r.width..2 * r.width]), 8 * r.width)
      else 8 * r.width)
    case _ => if masked then Some(FromBe(t.payload[r.width..2 * r.width])) else None
  }

  function DecodedMask(t: Tlv, r: Reading, masks: map<Slot, nat>): map<Slot, nat> {
    var mask := MaskWritten(t, r);
    if mask.Some? then masks[r.slot := mask.value] else masks
  }

  function DecodedValue(t: Tlv, r: Reading): nat
    requires r.width <= ValueLen(t)
  {
    Fixed(r.fix, FromBe(t.payload[..r.width]))
  }

  /** What one field does to the match under construction; unknown and short fields do nothing. */
  function Apply(m: Match, t: Tlv): Match {
    match ReadingOf(t)
    case None => m
    case Some(r) =>
      if ValueLen(t) < r.width then m
      else m.(values := m.values[r.slot := DecodedValue(t, r)], masks := DecodedMask(t, r, m.masks))
  }

  function Fold(m: Match, ts: seq<Tlv>): Match { OxmDecode.Fold(Apply, m, ts) }

  /** `Match::decode_oxm`. */
  method DecodeOxm(data: seq<byte>) returns (m: Match)
    ensures m == Fold(ANY, TlvsIn(data))
  {
    m := OxmDecode.DecodeOxm(data, ANY, Apply);
  }

  function Decoded(data: seq<byte>): OxmDecode.Outcome<(Match, nat)> { OxmDecode.Decoded(data, ANY, Apply) }

  /** `Match::decode`. */
  method Decode(data: seq<byte>) returns (r: OxmDecode.Outcome<(Match, nat)>)
    ensures r == Decoded(data)
  {
    r := OxmDecode.Decode(data, ANY, Apply);
  }

  // ----------------------------------------------------------- fold properties

  /** A field of an unknown class or number, or too short for its type, has no effect wherever it stands. */
  lemma {:induction false} UnknownFieldsIgnored(m: Match, a: seq<Tlv>, t: Tlv, b: seq<Tlv>)
    requires ReadingOf(t).None? || ValueLen(t) < ReadingOf(t).value.width
    ensures Fold(m, a + [t] + b) == Fold(m, a + b)
  {
    OxmDecode.IdleFieldDropped(Apply, m, a, t, b);
  }

  /** The fields write different slots, or nothing. */
  predicate DistinctSlots(t: Tlv, u: Tlv) {
    ReadingOf(t).Some? && ReadingOf(u).Some? ==> ReadingOf(t).value.slot != ReadingOf(u).value.slot
  }

  /** Fields of which no two different ones write the same slot can stand in any order. */
  lemma {:induction false} DistinctSlotsCommute(m: Match, ts: seq<Tlv>, us: seq<Tlv>)
    requires multiset(ts) == multiset(us)
    requires forall t, u :: t in ts && u in ts && t != u ==> DistinctSlots(t, u)
    ensures Fold(m, ts) == Fold(m, us)
  {
    forall t, u | t in ts && u in ts
      ensures OxmDecode.Commute(Apply, t, u)
    {
      if t != u {
        forall x ensures Apply(Apply(x, t), u) == Apply(Apply(x, u), t) { ApplyCommutes(x, t, u); }
      }
    }
    OxmDecode.OrderIrrelevant(Apply, m, ts, us);
  }

  lemma {:induction false} ApplyCommutes(m: Match, t: Tlv, u: Tlv)
    requires DistinctSlots(t, u)
    ensures Apply(Apply(m, t), u) == Apply(Apply(m, u), t)
  {
    if ReadingOf(t).Some? && ReadingOf(u).Some? {
      var r, q := ReadingOf(t).value, ReadingOf(u).value;
      MasksCommute(m.masks, t, r, u, q);
    }
  }

  lemma {:induction false} MasksCommute(masks: map<Slot, nat>, t: Tlv, r: Reading, u: Tlv, q: Reading)
    requires r.slot != q.slot
    ensures DecodedMask(u, q, DecodedMask(t, r, masks)) == DecodedMask(t, r, DecodedMask(u, q, masks))
  {
    var a, b := MaskWritten(t, r), MaskWritten(u, q);
    if a.Some? && b.Some? {
      assert masks[r.slot := a.value][q.slot := b.value] == masks[q.slot := b.value][r.slot := a.value];
    }
  }

  // --------------------------------------------------------------- round trip

  function NormValue(s: Slot, v: nat): nat { if s == VlanVid then v % 0x1000 else v }

  /** The mask that survives: a prefix length is filled in and clamped, an all-ones partial mask is dropped. */
  function Kept(l: Layout, mask: Option<nat>): Option<nat> {
    match l.masking
    case Exact => None
    case Raw => mask
    case Prefix => Some(if mask.Some? && mask.value < 8 * l.width then mask.value else 8 * l.width)
    case Partial => if mask.Some? && mask.value != 0xffff_ffff then mask else None
  }

  function NormMask(m: Match, s: Slot): Option<nat> { Kept(LayoutOf(s), MaskOf(m, s)) }

  /** What a match means on the wire: masks without values and TCP flags are dropped. */
  function Norm(m: Match): Match {
    Match(map s | s in m.values :: NormValue(s, m.values[s]),
      map s | s in m.values && NormMask(m, s).Some? :: NormMask(m, s).value, None)
  }

  function Rank(s: Slot): (i: nat)
    ensures i < SLOTS && Nth(i) == s
  {
    match s
    case InPort => 0 case InPhyPort => 1 case Metadata => 2 case EthDst => 3 case EthSrc => 4 case EthType => 5
    case VlanVid => 6 case VlanPcp => 7 case IpDscp => 8 case IpEcn => 9 case IpProto => 10 case Ipv4Src => 11
    case Ipv4Dst => 12 case TcpSrc => 13 case TcpDst => 14 case UdpSrc => 15 case UdpDst => 16 case IcmpType => 17
    case IcmpCode => 18 case Icmpv6Type => 19 case Icmpv6Code => 20 case ArpOp => 21 case ArpSpa => 22
    case ArpTpa => 23 case ArpSha => 24 case ArpTha => 25 case Ipv6Src => 26 case Ipv6Dst => 27
    case Ipv6Flabel => 28 case TunnelId => 29 case CtState => 30 case CtZone => 31 case CtMark => 32
  }

  lemma {:induction false} RankOfNth(i: nat)
    requires i < SLOTS
    ensures Rank(Nth(i)) == i
  {
  }

  /** A decoder looks for a field exactly where the encoder puts it. */
  lemma {:induction false} LayoutInverse(s: Slot, t: Tlv)
    requires t.oxmClass == LayoutOf(s).oxmClass && t.field == LayoutOf(s).field
    ensures ReadingOf(t) == Some(Reading(s, LayoutOf(s).width, if s == VlanVid then LowTwelve else Same))
  {
  }

  /** The part of a match that concerns the given slots. */
  function Part(n: Match, slots: seq<Slot>): Match {
    Match(map s | s in n.values && s in slots :: n.values[s], map s | s in n.masks && s in slots :: n.masks[s], None)
  }

  /** What one slot of `n` adds to a match. */
  function Put(to: Match, n: Match, s: Slot): Match {
    to.(values := if s in n.values then to.values[s := n.values[s]] else to.values,
        masks := if s in n.masks then to.masks[s := n.masks[s]] else to.masks)
  }

  lemma {:induction false} PartStep(n: Match, slots: seq<Slot>, s: Slot)
    ensures Part(n, slots + [s]) == Put(Part(n, slots), n, s)
    ensures s !in slots ==> s !in Part(n, slots).masks
  {
  }

  /** A slot is among the first `k` when its rank is below `k`: every slot has its place, and no slot has two. */
  lemma {:induction false} InOrder(s: Slot, k: nat)
    requires k <= SLOTS
    ensures s in Order(k) <==> Rank(s) < k
  {
    if k > 0 {
      InOrder(s, k - 1);
      RankOfNth(k - 1);
    }
  }

  lemma {:induction false} PartOfAll(n: Match)
    requires n.tcpFlags == None
    ensures Part(n, Order(SLOTS)) == n
  {
    forall s: Slot
      ensures s in Order(SLOTS)
    {
      InOrder(s, SLOTS);
    }
    assert Part(n, Order(SLOTS)).values == n.values;
    assert Part(n, Order(SLOTS)).masks == n.masks;
  }

  /** What decoding makes of the value of a field. */
  lemma {:induction false} ValueReadBack(s: Slot, v: nat)
    requires v < Pow256(LayoutOf(s).width)
    ensures WireValue(s, v) < Pow256(LayoutOf(s).width)
    ensures Fixed(if s == VlanVid then LowTwelve else Same, FromBe(Be(WireValue(s, v), LayoutOf(s).width)))
            == NormValue(s, v)
  {
    if s == VlanVid {
      assert Pow256(2) == 256 * Pow256(1) && Pow256(1) == 256 * Pow256(0);
      assert WithPresent(v) % 0x1000 == v % 0x1000;
    }
    FromBeBe(WireValue(s, v), LayoutOf(s).width);
  }

  /** What decoding makes of the mask of a field. */
  lemma {:induction false} MaskReadBack(l: Layout, mask: nat)
    requires l.width >= 1 && MaskFits(l, mask) && Masked(l, Some(mask)).Some?
    ensures var sent := Masked(l, Some(mask)).value;
            && FromBe(Be(sent, l.width)) == sent
            && Kept(l, Some(mask)) == Some(if l.masking == Prefix then LeadingOnes(sent, 8 * l.width) else sent)
  {
    if l.masking == Prefix {
      PrefixRoundTrip(mask, 8 * l.width);
      Pow2OfBytes(l.width);
    }
    FromBeBe(Masked(l, Some(mask)).value, l.width);
  }

  /** A field's place on the wire and the two halves of its payload. */
  lemma {:induction false} PayloadParts(m: Match, s: Slot)
    requires s in m.values
    ensures var (t, l) := (FieldTlvs(m, s)[0], LayoutOf(s));
            && t.oxmClass == l.oxmClass && t.field == l.field
            && t.hasMask == WireMask(m, s).Some? && ValueLen(t) == l.width
            && |t.payload| == (if t.hasMask then 2 * l.width else l.width)
            && t.payload[..l.width] == Be(WireValue(s, m.values[s]), l.width)
            && (t.hasMask ==> t.payload[l.width..2 * l.width] == Be(WireMask(m, s).value, l.width))
  {
  }

  function ReadingFor(s: Slot): Reading { Reading(s, LayoutOf(s).width, if s == VlanVid then LowTwelve else Same) }

  /** Decoding the wire form of one field into a match that has no mask for it yet. */
  lemma {:induction false} FieldReadBack(m: Match, s: Slot, n: Match)
    requires Typed(m) && s in m.values && s !in n.masks
    ensures Apply(n, FieldTlvs(m, s)[0]) == Put(n, Norm(m), s)
  {
    var t, r := FieldTlvs(m, s)[0], ReadingFor(s);
    FieldValueBack(m, s);
    FieldMaskBack(m, s, n);
    AppliedReading(n, t, r);
    PutNorm(m, s, n);
  }

  lemma {:induction false} FieldValueBack(m: Match, s: Slot)
    requires Typed(m) && s in m.values
    ensures var (t, r) := (FieldTlvs(m, s)[0], ReadingFor(s));
            && ReadingOf(t) == Some(r) && r.slot == s && r.width <= ValueLen(t)
            && DecodedValue(t, r) == NormValue(s, m.values[s])
  {
    PayloadParts(m, s);
    LayoutInverse(s, FieldTlvs(m, s)[0]);
    ValueReadBack(s, m.values[s]);
  }

  lemma {:induction false} FieldMaskBack(m: Match, s: Slot, n: Match)
    requires Typed(m) && s in m.values && s !in n.masks
    ensures DecodedMask(FieldTlvs(m, s)[0], ReadingFor(s), n.masks)
         == if NormMask(m, s).Some? then n.masks[s := NormMask(m, s).value] else n.masks
  {
    PayloadParts(m, s);
    if WireMask(m, s).Some? {
      MaskReadBack(LayoutOf(s), m.masks[s]);
    }
    MaskDecoded(m, n, FieldTlvs(m, s)[0], ReadingFor(s));
  }

  lemma {:induction false} PutNorm(m: Match, s: Slot, n: Match)
    requires s in m.values
    ensures Put(n, Norm(m), s) == n.(values := n.values[s := NormValue(s, m.values[s])],
                                    masks := if NormMask(m, s).Some? then n.masks[s := NormMask(m, s).value]
                                      else n.masks)
  {
  }

  lemma {:induction false} AppliedReading(n: Match, t: Tlv, r: Reading)
    requires ReadingOf(t) == Some(r) && r.width <= ValueLen(t)
    ensures Apply(n, t) == n.(values := n.values[r.slot := DecodedValue(t, r)], masks := DecodedMask(t, r, n.masks))
  {
  }

  lemma {:induction false} MaskDecoded(m: Match, n: Match, t: Tlv, r: Reading)
    requires r.slot !in n.masks && r.width == LayoutOf(r.slot).width
    requires t.hasMask == WireMask(m, r.slot).Some? && |t.payload| == (if t.hasMask then 2 * r.width else r.width)
    requires t.hasMask ==>
               && FromBe(t.payload[r.width..2 * r.width]) == WireMask(m, r.slot).value
               && NormMask(m, r.slot)
                  == Some(if LayoutOf(r.slot).masking == Prefix then LeadingOnes(WireMask(m, r.slot).value, 8 * r.width)
                                              else WireMask(m, r.slot).value)
    ensures DecodedMask(t, r, n.masks) == if NormMask(m, r.slot).Some? then n.masks[r.slot := NormMask(m, r.slot).value]
            else n.masks
  {
  }

  lemma {:induction false} FoldToNorm(m: Match, k: nat)
    requires Typed(m) && k <= SLOTS
    ensures Fold(ANY, TlvsUpTo(m, k)) == Part(Norm(m), Order(k))
  {
    if k == 0 {
      assert Part(Norm(m), Order(0)) == ANY;
    } else {
      FoldToNorm(m, k - 1);
      FoldNext(m, k - 1);
    }
  }

  lemma {:induction false} FoldNext(m: Match, k: nat)
    requires Typed(m) && k < SLOTS
    requires Fold(ANY, TlvsUpTo(m, k)) == Part(Norm(m), Order(k))
    ensures Fold(ANY, TlvsUpTo(m, k + 1)) == Part(Norm(m), Order(k + 1))
  {
    var s, n := Nth(k), Part(Norm(m), Order(k));
    InOrder(s, k);
    RankOfNth(k);
    PartStep(Norm(m), Order(k), s);
    FoldField(m, s, n);
    OxmDecode.FoldConcat(Apply, ANY, TlvsUpTo(m, k), FieldTlvs(m, s));
  }

  lemma {:induction false} FoldField(m: Match, s: Slot, n: Match)
    requires Typed(m) && s !in n.masks
    ensures Fold(n, FieldTlvs(m, s)) == Put(n, Norm(m), s)
  {
    var ts := FieldTlvs(m, s);
    if s in m.values {
      FieldReadBack(m, s, n);
      OxmDecode.FoldOne(Apply, n, ts[0]);
      assert ts == [ts[0]];
    }
  }

  lemma {:induction false} FieldsDecodeToNorm(m: Match)
    requires Typed(m)
    ensures Fold(ANY, TlvsIn(AllBytes(Tlvs(m)))) == Norm(m)
  {
    var bytes := AllBytes(Tlvs(m));
    FieldsReadBack(Tlvs(m), []);
    assert bytes + [] == bytes;
    FoldToNorm(m, SLOTS);
    PartOfAll(Norm(m));
  }

  /** Decoding an encoded match, with anything after it, gives its normal form and takes exactly its bytes. */
  lemma {:induction false} MatchRoundTrip(m: Match, rest: seq<byte>)
    requires Typed(m)
    ensures Decoded(MatchBytes(m) + rest) == OxmDecode.Returned(Ok((Norm(m), |MatchBytes(m)|)))
  {
    var fields := AllBytes(Tlvs(m));
    var n := 4 + |fields|;
    EncodedLength(m, SLOTS);
    var s := MatchBytes(m) + rest;
    assert s[0..2] == [0, 1] && s[2..4] == Be(n, 2) && s[4..n] == fields;
    TwoBytes(n);
    OxmDecode.TwoByteNumber([0, 1]);
    FieldsDecodeToNorm(m);
  }

  // ------------------------------------------------------------- normal forms

  /** The largest VLAN id for which encoding and normal form agree. */
  predicate VlanEncodable(m: Match) { VlanVid in m.values ==> m.values[VlanVid] < 0x2000 }

  /** The normal form is itself normal, and of the same types. */
  lemma {:induction false} NormIdempotent(m: Match)
    requires Typed(m)
    ensures Typed(Norm(m)) && Norm(Norm(m)) == Norm(m)
  {
    var n := Norm(m);
    forall s | s in n.values
      ensures NormValue(s, n.values[s]) == n.values[s]
      ensures NormMask(n, s) == if s in n.masks then Some(n.masks[s]) else None
    {
      NormMaskIdempotent(m, s);
    }
    NormalIsNorm(n);
    NormTyped(m);
  }

  lemma {:induction false} NormTyped(m: Match)
    requires Typed(m)
    ensures Typed(Norm(m))
  {
    var n := Norm(m);
    forall s | s in n.values
      ensures n.values[s] < Pow256(LayoutOf(s).width)
    {
      assert NormValue(s, m.values[s]) <= m.values[s];
    }
    forall s | s in n.masks
      ensures MaskFits(LayoutOf(s), n.masks[s])
    {
      KeptFits(LayoutOf(s), MaskOf(m, s));
    }
  }

  lemma {:induction false} KeptFits(l: Layout, mask: Option<nat>)
    requires l.width <= 16 && Kept(l, mask).Some? && (mask.Some? ==> MaskFits(l, mask.value))
    ensures MaskFits(l, Kept(l, mask).value)
  {
  }

  lemma {:induction false} NormMaskIdempotent(m: Match, s: Slot)
    requires s in m.values
    ensures NormMask(Norm(m), s) == NormMask(m, s)
  {
    assert MaskOf(Norm(m), s) == NormMask(m, s);
    KeptMasked(LayoutOf(s), MaskOf(m, s));
  }

  lemma {:induction false} NormalIsNorm(n: Match)
    requires forall s :: s in n.values ==> NormValue(s, n.values[s]) == n.values[s]
    requires forall s :: s in n.values ==> NormMask(n, s) == if s in n.masks then Some(n.masks[s]) else None
    requires n.masks.Keys <= n.values.Keys && n.tcpFlags == None
    ensures Norm(n) == n
  {
  }

  lemma {:induction false} FieldOfNorm(m: Match, s: Slot)
    requires VlanEncodable(m)
    ensures FieldTlvs(Norm(m), s) == FieldTlvs(m, s)
  {
    if s in m.values {
      WireMaskOfNorm(m, s);
      SameFieldTlvs(m, Norm(m), s);
    }
  }

  lemma {:induction false} WireMaskOfNorm(m: Match, s: Slot)
    requires s in m.values
    ensures WireMask(Norm(m), s) == WireMask(m, s)
  {
    assert MaskOf(Norm(m), s) == NormMask(m, s);
    KeptMasked(LayoutOf(s), MaskOf(m, s));
  }

  lemma {:induction false} KeptMasked(l: Layout, mask: Option<nat>)
    ensures Masked(l, Kept(l, mask)) == Masked(l, mask) && Kept(l, Kept(l, mask)) == Kept(l, mask)
  {
  }

  lemma {:induction false} SameFieldTlvs(a: Match, b: Match, s: Slot)
    requires s in a.values && s in b.values
    requires WireValue(s, a.values[s]) == WireValue(s, b.values[s]) && WireMask(a, s) == WireMask(b, s)
    ensures FieldTlvs(a, s) == FieldTlvs(b, s)
  {
  }

  lemma {:induction false} TlvsOfNorm(m: Match, k: nat)
    requires VlanEncodable(m) && k <= SLOTS
    ensures TlvsUpTo(Norm(m), k) == TlvsUpTo(m, k)
  {
    if k > 0 {
      TlvsOfNorm(m, k - 1);
      FieldOfNorm(m, Nth(k - 1));
    }
  }

  /** Two matches encode to the same bytes exactly when they have the same normal form. */
  lemma {:induction false} EncodingIdentifiesNorms(a: Match, b: Match)
    requires Typed(a) && Typed(b) && VlanEncodable(a) && VlanEncodable(b)
    ensures MatchBytes(Norm(a)) == MatchBytes(a)
    ensures MatchBytes(a) == MatchBytes(b) <==> Norm(a) == Norm(b)
  {
    TlvsOfNorm(a, SLOTS);
    TlvsOfNorm(b, SLOTS);
    if MatchBytes(a) == MatchBytes(b) {
      SameBytesSameTlvs(a, b);
      FieldsDecodeToNorm(a);
      FieldsDecodeToNorm(b);
    }
  }

  /** Where an encoded match says how long its fields are, and where they are. */
  lemma {:induction false} FieldsPart(m: Match)
    ensures var x := AllBytes(Tlvs(m));
            && |MatchBytes(m)| >= 4 + |x| && 4 + |x| < 65536
            && FromBe(MatchBytes(m)[2..4]) == 4 + |x| && TlvsIn(MatchBytes(m)[4..4 + |x|]) == Tlvs(m)
  {
    var x := AllBytes(Tlvs(m));
    EncodedLength(m, SLOTS);
    TwoBytes(4 + |x|);
    assert MatchBytes(m)[2..4] == Be(4 + |x|, 2);
    FieldsReadBack(Tlvs(m), []);
    NilConcat(x);
    assert MatchBytes(m)[4..4 + |x|] == x;
  }

  lemma {:induction false} SameBytesSameTlvs(a: Match, b: Match)
    requires MatchBytes(a) == MatchBytes(b)
    ensures Tlvs(a) == Tlvs(b)
  {
    FieldsPart(a);
    FieldsPart(b);
  }

  lemma {:induction false} SameEnds<T>(x: seq<T>, p: seq<T>, y: seq<T>, q: seq<T>)
    requires x + p == y + q && |p| == |q|
    ensures x == y && p == q
  {
    assert x == (x + p)[..|x|] && y == (y + q)[..|y|];
    assert p == (x + p)[|x|..] && q == (y + q)[|y|..];
  }

  /** Lists of fields of the same slots are equal only field by field. */
  lemma {:induction false} SameTlvsSameField(a: Match, b: Match, k: nat, i: nat)
    requires a.values.Keys == b.values.Keys && i < k <= SLOTS
    requires TlvsUpTo(a, k) == TlvsUpTo(b, k)
    ensures FieldTlvs(a, Nth(i)) == FieldTlvs(b, Nth(i))
    decreases k
  {
    LastFieldSame(a, b, k - 1);
    if i < k - 1 {
      SameTlvsSameField(a, b, k - 1, i);
    }
  }

  lemma {:induction false} LastFieldSame(a: Match, b: Match, k: nat)
    requires a.values.Keys == b.values.Keys && k < SLOTS && TlvsUpTo(a, k + 1) == TlvsUpTo(b, k + 1)
    ensures TlvsUpTo(a, k) == TlvsUpTo(b, k) && FieldTlvs(a, Nth(k)) == FieldTlvs(b, Nth(k))
  {
    var s := Nth(k);
    assert s in a.values.Keys <==> s in b.values.Keys;
    SameEnds(TlvsUpTo(a, k), FieldTlvs(a, s), TlvsUpTo(b, k), FieldTlvs(b, s));
  }

  lemma {:induction false} VlanParts(v: nat)
    requires 0x2000 <= v < Pow256(2)
    ensures Be(WithPresent(v), 2) != Be(WithPresent(v % 0x1000), 2)
  {
    assert Pow256(2) == 256 * Pow256(1) && Pow256(1) == 256 * Pow256(0);
    TwoBytes(WithPresent(v));
    TwoBytes(WithPresent(v % 0x1000));
  }

  /** Above that, normal form and encoding part: the id loses a bit that the encoding keeps. */
  lemma {:induction false} NormEncodesSameIff(m: Match)
    requires Typed(m)
    ensures MatchBytes(Norm(m)) == MatchBytes(m) <==> VlanEncodable(m)
  {
    if VlanEncodable(m) {
      TlvsOfNorm(m, SLOTS);
    } else if MatchBytes(Norm(m)) == MatchBytes(m) {
      SameBytesSameTlvs(m, Norm(m));
      assert m.values.Keys == Norm(m).values.Keys;
      SameTlvsSameField(m, Norm(m), SLOTS, Rank(VlanVid));
      PayloadParts(m, VlanVid);
      PayloadParts(Norm(m), VlanVid);
      VlanParts(m.values[VlanVid]);
      assert false;
    }
  }
}
