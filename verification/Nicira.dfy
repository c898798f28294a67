/** Nicira actions on the wire: how they are encoded, what decoding makes of them, and which of them survive. */
module Nicira {
  import opened Common
  import opened Bytes
  import opened Seqs
  import opened Learn

  const EXPERIMENTER := 0xffff
  const NICIRA_VENDOR_ID := 0x2320
  const RESUBMIT := 1
  const MOVE := 6
  const REG_LOAD := 7
  const RESUBMIT_TABLE := 14
  const LEARN := 16
  const REG_LOAD2 := 33
  const CT := 35
  const NAT := 36

  /** "Resubmit with the packet's own ingress port." */
  const IN_PORT: u16 := 0xfff8
  /** The current table in a resubmit, and no recirculation in a ct. */
  const NO_TABLE: u8 := 255

  type u128 = n: nat | n < 0x1_0000_0000_0000_0000 * 0x1_0000_0000_0000_0000

  datatype NatConfig = NatConfig(
    flags: u16, ipv4Min: Option<u32>, ipv4Max: Option<u32>, ipv6Min: Option<u128>, ipv6Max: Option<u128>,
    portMin: Option<u16>, portMax: Option<u16>)

  /** The actions with a Nicira encoding, and the one without any. */
  datatype Action =
    | Drop
    | SetTunnelId(id: u64)
    | NxResubmit(port: Option<u16>, table: Option<u8>)
    | NxLearn(learn: Learn.NxLearn)
    | NxCt(flags: u16, zone: u16, table: Option<u8>)
    | NxCtNat(flags: u16, zone: u16, table: Option<u8>, nat: NatConfig)
    | NxMove(src: u32, dst: u32, nBits: u16, srcOfs: u16, dstOfs: u16)
    | NxRegLoad(dst: u32, dstOfs: u16, nBits: u16, value: u64)

  datatype Error = TooShort | OtherType | UnknownVendor | Malformed(error: Learn.Error)

  // ---------------------------------------------------------------- encoding

  function UnwrapOr<T>(o: Option<T>, default: T): T { if o.Some? then o.value else default }

  function Head(subtype: u16, length: nat): (s: seq<byte>)
    ensures |s| == 10
  {
    Be(EXPERIMENTER, 2) + Be(length % 0x1_0000, 2) + Be(NICIRA_VENDOR_ID, 4) + Be(subtype, 2)
  }

  /** Zeros that fill an action with this body up to a multiple of eight bytes. */
  function PadOf(body: seq<byte>): seq<byte> { Zeros(PadTo8(10 + |body|) - 10 - |body|) }

  /** An action of this subtype: head, body, and zeros up to a multiple of eight bytes. */
  function Whole(subtype: u16, body: seq<byte>): (s: seq<byte>)
    ensures |s| == PadTo8(10 + |body|)
  {
    Head(subtype, PadTo8(10 + |body|)) + body + PadOf(body)
  }

  /** A field that is sent only if it is there. */
  function Optional(v: Option<nat>, width: nat): (s: seq<byte>)
    ensures |s| == if v.Some? then width else 0
  {
    if v.Some? then Be(v.value, width) else []
  }

  function RangePresent(n: NatConfig): u16 {
    (if n.ipv4Min.Some? then 1 else 0) + (if n.ipv4Max.Some? then 2 else 0)
    + (if n.ipv6Min.Some? then 4 else 0) + (if n.ipv6Max.Some? then 8 else 0)
    + (if n.portMin.Some? then 16 else 0) + (if n.portMax.Some? then 32 else 0)
  }

  function NatBody(n: NatConfig): seq<byte> {
    [0, 0] + Be(n.flags, 2) + Be(RangePresent(n), 2)
    + Optional(n.ipv4Min, 4) + Optional(n.ipv4Max, 4) + Optional(n.ipv6Min, 16) + Optional(n.ipv6Max, 16)
    + Optional(n.portMin, 2) + Optional(n.portMax, 2)
  }

  function CtBody(flags: u16, zone: u16, table: Option<u8>): (s: seq<byte>)
    ensures |s| == 14
  {
    Be(flags, 2) + Zeros(4) + Be(zone, 2) + [UnwrapOr(table, NO_TABLE)] + Zeros(3) + Zeros(2)
  }

  /** Offset and bit count less one in one number: `(ofs << 6) | (n - 1)` on sixteen bits. */
  function OfsNBits(ofs: u16, nBits: u16): u16 {
    Pow2Values();
    OrBelow(ofs * 64 % 0x1_0000, LessOne(nBits), 16);
    Or(ofs * 64 % 0x1_0000, LessOne(nBits))
  }

  /** The tunnel id as a field: class 1, field 16, eight bytes. */
  function TunIdHeader(): (h: u32)
    ensures h / 0x1_0000 == 1 && h / 0x200 % 0x80 == 16 && h % 0x100 == 8
  {
    1 * 0x1_0000 + 16 * 0x200 + 8
  }

  function SubtypeOf(a: Action): u16
    requires !a.Drop?
  {
    match a
    case SetTunnelId(_) => REG_LOAD2
    case NxResubmit(_, _) => RESUBMIT_TABLE
    case NxLearn(_) => LEARN
    case NxCt(_, _, _) => CT
    case NxCtNat(_, _, _, _) => CT
    case NxMove(_, _, _, _, _) => MOVE
    case NxRegLoad(_, _, _, _) => REG_LOAD
  }

  function BodyOf(a: Action): seq<byte>
    requires !a.Drop?
  {
    match a
    case SetTunnelId(id) => Be(TunIdHeader(), 4) + Be(id, 8) + Zeros(2)
    case NxResubmit(port, table) => Be(UnwrapOr(port, IN_PORT), 2) + [UnwrapOr(table, NO_TABLE)] + Zeros(3)
    case NxLearn(l) => FixedBytes(l) + SpecsBytes(l.specs)
    case NxCt(flags, zone, table) => CtBody(flags, zone, table)
    case NxCtNat(flags, zone, table, nat') => CtBody(flags, zone, table) + Whole(NAT, NatBody(nat'))
    case NxMove(src, dst, nBits, srcOfs, dstOfs) =>
      Be(nBits, 2) + Be(srcOfs, 2) + Be(dstOfs, 2) + Be(src, 4) + Be(dst, 4)
    case NxRegLoad(dst, dstOfs, nBits, value) => Be(OfsNBits(dstOfs, nBits), 2) + Be(dst, 4) + Be(value, 8)
  }

  function WireOf(a: Action): seq<byte> { if a.Drop? then [] else Whole(SubtypeOf(a), BodyOf(a)) }

  /** Subtracting one from a bit count of zero stops a program that checks for overflow. */
  predicate Stops(a: Action) { (a.NxLearn? && Underflows(a.learn.specs)) || (a.NxRegLoad? && a.nBits == 0) }

  method EncodeNxHeader(subtype: u16, length: u16) returns (buf: seq<byte>)
    ensures buf == Head(subtype, length)
  {
    buf := Be(EXPERIMENTER, 2);
    buf := buf + Be(length, 2);
    buf := buf + Be(NICIRA_VENDOR_ID, 4);
    buf := buf + Be(subtype, 2);
  }

  method EncodeSetTunnelId(id: u64) returns (buf: seq<byte>)
    ensures buf == WireOf(SetTunnelId(id))
  {
    buf := EncodeNxHeader(REG_LOAD2, 24);
    ghost var head := buf;
    buf := buf + Be(TunIdHeader(), 4);
    buf := buf + Be(id, 8);
    buf := buf + Zeros(2);
    Gathered(head, Be(TunIdHeader(), 4), Be(id, 8), Zeros(2));
    FillsItself(REG_LOAD2, Be(TunIdHeader(), 4) + Be(id, 8) + Zeros(2));
  }

  lemma {:induction false} Gathered(a: seq<byte>, b: seq<byte>, c: seq<byte>, d: seq<byte>)
    ensures a + b + c + d == a + (b + c + d)
  {
  }

  /** A body that already ends at a multiple of eight bytes. */
  lemma {:induction false} FillsItself(subtype: u16, body: seq<byte>)
    requires (10 + |body|) % 8 == 0
    ensures Whole(subtype, body) == Head(subtype, 10 + |body|) + body
  {
    assert PadTo8(10 + |body|) == 10 + |body|;
    NilConcat(Head(subtype, 10 + |body|) + body);
    assert Zeros(0) == [];
  }

  method EncodeNxResubmit(port: Option<u16>, table: Option<u8>) returns (buf: seq<byte>)
    ensures buf == WireOf(NxResubmit(port, table))
  {
    buf := EncodeNxHeader(RESUBMIT_TABLE, 16);
    ghost var head := buf;
    buf := buf + Be(UnwrapOr(port, IN_PORT), 2);
    buf := buf + [UnwrapOr(table, NO_TABLE)];
    buf := buf + Zeros(3);
    Gathered(head, Be(UnwrapOr(port, IN_PORT), 2), [UnwrapOr(table, NO_TABLE)], Zeros(3));
    FillsItself(RESUBMIT_TABLE, Be(UnwrapOr(port, IN_PORT), 2) + [UnwrapOr(table, NO_TABLE)] + Zeros(3));
  }

  /** The fields common to both forms of ct. */
  method EncodeCtFields(buf: seq<byte>, flags: u16, zone: u16, table: Option<u8>) returns (out: seq<byte>)
    ensures out == buf + CtBody(flags, zone, table)
  {
    out := buf + Be(flags, 2);
    out := out + Zeros(4);
    out := out + Be(zone, 2);
    out := out + [UnwrapOr(table, NO_TABLE)];
    out := out + Zeros(3);
    out := out + Zeros(2);
    Gathered(buf, Be(flags, 2), Zeros(4), Be(zone, 2));
    Gathered(buf, Be(flags, 2) + Zeros(4) + Be(zone, 2), [UnwrapOr(table, NO_TABLE)], Zeros(3));
    Associative(buf, Be(flags, 2) + Zeros(4) + Be(zone, 2) + [UnwrapOr(table, NO_TABLE)] + Zeros(3), Zeros(2));
  }

  method EncodeNxCt(flags: u16, zone: u16, table: Option<u8>) returns (buf: seq<byte>)
    ensures buf == WireOf(NxCt(flags, zone, table))
  {
    buf := EncodeNxHeader(CT, 24);
    buf := EncodeCtFields(buf, flags, zone, table);
    FillsItself(CT, CtBody(flags, zone, table));
  }

  method EncodeNxNat(n: NatConfig) returns (buf: seq<byte>)
    ensures buf == Whole(NAT, NatBody(n))
  {
    var body := [0, 0] + Be(n.flags, 2) + Be(RangePresent(n), 2);
    body := body + Optional(n.ipv4Min, 4) + Optional(n.ipv4Max, 4);
    body := body + Optional(n.ipv6Min, 16) + Optional(n.ipv6Max, 16);
    body := body + Optional(n.portMin, 2) + Optional(n.portMax, 2);
    var paddedLen := PadTo8(10 + |body|);
    buf := EncodeNxHeader(NAT, paddedLen);
    buf := buf + body;
    buf := buf + Zeros(paddedLen - |buf|);
  }

  /** The end of an action built from two parts: zeros up to its padded length. */
  method Finish(buf: seq<byte>, paddedLen: nat, ghost subtype: u16, ghost a: seq<byte>, ghost b: seq<byte>)
      returns (out: seq<byte>)
    requires paddedLen == PadTo8(10 + |a| + |b|) && buf == Head(subtype, paddedLen % 0x1_0000) + a + b
    ensures out == Whole(subtype, a + b)
  {
    WholeFrom(subtype, a, b);
    out := buf + Zeros(paddedLen - |buf|);
  }

  lemma {:induction false} WholeFrom(subtype: u16, a: seq<byte>, b: seq<byte>)
    ensures var n := PadTo8(10 + |a| + |b|);
            Head(subtype, n % 0x1_0000) + a + b + Zeros(n - 10 - |a| - |b|) == Whole(subtype, a + b)
  {
    Associative(Head(subtype, PadTo8(10 + |a| + |b|)), a, b);
  }

  method EncodeNxCtNat(flags: u16, zone: u16, table: Option<u8>, n: NatConfig) returns (buf: seq<byte>)
    ensures buf == WireOf(NxCtNat(flags, zone, table, n))
  {
    var natAction := EncodeNxNat(n);
    var paddedLen := PadTo8(24 + |natAction|);
    buf := EncodeNxHeader(CT, paddedLen % 0x1_0000);
    buf := EncodeCtFields(buf, flags, zone, table);
    buf := buf + natAction;
    buf := Finish(buf, paddedLen, CT, CtBody(flags, zone, table), natAction);
  }

  method EncodeNxMove(src: u32, dst: u32, nBits: u16, srcOfs: u16, dstOfs: u16) returns (buf: seq<byte>)
    ensures buf == WireOf(NxMove(src, dst, nBits, srcOfs, dstOfs))
  {
    buf := EncodeNxHeader(MOVE, 24);
    ghost var head := buf;
    buf := buf + Be(nBits, 2);
    buf := buf + Be(srcOfs, 2);
    buf := buf + Be(dstOfs, 2);
    buf := buf + Be(src, 4);
    buf := buf + Be(dst, 4);
    MoveGathered(head, Be(nBits, 2), Be(srcOfs, 2), Be(dstOfs, 2), Be(src, 4), Be(dst, 4));
    FillsItself(MOVE, Be(nBits, 2) + Be(srcOfs, 2) + Be(dstOfs, 2) + Be(src, 4) + Be(dst, 4));
  }

  lemma {:induction false} MoveGathered(
      a: seq<byte>, b: seq<byte>, c: seq<byte>, d: seq<byte>, e: seq<byte>, f: seq<byte>)
    ensures a + b + c + d + e + f == a + (b + c + d + e + f)
  {
  }

  /** `None`: the program has stopped on a bit count of zero, which it does when it was built to check for overflow. */
  method EncodeNxRegLoad(dst: u32, dstOfs: u16, nBits: u16, value: u64, checked: bool) returns (r: Option<seq<byte>>)
    ensures r == if checked && nBits == 0 then None else Some(WireOf(NxRegLoad(dst, dstOfs, nBits, value)))
  {
    var buf := EncodeNxHeader(REG_LOAD, 24);
    ghost var head := buf;
    if checked && nBits == 0 {
      return None;
    }
    buf := buf + Be(OfsNBits(dstOfs, nBits), 2);
    buf := buf + Be(dst, 4);
    buf := buf + Be(value, 8);
    Gathered(head, Be(OfsNBits(dstOfs, nBits), 2), Be(dst, 4), Be(value, 8));
    FillsItself(REG_LOAD, Be(OfsNBits(dstOfs, nBits), 2) + Be(dst, 4) + Be(value, 8));
    r := Some(buf);
  }

  method EncodeNxLearn(l: Learn.NxLearn, checked: bool) returns (r: Option<seq<byte>>)
    ensures r == if checked && Underflows(l.specs) then None else Some(WireOf(Action.NxLearn(l)))
  {
    var specs := EncodeLearnSpecs(l.specs, checked);
    if specs.None? {
      return None;
    }
    var buf := Assembled(l, specs.value);
    r := Some(buf);
  }

  /** The learn action around its encoded specs. */
  method Assembled(l: Learn.NxLearn, specs: seq<byte>) returns (buf: seq<byte>)
    ensures buf == Whole(LEARN, FixedBytes(l) + specs)
  {
    var paddedLen := PadTo8(32 + |specs|);
    buf := EncodeNxHeader(LEARN, paddedLen % 0x1_0000);
    buf := EncodeFixed(buf, l);
    buf := buf + specs;
    buf := Finish(buf, paddedLen, LEARN, FixedBytes(l), specs);
  }

  /** `Action::encode`, for these actions. */
  method Encode(a: Action, checked: bool) returns (r: Option<seq<byte>>)
    ensures r == if checked && Stops(a) then None else Some(WireOf(a))
  {
    var buf: seq<byte> := [];
    match a {
      case Drop =>
      case SetTunnelId(id) => buf := EncodeSetTunnelId(id);
      case NxResubmit(port, table) => buf := EncodeNxResubmit(port, table);
      case NxLearn(l) =>
        r := EncodeNxLearn(l, checked);
        return;
      case NxCt(flags, zone, table) => buf := EncodeNxCt(flags, zone, table);
      case NxCtNat(flags, zone, table, nat') => buf := EncodeNxCtNat(flags, zone, table, nat');
      case NxMove(src, dst, nBits, srcOfs, dstOfs) => buf := EncodeNxMove(src, dst, nBits, srcOfs, dstOfs);
      case NxRegLoad(dst, dstOfs, nBits, value) =>
        r := EncodeNxRegLoad(dst, dstOfs, nBits, value, checked);
        return;
    }
    r := Some(buf);
  }

  // ---------------------------------------------------------------- decoding

  function Port(n: u16): Option<u16> { if n == IN_PORT then None else Some(n) }
  function Table(n: u8): Option<u8> { if n == NO_TABLE then None else Some(n) }

  function DecodedResubmitTable(data: seq<byte>): Result<Action, Learn.Error> {
    if |data| < 3 then Err(Truncated) else Ok(NxResubmit(Port(HeaderAt(data)), Table(data[2])))
  }

  function DecodedResubmit(data: seq<byte>): Result<Action, Learn.Error> {
    if |data| < 2 then Err(Truncated) else Ok(NxResubmit(Port(HeaderAt(data)), None))
  }

  /** The recirculation table may be missing. Whatever follows it, a nested action too, is not looked at. */
  function DecodedCt(data: seq<byte>): Result<Action, Learn.Error> {
    if |data| < 8 then Err(Truncated)
    else Ok(NxCt(HeaderAt(data), HeaderAt(data[6..]), if |data| > 8 then Table(data[8]) else None))
  }

  /** Only a tunnel id is recognised. */
  function DecodedRegLoad2(data: seq<byte>): Result<Action, Learn.Error> {
    if |data| < 4 then Err(Truncated)
    else
      var header := FieldAt(data, 0);
      var length := header % 0x100;
      if |data| < 4 + length then Err(Truncated)
      else if header / 0x1_0000 == 1 && header / 0x200 % 0x80 == 16 && length >= 8 then
        Ok(SetTunnelId(LongAt(data[4..])))
      else Ok(Drop)
  }

  /** An action after its vendor id. */
  function DecodedNicira(data: seq<byte>): Result<Action, Learn.Error> {
    if |data| < 2 then Err(Truncated)
    else if HeaderAt(data) == RESUBMIT_TABLE then DecodedResubmitTable(data[2..])
    else if HeaderAt(data) == RESUBMIT then DecodedResubmit(data[2..])
    else if HeaderAt(data) == CT then DecodedCt(data[2..])
    else if HeaderAt(data) == REG_LOAD2 then DecodedRegLoad2(data[2..])
    else if HeaderAt(data) == LEARN then
      (match DecodedLearn(data[2..])
       case Err(e) => Err(e)
       case Ok(l) => Ok(Action.NxLearn(l)))
    else Ok(Drop)
  }

  /** An action at the front of `data`, with how many bytes it takes up; other types are read by other code. */
  function Decoded(data: seq<byte>): Result<(Action, nat), Error> {
    if |data| < 4 then Err(TooShort)
    else
      var length := HeaderAt(data[2..]);
      if |data| < length then Err(TooShort)
      else if HeaderAt(data) != EXPERIMENTER then Err(OtherType)
      else if length < 10 then Err(TooShort)
      else if FieldAt(data, 4) != NICIRA_VENDOR_ID then Err(UnknownVendor)
      else
        match DecodedNicira(data[8..length])
        case Err(e) => Err(Malformed(e))
        case Ok(a) => Ok((a, length))
  }

  method DecodeResubmitTable(cur: Cursor) returns (r: Result<Action, Learn.Error>)
    requires cur.Valid()
    modifies cur
    ensures r == DecodedResubmitTable(old(cur.Left()))
  {
    ghost var left := cur.Left();
    var inPort := cur.Read(2);
    if inPort.Err? {
      return Err(inPort.error);
    }
    var table := cur.Read(1);
    if table.Err? {
      return Err(table.error);
    }
    HeaderFits(left);
    OneByte(left[2..]);
    var port := if inPort.value == IN_PORT then None else Some(inPort.value);
    r := Ok(NxResubmit(port, if table.value == 255 then None else Some(table.value)));
  }

  method DecodeResubmit(cur: Cursor) returns (r: Result<Action, Learn.Error>)
    requires cur.Valid()
    modifies cur
    ensures r == DecodedResubmit(old(cur.Left()))
  {
    ghost var left := cur.Left();
    var inPort := cur.Read(2);
    if inPort.Err? {
      return Err(inPort.error);
    }
    HeaderFits(left);
    r := Ok(NxResubmit(if inPort.value == IN_PORT then None else Some(inPort.value), None));
  }

  method DecodeCt(cur: Cursor) returns (r: Result<Action, Learn.Error>)
    requires cur.Valid()
    modifies cur
    ensures r == DecodedCt(old(cur.Left()))
  {
    ghost var left := cur.Left();
    var flags := cur.Read(2);
    if flags.Err? {
      return Err(flags.error);
    }
    var zoneSrc := cur.Take(4);
    if zoneSrc.Err? {
      return Err(zoneSrc.error);
    }
    DropDrop(left, 2, 4);
    var zone := cur.Read(2);
    if zone.Err? {
      return Err(zone.error);
    }
    DropDrop(left, 6, 2);
    var recirc := Ok(255);
    if cur.Remaining() > 0 {
      recirc := cur.Read(1);
      OneByte(left[8..]);
    }
    HeaderFits(left);
    HeaderFits(left[6..]);
    r := Ok(NxCt(flags.value, zone.value, if recirc.value == 255 then None else Some(recirc.value)));
  }

  method DecodeRegLoad2(cur: Cursor) returns (r: Result<Action, Learn.Error>)
    requires cur.Valid()
    modifies cur
    ensures r == DecodedRegLoad2(old(cur.Left()))
  {
    ghost var left := cur.Left();
    var header := cur.Read(4);
    if header.Err? {
      return Err(header.error);
    }
    assert left[0..4] == left[..4];
    var length := header.value % 0x100;
    var value := cur.Take(length);
    if value.Err? {
      return Err(value.error);
    }
    if header.value / 0x1_0000 == 1 && header.value / 0x200 % 0x80 == 16 && length >= 8 {
      assert value.value[..8] == left[4..][..8];
      r := Ok(SetTunnelId(LongAt(value.value)));
    } else {
      r := Ok(Drop);
    }
  }

  method DecodeNiciraAction(data: seq<byte>) returns (r: Result<Action, Learn.Error>)
    ensures r == DecodedNicira(data)
  {
    var cur := new Cursor(data);
    var subtype := cur.Read(2);
    if subtype.Err? {
      return Err(Truncated);
    }
    if subtype.value == RESUBMIT_TABLE {
      r := DecodeResubmitTable(cur);
    } else if subtype.value == RESUBMIT {
      r := DecodeResubmit(cur);
    } else if subtype.value == CT {
      r := DecodeCt(cur);
    } else if subtype.value == REG_LOAD2 {
      r := DecodeRegLoad2(cur);
    } else if subtype.value == LEARN {
      var l := DecodeLearn(cur);
      r := if l.Err? then Err(l.error) else Ok(Action.NxLearn(l.value));
    } else {
      r := Ok(Drop);
    }
  }

  /** `Action::decode`, for the experimenter type. */
  method Decode(data: seq<byte>) returns (r: Result<(Action, nat), Error>)
    ensures r == Decoded(data)
  {
    if |data| < 4 {
      return Err(TooShort);
    }
    var actionType, length := HeaderAt(data), HeaderAt(data[2..]);
    if |data| < length {
      return Err(TooShort);
    }
    if actionType != EXPERIMENTER {
      return Err(OtherType);
    }
    if length < 10 {
      return Err(TooShort);
    }
    var vendor := FieldAt(data, 4);
    if vendor != NICIRA_VENDOR_ID {
      return Err(UnknownVendor);
    }
    var a := DecodeNiciraAction(data[8..length]);
    r := if a.Err? then Err(Malformed(a.error)) else Ok((a.value, length));
  }

  // --------------------------------------------------------------- round trip

  /** What an encoded action other than learn is read as. */
  function ReadsAs(a: Action): Action {
    match a
    case Drop => Drop
    case SetTunnelId(_) => a
    case NxResubmit(port, table) => NxResubmit(Port(UnwrapOr(port, IN_PORT)), Table(UnwrapOr(table, NO_TABLE)))
    case NxLearn(_) => a
    case NxCt(flags, zone, table) => NxCt(flags, zone, Table(UnwrapOr(table, NO_TABLE)))
    case NxCtNat(flags, zone, table, _) => NxCt(flags, zone, Table(UnwrapOr(table, NO_TABLE)))
    case NxMove(_, _, _, _, _) => Drop
    case NxRegLoad(_, _, _, _) => Drop
  }

  lemma {:induction false} HeaderOf(value: u16, rest: seq<byte>)
    ensures HeaderAt(Be(value, 2) + rest) == value && (Be(value, 2) + rest)[2..] == rest
  {
    TwoBytes(value);
    assert (Be(value, 2) + rest)[..2] == Be(value, 2);
  }

  lemma {:induction false} HeadParts(subtype: u16, n: nat)
    ensures var h := Head(subtype, n);
            && h[..2] == Be(EXPERIMENTER, 2) && h[2..4] == Be(n % 0x1_0000, 2) && h[4..8] == Be(NICIRA_VENDOR_ID, 4)
            && h[8..] == Be(subtype, 2)
  {
  }

  /** Where the decoder finds the parts of an encoded action. */
  lemma {:induction false} WholeParts(subtype: u16, body: seq<byte>)
    ensures var w := Whole(subtype, body);
            && HeaderAt(w) == EXPERIMENTER && HeaderAt(w[2..]) == |w| % 0x1_0000 && FieldAt(w, 4) == NICIRA_VENDOR_ID
            && w[8..] == Be(subtype, 2) + (body + PadOf(body))
  {
    var h, rest := Head(subtype, PadTo8(10 + |body|)), body + PadOf(body);
    HeadParts(subtype, PadTo8(10 + |body|));
    Associative(h, body, PadOf(body));
    HeadThen(h, rest);
    Pow256Values();
    TwoBytes(EXPERIMENTER);
    TwoBytes(PadTo8(10 + |body|) % 0x1_0000);
    FromBeBe(NICIRA_VENDOR_ID, 4);
  }

  lemma {:induction false} HeadThen(h: seq<byte>, rest: seq<byte>)
    requires |h| == 10
    ensures var w := h + rest;
            w[..2] == h[..2] && w[2..][..2] == h[2..4] && w[4..8] == h[4..8] && w[8..] == h[8..] + rest
  {
  }

  /** An action whose length fits its field is read from all of its bytes. */
  lemma {:induction false} ShortReadBack(subtype: u16, body: seq<byte>)
    requires PadTo8(10 + |body|) < 0x1_0000
    ensures Decoded(Whole(subtype, body)) == match DecodedNicira(Be(subtype, 2) + (body + PadOf(body)))
                                             case Err(e) => Err(Malformed(e))
                                             case Ok(a) => Ok((a, |Whole(subtype, body)|))
  {
    WholeParts(subtype, body);
    var w := Whole(subtype, body);
    assert w[8..|w|] == w[8..];
  }

  /** A longer one is never read as long as it is. */
  lemma {:induction false} LongReadBack(subtype: u16, body: seq<byte>)
    requires PadTo8(10 + |body|) >= 0x1_0000
    ensures var w := Whole(subtype, body); Decoded(w).Err? || Decoded(w).value.1 < |w|
  {
    WholeParts(subtype, body);
  }

  lemma {:induction false} ResubmitReadBack(port: u16, table: u8, rest: seq<byte>)
    ensures DecodedResubmitTable(Be(port, 2) + [table] + rest) == Ok(NxResubmit(Port(port), Table(table)))
  {
    Associative(Be(port, 2), [table], rest);
    HeaderOf(port, [table] + rest);
  }

  lemma {:induction false} CtReadBack(flags: u16, zone: u16, table: Option<u8>, rest: seq<byte>)
    ensures DecodedCt(CtBody(flags, zone, table) + rest) == Ok(NxCt(flags, zone, Table(UnwrapOr(table, NO_TABLE))))
  {
    var data := CtBody(flags, zone, table) + rest;
    assert data[..2] == Be(flags, 2) && data[6..][..2] == Be(zone, 2);
    TwoBytes(flags);
    TwoBytes(zone);
    assert data[8] == UnwrapOr(table, NO_TABLE);
  }

  lemma {:induction false} TunnelReadBack(id: u64, rest: seq<byte>)
    ensures DecodedRegLoad2(Be(TunIdHeader(), 4) + Be(id, 8) + rest) == Ok(SetTunnelId(id))
  {
    var data := Be(TunIdHeader(), 4) + Be(id, 8) + rest;
    assert data[0..4] == Be(TunIdHeader(), 4) && data[4..][..8] == Be(id, 8);
    Pow256Values();
    FromBeBe(TunIdHeader(), 4);
    EightBytes(id);
  }

  lemma {:induction false} ReadBackOf(subtype: u16, body: seq<byte>)
    requires |body| < 0xff00
    ensures HeaderAt(Be(subtype, 2) + (body + PadOf(body))) == subtype
    ensures (Be(subtype, 2) + (body + PadOf(body)))[2..] == body + PadOf(body)
    ensures Decoded(Whole(subtype, body)) == match DecodedNicira(Be(subtype, 2) + (body + PadOf(body)))
                                             case Err(e) => Err(Malformed(e))
                                             case Ok(a) => Ok((a, |Whole(subtype, body)|))
  {
    ShortReadBack(subtype, body);
    HeaderOf(subtype, body + PadOf(body));
  }

  lemma {:induction false} TunnelRound(id: u64)
    ensures Decoded(WireOf(SetTunnelId(id))) == Ok((SetTunnelId(id), |WireOf(SetTunnelId(id))|))
  {
    var body := Be(TunIdHeader(), 4) + Be(id, 8) + Zeros(2);
    ReadBackOf(REG_LOAD2, body);
    Associative(Be(TunIdHeader(), 4) + Be(id, 8), Zeros(2), PadOf(body));
    TunnelReadBack(id, Zeros(2) + PadOf(body));
  }

  lemma {:induction false} ResubmitRound(port: Option<u16>, table: Option<u8>)
    ensures var a := NxResubmit(port, table); Decoded(WireOf(a)) == Ok((ReadsAs(a), |WireOf(a)|))
  {
    var start := Be(UnwrapOr(port, IN_PORT), 2) + [UnwrapOr(table, NO_TABLE)];
    ReadBackOf(RESUBMIT_TABLE, start + Zeros(3));
    Associative(start, Zeros(3), PadOf(start + Zeros(3)));
    ResubmitReadBack(UnwrapOr(port, IN_PORT), UnwrapOr(table, NO_TABLE), Zeros(3) + PadOf(start + Zeros(3)));
  }

  /** With a nested action or without, a ct is read the same. */
  lemma {:induction false} CtRound(flags: u16, zone: u16, table: Option<u8>, nested: seq<byte>)
    requires |nested| < 0x8000
    ensures var w := Whole(CT, CtBody(flags, zone, table) + nested);
            Decoded(w) == Ok((NxCt(flags, zone, Table(UnwrapOr(table, NO_TABLE))), |w|))
  {
    var body := CtBody(flags, zone, table) + nested;
    ReadBackOf(CT, body);
    Associative(CtBody(flags, zone, table), nested, PadOf(body));
    CtReadBack(flags, zone, table, nested + PadOf(body));
  }

  lemma {:induction false} DropRound(subtype: u16, body: seq<byte>)
    requires subtype == MOVE || subtype == REG_LOAD
    requires |body| < 0x8000
    ensures Decoded(Whole(subtype, body)) == Ok((Drop, |Whole(subtype, body)|))
  {
    ReadBackOf(subtype, body);
  }

  /**
   What is read back of an action, for every action but learn: the normal form of a resubmit or ct, without its NAT.
   */
  lemma {:induction false} ReadBack(a: Action)
    requires !a.NxLearn? && !a.Drop?
    ensures Decoded(WireOf(a)) == Ok((ReadsAs(a), |WireOf(a)|))
  {
    match a {
      case SetTunnelId(id) => TunnelRound(id);
      case NxResubmit(port, table) => ResubmitRound(port, table);
      case NxCt(flags, zone, table) =>
        NilConcat(CtBody(flags, zone, table));
        CtRound(flags, zone, table, []);
      case NxCtNat(flags, zone, table, n) => CtRound(flags, zone, table, Whole(NAT, NatBody(n)));
      case NxMove(src, dst, nBits, srcOfs, dstOfs) =>
        DropRound(MOVE, Be(nBits, 2) + Be(srcOfs, 2) + Be(dstOfs, 2) + Be(src, 4) + Be(dst, 4));
      case NxRegLoad(dst, dstOfs, nBits, value) =>
        DropRound(REG_LOAD, Be(OfsNBits(dstOfs, nBits), 2) + Be(dst, 4) + Be(value, 8));
    }
  }

  /** Exactly which actions come back as they were. */
  predicate Survives(a: Action) {
    match a
    case SetTunnelId(_) => true
    case NxResubmit(port, table) => port != Some(IN_PORT) && table != Some(NO_TABLE)
    case NxCt(_, _, table) => table != Some(NO_TABLE)
    case NxLearn(l) =>
      LearnLength(l) < 0x1_0000 && forall s :: s in l.specs ==> Encodable(s) && !LooksLikeEnd(s) && Full(s)
    case _ => false
  }

  /** Every action is a multiple of eight bytes long, and says so whenever its length fits sixteen bits. */
  lemma {:induction false} LengthField(a: Action)
    requires !a.Drop?
    ensures var w := WireOf(a);
            |w| > 0 && |w| % 8 == 0 && (HeaderAt(w[2..]) == |w| <==> |w| < 0x1_0000)
  {
    WholeLengthField(SubtypeOf(a), BodyOf(a));
  }

  lemma {:induction false} WholeLengthField(subtype: u16, body: seq<byte>)
    ensures var w := Whole(subtype, body);
            |w| > 0 && |w| % 8 == 0 && (HeaderAt(w[2..]) == |w| <==> |w| < 0x1_0000)
  {
    WholeParts(subtype, body);
  }

  /** A learn action after its vendor id comes back up to the specs from the first that looks like the end. */
  lemma {:induction false} LearnRoundTrip(l: Learn.NxLearn)
    requires AllEncodable(l.specs)
    ensures DecodedNicira(Be(LEARN, 2) + LearnBytes(l)) == Ok(Action.NxLearn(l.(specs := Survivors(l.specs))))
  {
    HeaderOf(LEARN, LearnBytes(l));
    LearnReadBack(l);
  }

  lemma {:induction false} LearnDecoded(body: seq<byte>)
    ensures var w := Whole(LEARN, body);
            && (|w| < 0x1_0000 ==> Decoded(w) == match DecodedLearn(body + PadOf(body))
                                                 case Err(e) => Err(Malformed(e))
                                                 case Ok(l) => Ok((Action.NxLearn(l), |w|)))
            && (|w| >= 0x1_0000 ==> Decoded(w).Err? || Decoded(w).value.1 < |w|)
  {
    if |Whole(LEARN, body)| < 0x1_0000 {
      ShortReadBack(LEARN, body);
      HeaderOf(LEARN, body + PadOf(body));
    } else {
      LongReadBack(LEARN, body);
    }
  }

  lemma {:induction false} LearnSurvivesIff(l: Learn.NxLearn)
    ensures var a := Action.NxLearn(l); Decoded(WireOf(a)) == Ok((a, |WireOf(a)|)) <==> Survives(a)
  {
    LearnDecoded(FixedBytes(l) + SpecsBytes(l.specs));
    LearnWhole(l);
    LearnExactIff(l);
  }

  lemma {:induction false} LearnWhole(l: Learn.NxLearn)
    ensures var body := FixedBytes(l) + SpecsBytes(l.specs);
            body + PadOf(body) == LearnBytes(l) && |Whole(LEARN, body)| == LearnLength(l)
  {
  }

  /**
   Decoding inverts encoding, action and length, exactly for: tunnel ids; resubmits and cts that do not spell out the
   numbers standing for "no port" and "no table"; and learn actions whose length fits its field and whose specs all
   have at most 2048 bits and at least one, fill their words and are not one-bit field matches. A ct with NAT comes
   back without it, and a move or a register load as a drop.
   */
  lemma {:induction false} RoundTripIff(a: Action)
    ensures Decoded(WireOf(a)) == Ok((a, |WireOf(a)|)) <==> Survives(a)
  {
    if a.NxLearn? {
      LearnSurvivesIff(a.learn);
    } else if !a.Drop? {
      ReadBack(a);
    }
  }
}
