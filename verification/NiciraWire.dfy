/**
 The encoded Nicira actions as a switch reads them: numbers at the positions of Open vSwitch's action structures, not
 through the program's own decoder.
 */
module NiciraWire {
  import opened Common
  import opened Bytes
  import opened Seqs
  import opened Learn
  import opened Nicira

  /** The big-endian number in `width` bytes at position `at`. */
  function Num(w: seq<byte>, at: nat, width: nat): nat
    requires at + width <= |w|
  {
    FromBe(w[at..at + width])
  }

  // ------------------------------------------------------------- address ranges

  /** A translation as a switch understands it. */
  datatype Translation = Translation(
    flags: nat, ipv4Min: Option<nat>, ipv4Max: Option<nat>, ipv6Min: Option<nat>, ipv6Max: Option<nat>,
    portMin: Option<nat>, portMax: Option<nat>)

  function Address(v: Option<u32>): Option<nat> { assert v.Some? ==> v.value >= 0; v }

  function PortNumber(v: Option<u16>): Option<nat> { assert v.Some? ==> v.value >= 0; v }

  function Meant(n: NatConfig): Translation {
    Translation(n.flags, Address(n.ipv4Min), Address(n.ipv4Max), n.ipv6Min, n.ipv6Max,
      PortNumber(n.portMin), PortNumber(n.portMax))
  }

  /** The announced field at the front of `data`, and what follows it. */
  function Announced(data: Option<seq<byte>>, present: bool, width: nat): (Option<nat>, Option<seq<byte>>) {
    if !present then (None, data)
    else if data.None? || |data.value| < width then (None, None)
    else (Some(FromBe(data.value[..width])), Some(data.value[width..]))
  }

  /**
   A switch reading a translation: flags, the ranges announced bit by bit, and then each announced field, from bit 0
   for the least IPv4 address to bit 5 for the greatest port.
   */
  function ReadNat(w: seq<byte>): Option<Translation> {
    if |w| < 16 || Num(w, 0, 2) != 0xffff || Num(w, 4, 4) != 0x2320 || Num(w, 8, 2) != 36 then None
    else
      var bits := Num(w, 14, 2);
      var (ipv4Min, d1) := Announced(Some(w[16..]), bits % 2 == 1, 4);
      var (ipv4Max, d2) := Announced(d1, bits / 2 % 2 == 1, 4);
      var (ipv6Min, d3) := Announced(d2, bits / 4 % 2 == 1, 16);
      var (ipv6Max, d4) := Announced(d3, bits / 8 % 2 == 1, 16);
      var (portMin, d5) := Announced(d4, bits / 16 % 2 == 1, 2);
      var (portMax, d6) := Announced(d5, bits / 32 % 2 == 1, 2);
      if d6.None? then None
      else Some(Translation(Num(w, 12, 2), ipv4Min, ipv4Max, ipv6Min, ipv6Max, portMin, portMax))
  }

  lemma {:induction false} BitsOfRange(n: NatConfig)
    ensures var bits := RangePresent(n);
            && (bits % 2 == 1 <==> n.ipv4Min.Some?) && (bits / 2 % 2 == 1 <==> n.ipv4Max.Some?)
            && (bits / 4 % 2 == 1 <==> n.ipv6Min.Some?) && (bits / 8 % 2 == 1 <==> n.ipv6Max.Some?)
            && (bits / 16 % 2 == 1 <==> n.portMin.Some?) && (bits / 32 % 2 == 1 <==> n.portMax.Some?)
  {
  }

  /** A field that is sent only if it is there is read back, with what follows it. */
  lemma {:induction false} AnnouncedBack(v: Option<nat>, width: nat, rest: seq<byte>)
    requires v.Some? ==> v.value < Pow256(width)
    ensures Announced(Some(Optional(v, width) + rest), v.Some?, width) == (v, Some(rest))
  {
    if v.Some? {
      var data := Be(v.value, width) + rest;
      assert data[..width] == Be(v.value, width) && data[width..] == rest;
      FromBeBe(v.value, width);
    } else {
      assert [] + rest == rest;
    }
  }

  /** The announced fields, each before those that follow it. */
  function From0(n: NatConfig, rest: seq<byte>): seq<byte> { Optional(Address(n.ipv4Min), 4) + From1(n, rest) }
  function From1(n: NatConfig, rest: seq<byte>): seq<byte> { Optional(Address(n.ipv4Max), 4) + From2(n, rest) }
  function From2(n: NatConfig, rest: seq<byte>): seq<byte> { Optional(n.ipv6Min, 16) + From3(n, rest) }
  function From3(n: NatConfig, rest: seq<byte>): seq<byte> { Optional(n.ipv6Max, 16) + From4(n, rest) }
  function From4(n: NatConfig, rest: seq<byte>): seq<byte> { Optional(PortNumber(n.portMin), 2) + From5(n, rest) }
  function From5(n: NatConfig, rest: seq<byte>): seq<byte> { Optional(PortNumber(n.portMax), 2) + rest }

  lemma {:induction false} SixParts(h: seq<byte>, a: seq<byte>, b: seq<byte>, c: seq<byte>, d: seq<byte>,
        e: seq<byte>, f: seq<byte>, rest: seq<byte>)
    ensures h + a + b + c + d + e + f + rest == h + (a + (b + (c + (d + (e + (f + rest))))))
  {
  }

  function RangeHead(n: NatConfig): (s: seq<byte>)
    ensures |s| == 6
  {
    [0, 0] + Be(n.flags, 2) + Be(RangePresent(n), 2)
  }

  /** Padding, flags and range bits, then the announced fields. */
  lemma {:induction false} BodyParts(n: NatConfig, rest: seq<byte>)
    ensures NatBody(n) + rest == RangeHead(n) + From0(n, rest)
  {
    SixParts(RangeHead(n), Optional(Address(n.ipv4Min), 4), Optional(Address(n.ipv4Max), 4),
      Optional(n.ipv6Min, 16), Optional(n.ipv6Max, 16), Optional(PortNumber(n.portMin), 2),
      Optional(PortNumber(n.portMax), 2), rest);
  }

  /** The head every action starts with. */
  predicate Headed(w: seq<byte>, subtype: nat) {
    |w| >= 10 && Num(w, 0, 2) == 0xffff && Num(w, 2, 2) == |w| % 0x1_0000 && Num(w, 4, 4) == 0x2320
      && Num(w, 8, 2) == subtype
  }

  lemma {:induction false} HeadedWhole(subtype: u16, body: seq<byte>)
    ensures var w := Whole(subtype, body); Headed(w, subtype) && w[10..] == body + PadOf(body)
  {
    var w := Whole(subtype, body);
    WholeParts(subtype, body);
    assert w[8..10] == Be(subtype, 2) && w[10..] == w[8..][2..];
    assert w[2..][..2] == w[2..4] && w[0..2] == w[..2];
    TwoBytes(subtype);
  }

  /** A number that stands in the body of an action stands ten bytes further in the action. */
  lemma {:induction false} Carried(w: seq<byte>, body: seq<byte>, tail: seq<byte>, i: nat, v: nat, width: nat)
    requires |w| >= 10 && w[10..] == body + tail && v < Pow256(width)
    requires i + width <= |body| && body[i..i + width] == Be(v, width)
    ensures |w| == 10 + |body| + |tail| && Num(w, 10 + i, width) == v
  {
    SliceOfDrop(w, 10, i, i + width);
    assert (body + tail)[i..i + width] == body[i..i + width];
    FromBeBe(v, width);
  }

  lemma {:induction false} Carried16(w: seq<byte>, body: seq<byte>, tail: seq<byte>, i: nat, v: u16)
    requires |w| >= 10 && w[10..] == body + tail && i + 2 <= |body| && body[i..i + 2] == Be(v, 2)
    ensures |w| == 10 + |body| + |tail| && Num(w, 10 + i, 2) == v
  {
    Pow256Values();
    Carried(w, body, tail, i, v, 2);
  }

  lemma {:induction false} Carried32(w: seq<byte>, body: seq<byte>, tail: seq<byte>, i: nat, v: u32)
    requires |w| >= 10 && w[10..] == body + tail && i + 4 <= |body| && body[i..i + 4] == Be(v, 4)
    ensures |w| == 10 + |body| + |tail| && Num(w, 10 + i, 4) == v
  {
    Pow256Values();
    Carried(w, body, tail, i, v, 4);
  }

  lemma {:induction false} Carried64(w: seq<byte>, body: seq<byte>, tail: seq<byte>, i: nat, v: u64)
    requires |w| >= 10 && w[10..] == body + tail && i + 8 <= |body| && body[i..i + 8] == Be(v, 8)
    ensures |w| == 10 + |body| + |tail| && Num(w, 10 + i, 8) == v
  {
    Pow256Values();
    Carried(w, body, tail, i, v, 8);
  }

  /** What the parts of a translation are read as. */
  lemma {:induction false} FieldsBack(n: NatConfig, rest: seq<byte>)
    ensures Announced(Some(From0(n, rest)), n.ipv4Min.Some?, 4) == (Address(n.ipv4Min), Some(From1(n, rest)))
    ensures Announced(Some(From1(n, rest)), n.ipv4Max.Some?, 4) == (Address(n.ipv4Max), Some(From2(n, rest)))
    ensures Announced(Some(From2(n, rest)), n.ipv6Min.Some?, 16) == (n.ipv6Min, Some(From3(n, rest)))
    ensures Announced(Some(From3(n, rest)), n.ipv6Max.Some?, 16) == (n.ipv6Max, Some(From4(n, rest)))
    ensures Announced(Some(From4(n, rest)), n.portMin.Some?, 2) == (PortNumber(n.portMin), Some(From5(n, rest)))
    ensures Announced(Some(From5(n, rest)), n.portMax.Some?, 2) == (PortNumber(n.portMax), Some(rest))
  {
    Pow256Values();
    Pow256Sixteen();
    AnnouncedBack(Address(n.ipv4Min), 4, From1(n, rest));
    AnnouncedBack(Address(n.ipv4Max), 4, From2(n, rest));
    AnnouncedBack(n.ipv6Min, 16, From3(n, rest));
    AnnouncedBack(n.ipv6Max, 16, From4(n, rest));
    AnnouncedBack(PortNumber(n.portMin), 2, From5(n, rest));
    AnnouncedBack(PortNumber(n.portMax), 2, rest);
  }

  lemma {:induction false} Pow256Sixteen()
    ensures Pow256(16) == 0x1_0000_0000_0000_0000 * 0x1_0000_0000_0000_0000
  {
    Pow256Values();
    PowSum(8, 8);
  }

  lemma {:induction false} PowSum(a: nat, b: nat)
    ensures Pow256(a + b) == Pow256(a) * Pow256(b)
  {
    if b > 0 {
      PowSum(a, b - 1);
      assert Pow256(a) * Pow256(b) == 256 * (Pow256(a) * Pow256(b - 1));
    }
  }

  /** A switch reads exactly the translation that was encoded: flags, which fields there are, and each of them. */
  lemma {:induction false} NatReadBack(n: NatConfig)
    ensures ReadNat(Whole(NAT, NatBody(n))) == Some(Meant(n))
  {
    var w, rest := Whole(NAT, NatBody(n)), PadOf(NatBody(n));
    HeadedWhole(NAT, NatBody(n));
    BodyParts(n, rest);
    RangeNumbers(n, w, From0(n, rest));
    BitsOfRange(n);
    FieldsBack(n, rest);
  }

  lemma {:induction false} RangeNumbers(n: NatConfig, w: seq<byte>, fields: seq<byte>)
    requires |w| >= 10 && w[10..] == RangeHead(n) + fields
    ensures |w| >= 16 && Num(w, 12, 2) == n.flags && Num(w, 14, 2) == RangePresent(n) && w[16..] == fields
  {
    var h := RangeHead(n);
    Carried16(w, h, fields, 2, n.flags);
    Carried16(w, h, fields, 4, RangePresent(n));
    assert w[16..] == w[10..][6..];
  }

  /** What a switch makes of a ct: flags, zone and table at their places, and the translation nested in it, if any. */
  datatype Tracking = Tracking(flags: nat, zone: nat, table: nat, nat': Option<Translation>)

  function ReadCt(w: seq<byte>): Option<Tracking> {
    if |w| < 24 || !Headed(w, 35) || Num(w, 12, 4) != 0 then None
    else Some(Tracking(Num(w, 10, 2), Num(w, 16, 2), w[18], if |w| == 24 then None else ReadNat(w[24..])))
  }

  lemma {:induction false} CtNumbers(flags: u16, zone: u16, table: Option<u8>, w: seq<byte>, nested: seq<byte>)
    requires |w| >= 10 && w[10..] == CtBody(flags, zone, table) + nested
    ensures |w| >= 24 && w[24..] == nested && Num(w, 10, 2) == flags && Num(w, 12, 4) == 0 && Num(w, 16, 2) == zone
    ensures w[18] == if table.Some? then table.value else 255
  {
    var b := CtBody(flags, zone, table);
    assert b[0..2] == Be(flags, 2) && b[2..6] == Zeros(4) && b[6..8] == Be(zone, 2);
    Carried16(w, b, nested, 0, flags);
    Carried16(w, b, nested, 6, zone);
    assert w[12..16] == w[10..][2..6] == Zeros(4) && w[18] == w[10..][8] && w[24..] == w[10..][14..];
    ZeroNumber(4);
  }

  lemma {:induction false} ZeroNumber(n: nat)
    ensures FromBe(Zeros(n)) == 0
  {
    if n > 0 {
      ZeroNumber(n - 1);
      assert Zeros(n)[..n - 1] == Zeros(n - 1);
    }
  }

  /** A switch reads an encoded ct, with and without a translation, as what it is: 255 stands for no table. */
  lemma {:induction false} CtReadBack(flags: u16, zone: u16, table: Option<u8>)
    ensures ReadCt(WireOf(NxCt(flags, zone, table)))
         == Some(Tracking(flags, zone, if table.Some? then table.value else 255, None))
  {
    var body := CtBody(flags, zone, table);
    HeadedWhole(CT, body);
    CtNumbers(flags, zone, table, Whole(CT, body), PadOf(body));
  }

  lemma {:induction false} CtNatReadBack(flags: u16, zone: u16, table: Option<u8>, n: NatConfig)
    ensures ReadCt(WireOf(NxCtNat(flags, zone, table, n)))
         == Some(Tracking(flags, zone, if table.Some? then table.value else 255, Some(Meant(n))))
  {
    var nested := Whole(NAT, NatBody(n));
    NatReadBack(n);
    assert WireOf(NxCtNat(flags, zone, table, n)) == Whole(CT, CtBody(flags, zone, table) + nested);
    CtNested(flags, zone, table, nested);
  }

  lemma {:induction false} CtNested(flags: u16, zone: u16, table: Option<u8>, nested: seq<byte>)
    requires |nested| % 8 == 0 && nested != []
    ensures ReadCt(Whole(CT, CtBody(flags, zone, table) + nested))
         == Some(Tracking(flags, zone, if table.Some? then table.value else 255, ReadNat(nested)))
  {
    var body := CtBody(flags, zone, table) + nested;
    HeadedWhole(CT, body);
    assert PadOf(body) == [];
    NilConcat(body);
    CtNumbers(flags, zone, table, Whole(CT, body), nested);
  }

  // ------------------------------------------------------------- other actions

  /** A resubmit: port at 10, table at 12. */
  lemma {:induction false} ResubmitOnWire(port: Option<u16>, table: Option<u8>)
    ensures var w := WireOf(NxResubmit(port, table));
            && |w| == 16 && Headed(w, 14)
            && Num(w, 10, 2) == (if port.Some? then port.value else 0xfff8)
            && w[12] == if table.Some? then table.value else 255
  {
    ResubmitWhole(UnwrapOr(port, IN_PORT), UnwrapOr(table, NO_TABLE));
  }

  lemma {:induction false} ResubmitWhole(port: u16, table: u8)
    ensures var w := Whole(RESUBMIT_TABLE, Be(port, 2) + [table] + Zeros(3));
            |w| == 16 && Headed(w, 14) && Num(w, 10, 2) == port && w[12] == table
  {
    var body := Be(port, 2) + [table] + Zeros(3);
    Pow256Values();
    HeadedWhole(RESUBMIT_TABLE, body);
    ResubmitNumbers(port, table, body, Whole(RESUBMIT_TABLE, body), PadOf(body));
  }

  lemma {:induction false} ResubmitNumbers(port: u16, table: u8, body: seq<byte>, w: seq<byte>, tail: seq<byte>)
    requires |w| >= 10 && w[10..] == body + tail && body == Be(port, 2) + [table] + Zeros(3)
    ensures |w| >= 16 && Num(w, 10, 2) == port && w[12] == table
  {
    assert body[0..2] == Be(port, 2);
    Carried16(w, body, tail, 0, port);
    assert w[12] == w[10..][2];
  }

  /** A move: bit count at 10, the two offsets, then source and destination. */
  lemma {:induction false} MoveOnWire(src: u32, dst: u32, nBits: u16, srcOfs: u16, dstOfs: u16)
    ensures var w := WireOf(NxMove(src, dst, nBits, srcOfs, dstOfs));
            && |w| == 24 && Headed(w, 6) && Num(w, 10, 2) == nBits && Num(w, 12, 2) == srcOfs
            && Num(w, 14, 2) == dstOfs && Num(w, 16, 4) == src && Num(w, 20, 4) == dst
  {
    var body := Be(nBits, 2) + Be(srcOfs, 2) + Be(dstOfs, 2) + Be(src, 4) + Be(dst, 4);
    HeadedWhole(MOVE, body);
    MoveParts(Be(nBits, 2), Be(srcOfs, 2), Be(dstOfs, 2), Be(src, 4), Be(dst, 4));
    MoveNumbers(src, dst, nBits, srcOfs, dstOfs, body, Whole(MOVE, body), PadOf(body));
  }

  lemma {:induction false} MoveNumbers(
      src: u32, dst: u32, nBits: u16, srcOfs: u16, dstOfs: u16, body: seq<byte>, w: seq<byte>, tail: seq<byte>)
    requires |w| >= 10 && w[10..] == body + tail && |body| == 14
    requires body[0..2] == Be(nBits, 2) && body[2..4] == Be(srcOfs, 2) && body[4..6] == Be(dstOfs, 2)
    requires body[6..10] == Be(src, 4) && body[10..14] == Be(dst, 4)
    ensures |w| >= 24 && Num(w, 10, 2) == nBits && Num(w, 12, 2) == srcOfs
    ensures Num(w, 14, 2) == dstOfs && Num(w, 16, 4) == src && Num(w, 20, 4) == dst
  {
    Carried16(w, body, tail, 0, nBits);
    Carried16(w, body, tail, 2, srcOfs);
    Carried16(w, body, tail, 4, dstOfs);
    Carried32(w, body, tail, 6, src);
    Carried32(w, body, tail, 10, dst);
  }

  lemma {:induction false} MoveParts(a: seq<byte>, b: seq<byte>, c: seq<byte>, d: seq<byte>, e: seq<byte>)
    requires |a| == |b| == |c| == 2 && |d| == |e| == 4
    ensures var x := a + b + c + d + e;
            x[0..2] == a && x[2..4] == b && x[4..6] == c && x[6..10] == d && x[10..14] == e
  {
  }

  /** A register load: one number for offset and bit count at 10, destination at 12, value at 16. */
  lemma {:induction false} RegLoadOnWire(dst: u32, dstOfs: u16, nBits: u16, value: u64)
    ensures var w := WireOf(NxRegLoad(dst, dstOfs, nBits, value));
            |w| == 24 && Headed(w, 7) && Num(w, 12, 4) == dst && Num(w, 16, 8) == value
    ensures var w := WireOf(NxRegLoad(dst, dstOfs, nBits, value));
            |w| == 24 && (SaysBits(Num(w, 10, 2), dstOfs, nBits) <==> dstOfs < 1024 && 1 <= nBits <= 64)
  {
    var on := OfsNBits(dstOfs, nBits);
    assert WireOf(NxRegLoad(dst, dstOfs, nBits, value)) == Whole(REG_LOAD, Be(on, 2) + Be(dst, 4) + Be(value, 8));
    LoadWhole(dst, on, value);
    OfsNBitsSplitIff(dstOfs, nBits);
  }

  lemma {:induction false} LoadWhole(dst: u32, on: u16, value: u64)
    ensures var w := Whole(REG_LOAD, Be(on, 2) + Be(dst, 4) + Be(value, 8));
            |w| == 24 && Headed(w, 7) && Num(w, 10, 2) == on && Num(w, 12, 4) == dst && Num(w, 16, 8) == value
  {
    var body := Be(on, 2) + Be(dst, 4) + Be(value, 8);
    HeadedWhole(REG_LOAD, body);
    LoadNumbers(dst, on, value, Whole(REG_LOAD, body), PadOf(body));
  }

  lemma {:induction false} LoadNumbers(dst: u32, on: u16, value: u64, w: seq<byte>, tail: seq<byte>)
    requires |w| >= 10 && w[10..] == Be(on, 2) + Be(dst, 4) + Be(value, 8) + tail
    ensures |w| >= 24 && Num(w, 10, 2) == on && Num(w, 12, 4) == dst && Num(w, 16, 8) == value
  {
    var body := Be(on, 2) + Be(dst, 4) + Be(value, 8);
    LoadParts(Be(on, 2), Be(dst, 4), Be(value, 8));
    Carried16(w, body, tail, 0, on);
    Carried32(w, body, tail, 2, dst);
    Carried64(w, body, tail, 6, value);
  }

  lemma {:induction false} LoadParts(a: seq<byte>, b: seq<byte>, c: seq<byte>)
    ensures var x := a + b + c;
            x[0..|a|] == a && x[|a|..|a| + |b|] == b && x[|a| + |b|..|a| + |b| + |c|] == c
  {
  }

  /** The upper ten bits are the offset, the lower six the bit count less one. */
  predicate SaysBits(n: nat, ofs: u16, nBits: u16) { n / 64 == ofs && n % 64 + 1 == nBits }

  /** Offset and bit count can be told apart exactly when they fit ten and six bits. */
  lemma {:induction false} OfsNBitsSplitIff(ofs: u16, nBits: u16)
    ensures SaysBits(OfsNBits(ofs, nBits), ofs, nBits) <==> ofs < 1024 && 1 <= nBits <= 64
  {
    if ofs < 1024 && 1 <= nBits <= 64 {
      OfsNBitsSum(ofs, nBits);
      Split(ofs, nBits - 1);
    }
  }

  lemma {:induction false} OfsNBitsSum(ofs: u16, nBits: u16)
    requires ofs < 1024 && 1 <= nBits <= 64
    ensures OfsNBits(ofs, nBits) == ofs * 64 + (nBits - 1)
  {
    OrSixtyFour(ofs, nBits - 1);
    assert ofs * 64 % 0x1_0000 == ofs * 64 && LessOne(nBits) == nBits - 1;
  }

  lemma {:induction false} OrSixtyFour(a: nat, b: nat)
    requires b < 64
    ensures Or(a * 64, b) == a * 64 + b
  {
    SixtyFour();
    OrDisjoint(a, b, 6);
  }

  lemma {:induction false} SixtyFour()
    ensures Pow2(6) == 64
  {
  }

  lemma {:induction false} Split(a: nat, b: nat)
    requires b < 64
    ensures (a * 64 + b) / 64 == a && (a * 64 + b) % 64 == b
  {
  }

  /** A tunnel id: a load of Nicira class 1, field 16, eight bytes. */
  lemma {:induction false} TunnelOnWire(id: u64)
    ensures var w := WireOf(SetTunnelId(id));
            |w| == 24 && Headed(w, 33) && Num(w, 10, 4) == 0x0001_2008 && Num(w, 14, 8) == id
  {
    var body := Be(TunIdHeader(), 4) + Be(id, 8) + Zeros(2);
    var w := Whole(REG_LOAD2, body);
    HeadedWhole(REG_LOAD2, body);
    LoadParts(Be(TunIdHeader(), 4), Be(id, 8), Zeros(2));
    Carried32(w, body, PadOf(body), 0, TunIdHeader());
    Carried64(w, body, PadOf(body), 4, id);
    assert TunIdHeader() == 0x0001_2008;
  }

  // -------------------------------------------------------------------- learn

  /** A learn action: its fixed fields at their places, and its specs from 32 on. */
  lemma {:induction false} LearnOnWire(l: Learn.NxLearn)
    ensures var w := WireOf(Action.NxLearn(l));
            && |w| >= 32 + |SpecsBytes(l.specs)| && Headed(w, 16)
            && Num(w, 10, 2) == l.idleTimeout && Num(w, 12, 2) == l.hardTimeout && Num(w, 14, 2) == l.priority
            && Num(w, 16, 8) == l.cookie && Num(w, 24, 2) == l.flags && w[26] == l.tableId
            && Num(w, 28, 2) == l.finIdleTimeout && Num(w, 30, 2) == l.finHardTimeout
            && w[32..32 + |SpecsBytes(l.specs)|] == SpecsBytes(l.specs)
  {
    var f, specs := FixedBytes(l), SpecsBytes(l.specs);
    var w := Whole(LEARN, f + specs);
    HeadedWhole(LEARN, f + specs);
    Associative(f, specs, PadOf(f + specs));
    FixedParts(l);
    FixedNumbers(l, w, f, specs + PadOf(f + specs));
    assert w[26] == w[10..][16] && w[32..32 + |specs|] == w[10..][22..22 + |specs|];
  }

  lemma {:induction false} FixedParts(l: Learn.NxLearn)
    ensures var f := FixedBytes(l);
            && f[0..2] == Be(l.idleTimeout, 2) && f[2..4] == Be(l.hardTimeout, 2) && f[4..6] == Be(l.priority, 2)
            && f[6..14] == Be(l.cookie, 8) && f[14..16] == Be(l.flags, 2) && f[16] == l.tableId
            && f[18..20] == Be(l.finIdleTimeout, 2) && f[20..22] == Be(l.finHardTimeout, 2)
  {
  }

  lemma {:induction false} FixedNumbers(l: Learn.NxLearn, w: seq<byte>, f: seq<byte>, tail: seq<byte>)
    requires |w| >= 10 && w[10..] == f + tail && |f| == 22
    requires f[0..2] == Be(l.idleTimeout, 2) && f[2..4] == Be(l.hardTimeout, 2) && f[4..6] == Be(l.priority, 2)
    requires f[6..14] == Be(l.cookie, 8) && f[14..16] == Be(l.flags, 2)
    requires f[18..20] == Be(l.finIdleTimeout, 2) && f[20..22] == Be(l.finHardTimeout, 2)
    ensures |w| >= 32 && Num(w, 10, 2) == l.idleTimeout && Num(w, 12, 2) == l.hardTimeout
    ensures Num(w, 14, 2) == l.priority && Num(w, 16, 8) == l.cookie && Num(w, 24, 2) == l.flags
    ensures Num(w, 28, 2) == l.finIdleTimeout && Num(w, 30, 2) == l.finHardTimeout
  {
    Carried16(w, f, tail, 0, l.idleTimeout);
    Carried16(w, f, tail, 2, l.hardTimeout);
    Carried16(w, f, tail, 4, l.priority);
    Carried64(w, f, tail, 6, l.cookie);
    Carried16(w, f, tail, 14, l.flags);
    Carried16(w, f, tail, 18, l.finIdleTimeout);
    Carried16(w, f, tail, 20, l.finHardTimeout);
  }

  /**
   The number a spec starts with, for bit counts that fit: the count less one; bit 13 for an immediate value; bit 11
   for a load and bit 12 for an output.
   */
  lemma {:induction false} SpecHeader(s: LearnSpec)
    requires Encodable(s)
    ensures FromBe(SpecBytes(s)[..2]) == s.nBits - 1 +
              match s
              case MatchField(_, _, _) => 0
              case MatchImmediate(_, _, _) => 0x2000
              case LoadField(_, _, _) => 0x0800
              case LoadImmediate(_, _, _) => 0x2800
              case OutputField(_, _) => 0x1000
  {
    assert SpecBytes(s)[..2] == Be(Header(s), 2);
    TwoBytes(Header(s));
    Pow2Values();
    HeaderSum(s, Source(s) * 4 + Destination(s));
  }

  lemma {:induction false} HeaderSum(s: LearnSpec, kind: nat)
    requires Encodable(s) && kind == Source(s) * 4 + Destination(s)
    ensures Header(s) == kind * 0x800 + s.nBits - 1
  {
    Pow2Values();
    OrDisjoint(kind, s.nBits - 1, 11);
    assert TypeBits(s) == kind * 0x800 && LessOne(s.nBits) == s.nBits - 1;
  }

  /** What follows: the source field, or the value in whole words aligned to the right, and then the destination. */
  lemma {:induction false} SpecBody(s: LearnSpec)
    ensures var b := SpecBytes(s)[2..];
            match s
            case MatchField(src, dst, _) => |b| == 12 && Num(b, 0, 4) == src && Num(b, 6, 4) == dst
            case LoadField(src, dst, _) => |b| == 12 && Num(b, 0, 4) == src && Num(b, 6, 4) == dst
            case OutputField(src, _) => |b| == 6 && Num(b, 0, 4) == src
            case MatchImmediate(dst, value, n) => ImmediateAt(b, dst, value, n)
            case LoadImmediate(dst, value, n) => ImmediateAt(b, dst, value, n)
  {
    assert SpecBytes(s)[2..] == Body(s);
    match s
    case MatchField(src, dst, _) => FieldFirst(src, Subfield(dst)); FieldNext(Subfield(src), dst);
    case LoadField(src, dst, _) => FieldFirst(src, Subfield(dst)); FieldNext(Subfield(src), dst);
    case OutputField(src, _) => FieldFirst(src, []); NilConcat(Subfield(src));
    case MatchImmediate(dst, value, n) => FieldNext(Padded(value, ValueLen(n)), dst);
    case LoadImmediate(dst, value, n) => FieldNext(Padded(value, ValueLen(n)), dst);
  }

  /** A value that fits stands at the end of its words, after zeros. */
  predicate ImmediateAt(b: seq<byte>, dst: u32, value: seq<byte>, nBits: u16) {
    var n := (nBits + 15) / 16 * 2;
    && |b| == n + 6 && Num(b, n, 4) == dst
    && (|value| <= n ==> b[n - |value|..n] == value && forall i :: 0 <= i < n - |value| ==> b[i] == 0)
  }

  lemma {:induction false} FieldFirst(field: u32, rest: seq<byte>)
    ensures Num(Subfield(field) + rest, 0, 4) == field
  {
    assert (Subfield(field) + rest)[0..4] == Be(field, 4);
    Pow256Values();
    FromBeBe(field, 4);
  }

  lemma {:induction false} FieldNext(front: seq<byte>, field: u32)
    ensures Num(front + Subfield(field), |front|, 4) == field
  {
    assert (front + Subfield(field))[|front|..|front| + 4] == Be(field, 4);
    Pow256Values();
    FromBeBe(field, 4);
  }

  // ------------------------------------------------------------- what is accepted

  /** Bytes the decoder takes for an action, of any subtype, are a Nicira action within the input, of its own length. */
  lemma {:induction false} AcceptedIsHeaded(data: seq<byte>)
    requires Decoded(data).Ok?
    ensures var n := Decoded(data).value.1;
            && 10 <= n <= |data| && Num(data, 0, 2) == 0xffff && Num(data, 2, 2) == n && Num(data, 4, 4) == 0x2320
  {
    assert data[0..2] == data[..2] && data[2..][..2] == data[2..4];
  }

  /** What else the input may be when it is refused, in the order of the checks. */
  lemma {:induction false} RefusedBecause(data: seq<byte>)
    requires Decoded(data).Err?
    ensures match Decoded(data).error
            case TooShort => |data| < 4 || |data| < Num(data, 2, 2) || Num(data, 2, 2) < 10
            case OtherType => |data| >= 4 && Num(data, 0, 2) != 0xffff
            case UnknownVendor => |data| >= 10 && Num(data, 0, 2) == 0xffff && Num(data, 4, 4) != 0x2320
            case Malformed(_) => |data| >= 10 && Num(data, 0, 2) == 0xffff && Num(data, 4, 4) == 0x2320
  {
    if |data| >= 4 {
      assert data[0..2] == data[..2] && data[2..][..2] == data[2..4];
    }
  }
}
