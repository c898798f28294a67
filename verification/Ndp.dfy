/** Neighbor discovery: frame headers, parsing a solicitation, building the advertisement that answers it. */
module Ndp {
  import opened Common
  import opened Bytes
  import opened Checksum
  import opened Seqs

  const ETH_HEADER_LEN := 14
  const IPV6_HEADER_LEN := 40
  const ETHERTYPE_IPV6: u16 := 0x86dd
  const SOLICITATION: byte := 135
  const ADVERTISEMENT: byte := 136
  const OPT_SOURCE_LL_ADDR: byte := 1
  const OPT_TARGET_LL_ADDR: byte := 2
  const UNSPECIFIED: Address := Zeros(16)
  const ALL_NODES: Address := [0xff, 0x02] + Zeros(13) + [1]

  // ----------------------------------------------------------------- headers

  datatype EthernetFrame = EthernetFrame(dstMac: Mac, srcMac: Mac, ethertype: u16, payloadOffset: nat)

  function ParseEthernet(data: seq<byte>): Option<EthernetFrame> {
    if |data| < ETH_HEADER_LEN then None
    else Some(EthernetFrame(data[0..6], data[6..12], Word(data[12], data[13]), ETH_HEADER_LEN))
  }

  function EthernetBytes(e: EthernetFrame): (s: seq<byte>)
    ensures |s| == ETH_HEADER_LEN
  {
    e.dstMac + e.srcMac + Be(e.ethertype, 2)
  }

  method EncodeEthernet(e: EthernetFrame, buf: seq<byte>) returns (out: seq<byte>)
    ensures out == buf + EthernetBytes(e)
  {
    out := buf + e.dstMac;
    out := out + e.srcMac;
    out := out + Be(e.ethertype, 2);
  }

  datatype Ipv6Header = Ipv6Header(
    trafficClass: u8, flowLabel: u32, payloadLen: u16, nextHeader: u8, hopLimit: u8, srcAddr: Address, dstAddr: Address)

  /** The traffic class straddles the first two bytes; the flow label fills what is left of the first four. */
  function TrafficClass(a: byte, b: byte): u8 { a % 16 * 16 + b / 16 }
  function FlowLabel(b: byte, c: byte, d: byte): u32 { b % 16 * 0x1_0000 + Word(c, d) }

  function ParseIpv6(data: seq<byte>): Option<Ipv6Header> {
    if |data| < IPV6_HEADER_LEN || data[0] / 16 != 6 then None
    else
      Some(Ipv6Header(TrafficClass(data[0], data[1]), FlowLabel(data[1], data[2], data[3]),
        Word(data[4], data[5]), data[6], data[7], data[8..24], data[24..40]))
  }

  /** The first four bytes: version, traffic class and the low twenty bits of the flow label. */
  function FirstLine(trafficClass: u8, flowLabel: u32): (s: seq<byte>)
    ensures |s| == 4
  {
    [0x60 + trafficClass / 16, trafficClass % 16 * 16 + flowLabel / 0x1_0000 % 16, flowLabel / 256 % 256,
      flowLabel % 256]
  }

  function Ipv6Bytes(h: Ipv6Header): (s: seq<byte>)
    ensures |s| == IPV6_HEADER_LEN
  {
    FirstLine(h.trafficClass, h.flowLabel) + (Be(h.payloadLen, 2) + [h.nextHeader, h.hopLimit]) + h.srcAddr + h.dstAddr
  }

  method EncodeIpv6(h: Ipv6Header, buf: seq<byte>) returns (out: seq<byte>)
    ensures out == buf + Ipv6Bytes(h)
  {
    out := buf + [0x60 + h.trafficClass / 16];
    out := out + [h.trafficClass % 16 * 16 + h.flowLabel / 0x1_0000 % 16];
    out := out + [h.flowLabel / 256 % 256];
    out := out + [h.flowLabel % 256];
    assert out == buf + FirstLine(h.trafficClass, h.flowLabel);
    out := out + Be(h.payloadLen, 2);
    out := out + [h.nextHeader];
    out := out + [h.hopLimit];
    out := out + h.srcAddr;
    out := out + h.dstAddr;
  }

  lemma {:induction false} WordBytes(n: u16)
    ensures Be(n, 2) == [n / 256, n % 256] && Word(n / 256, n % 256) == n
  {
  }

  lemma {:induction false} BytesOfWord(hi: byte, lo: byte)
    ensures Be(Word(hi, lo), 2) == [hi, lo]
  {
  }

  /** An encoded frame header parses back, whatever follows it. */
  lemma {:induction false} EthernetRoundTrip(e: EthernetFrame, rest: seq<byte>)
    ensures ParseEthernet(EthernetBytes(e) + rest) == Some(e.(payloadOffset := ETH_HEADER_LEN))
  {
    var s := EthernetBytes(e) + rest;
    WordBytes(e.ethertype);
    assert s[0..6] == e.dstMac && s[6..12] == e.srcMac;
  }

  /** A parsed frame header encodes to the bytes it came from. */
  lemma {:induction false} EthernetExact(data: seq<byte>)
    requires ParseEthernet(data).Some?
    ensures EthernetBytes(ParseEthernet(data).value) == data[..ETH_HEADER_LEN]
  {
    BytesOfWord(data[12], data[13]);
    assert data[..14] == data[0..6] + data[6..12] + [data[12], data[13]];
  }

  lemma {:induction false} FirstLineRoundTrip(t: u8, f: u32)
    ensures var s := FirstLine(t, f);
            s[0] / 16 == 6 && TrafficClass(s[0], s[1]) == t && FlowLabel(s[1], s[2], s[3]) == f % 0x10_0000
  {
    VersionNibble(t);
    Nibbles(t % 16, f / 0x1_0000 % 16);
    LowBytes(f);
  }

  lemma {:induction false} VersionNibble(t: u8)
    ensures (0x60 + t / 16) / 16 == 6 && (0x60 + t / 16) % 16 == t / 16
  {
  }

  lemma {:induction false} LowBytes(f: u32)
    ensures f / 0x1_0000 % 16 * 0x1_0000 + Word(f / 256 % 256, f % 256) == f % 0x10_0000
  {
    var high, low := f / 0x1_0000, f % 0x1_0000;
    WordDigits(high, low);
    TwentyBits(high, low);
  }

  lemma {:induction false} WordDigits(high: nat, low: u16)
    ensures var f := high * 0x1_0000 + low;
            f / 256 % 256 == low / 256 && f % 256 == low % 256
  {
  }

  lemma {:induction false} TwentyBits(high: nat, low: u16)
    ensures high % 16 * 0x1_0000 + low == (high * 0x1_0000 + low) % 0x10_0000
  {
  }

  /** An encoded IPv6 header parses back with the flow label reduced to the twenty bits it has. */
  lemma {:induction false} Ipv6RoundTrip(h: Ipv6Header, rest: seq<byte>)
    ensures ParseIpv6(Ipv6Bytes(h) + rest) == Some(h.(flowLabel := h.flowLabel % 0x10_0000))
  {
    var line, middle := FirstLine(h.trafficClass, h.flowLabel), Be(h.payloadLen, 2) + [h.nextHeader, h.hopLimit];
    FirstLineRoundTrip(h.trafficClass, h.flowLabel);
    WordBytes(h.payloadLen);
    HeaderParts(line, middle, h.srcAddr, h.dstAddr, rest);
  }

  /** The bytes of a header by their positions. */
  lemma {:induction false} HeaderParts(
      line: seq<byte>, middle: seq<byte>, src: seq<byte>, dst: seq<byte>, rest: seq<byte>)
    requires |line| == |middle| == 4 && |src| == |dst| == 16
    ensures var s := line + middle + src + dst + rest;
            && |s| >= 40 && s[0] == line[0] && s[1] == line[1] && s[2] == line[2] && s[3] == line[3]
            && s[4] == middle[0] && s[5] == middle[1] && s[6] == middle[2] && s[7] == middle[3]
            && s[0..4] == line && s[4..8] == middle && s[8..24] == src && s[24..40] == dst
  {
  }

  /** A parsed IPv6 header encodes to the bytes it came from: parsing loses nothing. */
  lemma {:induction false} Ipv6Exact(data: seq<byte>)
    requires ParseIpv6(data).Some?
    ensures Ipv6Bytes(ParseIpv6(data).value) == data[..IPV6_HEADER_LEN]
  {
    var h, a, b := ParseIpv6(data).value, data[0], data[1];
    HalvesOf(a);
    HalvesOf(b);
    FirstLineOf(a % 16, b / 16, b % 16, data[2], data[3], h.trafficClass, h.flowLabel);
    RestExact(data);
    assert data[..4] == [a, b, data[2], data[3]];
    assert data[..40] == data[..4] + data[4..8] + data[8..24] + data[24..40];
  }

  lemma {:induction false} RestExact(data: seq<byte>)
    requires |data| >= 8
    ensures Be(Word(data[4], data[5]), 2) + [data[6], data[7]] == data[4..8]
  {
    BytesOfWord(data[4], data[5]);
    assert data[4..8] == [data[4], data[5]] + [data[6], data[7]];
  }

  lemma {:induction false} HalvesOf(b: byte)
    ensures b == b / 16 * 16 + b % 16 && b / 16 < 16
  {
  }

  /** The first four bytes from the nibbles they are made of. */
  lemma {:induction false} FirstLineOf(p: nat, q: nat, r: nat, c: byte, d: byte, t: u8, f: u32)
    requires p < 16 && q < 16 && r < 16 && t == p * 16 + q && f == r * 0x1_0000 + Word(c, d)
    ensures FirstLine(t, f) == [0x60 + p, q * 16 + r, c, d]
  {
    Nibbles(p, q);
    LowDigits(r, c, d);
  }

  lemma {:induction false} Nibbles(hi: nat, lo: nat)
    requires hi < 16 && lo < 16
    ensures (hi * 16 + lo) / 16 == hi && (hi * 16 + lo) % 16 == lo
  {
  }

  lemma {:induction false} LowDigits(q: nat, c: byte, d: byte)
    requires q < 16
    ensures var f := q * 0x1_0000 + Word(c, d);
            f / 0x1_0000 % 16 == q && f / 256 % 256 == c && f % 256 == d
  {
    var high: nat := c;
    var f := q * 0x1_0000 + high * 256 + d;
    assert f == (q * 256 + high) * 256 + d;
    assert f / 256 == q * 256 + high;
    assert f / 0x1_0000 == q;
  }

  // ------------------------------------------------------------ solicitation

  datatype NeighborSolicitation = NeighborSolicitation(targetAddr: Address, sourceLlAddr: Option<Mac>)

  /** An option of positive length: its type and the bytes after the length, a multiple of eight with them. */
  datatype NdOption = NdOption(kind: byte, body: seq<byte>)
  {
    ghost predicate Valid() { 6 <= |body| < 2040 && |body| % 8 == 6 }
    function Units(): nat { (|body| + 2) / 8 }
  }

  ghost predicate AllValid(options: seq<NdOption>) { forall o :: o in options ==> o.Valid() }

  ghost function OptionBytes(o: NdOption): seq<byte>
    requires o.Valid()
  {
    [o.kind, o.Units()] + o.body
  }

  ghost function OptionsBytes(options: seq<NdOption>): seq<byte>
    requires AllValid(options)
  {
    if options == [] then [] else OptionBytes(options[0]) + OptionsBytes(options[1..])
  }

  /** The address in the last source link-layer address option. */
  ghost function LastSource(options: seq<NdOption>): Option<Mac>
    requires AllValid(options)
  {
    if options == [] then None
    else
      var n := |options| - 1;
      assert options[n] in options;
      if options[n].kind == OPT_SOURCE_LL_ADDR then Some(options[n].body[..6]) else LastSource(options[..n])
  }

  /** Where the options end: too few bytes for an option, an option of length zero, or a truncated one. */
  predicate OptionsEnd(s: seq<byte>) { |s| < 2 || s[1] == 0 || |s| < 8 * (s[1] as nat) }

  lemma {:induction false} OptionsBytesSnoc(options: seq<NdOption>, o: NdOption)
    requires AllValid(options) && o.Valid()
    ensures AllValid(options + [o]) && OptionsBytes(options + [o]) == OptionsBytes(options) + OptionBytes(o)
    ensures LastSource(options + [o]) == if o.kind == OPT_SOURCE_LL_ADDR then Some(o.body[..6]) else LastSource(options)
    decreases |options|
  {
    var all := options + [o];
    assert all[..|all| - 1] == options;
    if options == [] {
      assert all[1..] == [] && OptionsBytes(all) == OptionBytes(o) + [];
    } else {
      assert all[1..] == options[1..] + [o];
      OptionsBytesSnoc(options[1..], o);
    }
  }

  /**
   What the parser finds: every byte string after the target splits into options of positive length and a rest where
   the options end, and the source address is that of the last source link-layer address option.
   */
  ghost predicate Parses(data: seq<byte>, options: seq<NdOption>, rest: seq<byte>, r: Option<NeighborSolicitation>) {
    if |data| < 24 || data[0] != SOLICITATION then r == None
    else
      && AllValid(options) && OptionsEnd(rest) && data[24..] == OptionsBytes(options) + rest
      && r == Some(NeighborSolicitation(data[8..24], LastSource(options)))
  }

  lemma {:induction false} OptionRead(data: seq<byte>, offset: nat, units: nat, options: seq<NdOption>)
      returns (o: NdOption)
    requires 24 <= offset && 0 < units < 256 && offset + units * 8 <= |data| && data[offset + 1] == units
    requires AllValid(options) && data[24..offset] == OptionsBytes(options)
    ensures AllValid(options + [o]) && data[24..offset + units * 8] == OptionsBytes(options + [o])
    ensures LastSource(options + [o]) ==
            if data[offset] == OPT_SOURCE_LL_ADDR then Some(data[offset + 2..offset + 8]) else LastSource(options)
  {
    var end := offset + units * 8;
    o := NdOption(data[offset], data[offset + 2..end]);
    assert OptionBytes(o) == data[offset..end] && o.body[..6] == data[offset + 2..offset + 8];
    OptionsBytesSnoc(options, o);
    assert data[24..end] == data[24..offset] + data[offset..end];
  }

  method ParseSolicitation(data: seq<byte>) returns (r: Option<NeighborSolicitation>)
    ensures exists options, rest :: Parses(data, options, rest, r)
  {
    if |data| < 24 || data[0] != SOLICITATION {
      r := None;
      assert Parses(data, [], [], r);
      return;
    }
    var target := data[8..24];
    var source: Option<Mac> := None;
    var offset := 24;
    ghost var options: seq<NdOption> := [];
    while offset + 2 <= |data|
      invariant 24 <= offset <= |data|
      invariant AllValid(options) && data[24..offset] == OptionsBytes(options) && source == LastSource(options)
      decreases |data| - offset
    {
      var kind := data[offset];
      var units: nat := data[offset + 1];
      var len := units * 8;
      if len == 0 || offset + len > |data| {
        break;
      }
      if kind == OPT_SOURCE_LL_ADDR && len >= 8 {
        source := Some(data[offset + 2..offset + 8]);
      }
      ghost var o := OptionRead(data, offset, units, options);
      options := options + [o];
      offset := offset + len;
    }
    r := Some(NeighborSolicitation(target, source));
    assert data[24..] == data[24..offset] + data[offset..];
    assert Parses(data, options, data[offset..], r);
  }

  /** The split is unique, so for options followed by anything that ends them the result is theirs. */
  lemma {:induction false} OptionsUnique(a: seq<NdOption>, x: seq<byte>, b: seq<NdOption>, y: seq<byte>)
    requires AllValid(a) && AllValid(b) && OptionsEnd(x) && OptionsEnd(y)
    requires OptionsBytes(a) + x == OptionsBytes(b) + y
    ensures a == b && x == y
    decreases |a| + |b|
  {
    if a == [] {
      assert OptionsBytes(a) + x == x;
    }
    if b == [] {
      assert OptionsBytes(b) + y == y;
    }
    if a != [] && b != [] {
      FirstOption(a, x);
      FirstOption(b, y);
      assert a[0] == b[0];
      OptionsUnique(a[1..], x, b[1..], y);
      assert a == [a[0]] + a[1..] && b == [b[0]] + b[1..];
    } else if a != [] {
      FirstOption(a, x);
      assert false;
    } else if b != [] {
      FirstOption(b, y);
      assert false;
    }
  }

  /** The bytes of a non-empty list of options do not end the options, and show the first one. */
  lemma {:induction false} FirstOption(a: seq<NdOption>, x: seq<byte>)
    requires AllValid(a) && a != []
    ensures var s := OptionsBytes(a) + x;
            var n := |a[0].body| + 2;
            && n <= |s| && s[1] as nat * 8 == n && !OptionsEnd(s)
            && s[0] == a[0].kind && s[2..n] == a[0].body && s[n..] == OptionsBytes(a[1..]) + x
  {
    assert a[0] in a && a[0].Valid();
    Associative(OptionBytes(a[0]), OptionsBytes(a[1..]), x);
    OptionFront(a[0].kind, (|a[0].body| + 2) / 8, a[0].body, OptionsBytes(a[1..]) + x);
  }

  lemma {:induction false} OptionFront(kind: byte, units: byte, body: seq<byte>, y: seq<byte>)
    ensures var s := [kind, units] + body + y;
            s[0] == kind && s[1] == units && s[2..|body| + 2] == body && s[|body| + 2..] == y
  {
  }

  /**
   For any list of options of positive length, and anything after it that is not one, a solicitation parses to its
   target and the last source link-layer address.
   */
  lemma {:induction false} SolicitationParses(
      data: seq<byte>, options: seq<NdOption>, rest: seq<byte>, r: Option<NeighborSolicitation>)
    requires |data| >= 24 && data[0] == SOLICITATION
    requires AllValid(options) && OptionsEnd(rest) && data[24..] == OptionsBytes(options) + rest
    requires exists o, t :: Parses(data, o, t, r)
    ensures r == Some(NeighborSolicitation(data[8..24], LastSource(options)))
  {
    var o, t :| Parses(data, o, t, r);
    OptionsUnique(options, rest, o, t);
  }

  method ParseNeighborSolicitation(data: seq<byte>)
      returns (r: Option<(EthernetFrame, Ipv6Header, NeighborSolicitation)>)
    ensures r.Some? ==>
              && ParseEthernet(data) == Some(r.value.0) && r.value.0.ethertype == ETHERTYPE_IPV6
              && ParseIpv6(data[14..]) == Some(r.value.1) && r.value.1.nextHeader == IPPROTO_ICMPV6
              && exists options, rest :: Parses(data[54..], options, rest, Some(r.value.2))
    ensures r.None? <==> !(|data| >= 78 && data[12] == 0x86 && data[13] == 0xdd && data[14] / 16 == 6
                           && data[20] == 58 && data[54] == 135)
  {
    r := None;
    var eth := ParseEthernet(data);
    if eth.None? || eth.value.ethertype != ETHERTYPE_IPV6 {
      return;
    }
    var ipv6 := ParseIpv6(data[14..]);
    if ipv6.None? || ipv6.value.nextHeader != IPPROTO_ICMPV6 {
      return;
    }
    var ns := ParseSolicitation(data[14 + IPV6_HEADER_LEN..]);
    if ns.Some? {
      r := Some((eth.value, ipv6.value, ns.value));
    }
  }

  // ----------------------------------------------------------- advertisement

  datatype NeighborAdvertisement = NeighborAdvertisement(
    targetAddr: Address, targetLlAddr: Mac, isRouter: bool, isSolicited: bool, isOverride: bool)

  /** Flag bits in the first byte: router, solicited, override. */
  function FlagBits(r: bool, s: bool, o: bool): byte {
    (if r then 0x80 else 0) + (if s then 0x40 else 0) + (if o then 0x20 else 0)
  }

  /** The advertisement of RFC 4861 section 4.4 with one target link-layer address option (section 4.6.1). */
  function AdvertisementBytes(na: NeighborAdvertisement): (s: seq<byte>)
    ensures |s| == 32
  {
    [ADVERTISEMENT, 0, 0, 0, FlagBits(na.isRouter, na.isSolicited, na.isOverride), 0, 0, 0]
    + na.targetAddr + [OPT_TARGET_LL_ADDR, 1] + na.targetLlAddr
  }

  method EncodeIcmpv6(na: NeighborAdvertisement) returns (buf: seq<byte>)
    ensures buf == AdvertisementBytes(na)
  {
    buf := [ADVERTISEMENT];
    buf := buf + [0];
    buf := buf + [0];
    buf := buf + [0];
    var flags: nat := 0;
    if na.isRouter {
      flags := flags + 0x8000_0000;
    }
    if na.isSolicited {
      flags := flags + 0x4000_0000;
    }
    if na.isOverride {
      flags := flags + 0x2000_0000;
    }
    TopByte(FlagBits(na.isRouter, na.isSolicited, na.isOverride));
    buf := buf + Be(flags, 4);
    buf := buf + na.targetAddr;
    buf := buf + [OPT_TARGET_LL_ADDR];
    buf := buf + [1];
    buf := buf + na.targetLlAddr;
  }

  lemma {:induction false} TopByte(b: byte)
    ensures Be(b as nat * 0x100_0000, 4) == [b, 0, 0, 0]
  {
    var n := b as nat;
    assert Be(n, 1) == Be(0, 0) + [b];
    assert Be(n * 256, 2) == Be(n, 1) + [0];
    assert Be(n * 0x1_0000, 3) == Be(n * 256, 2) + [0];
    assert Be(n * 0x100_0000, 4) == Be(n * 0x1_0000, 3) + [0];
  }

  /**
   What a receiver can read from the ICMPv6 message (RFC 4861 section 4.4): never a router, solicited or not,
   always overriding.
   */
  ghost predicate Advertises(m: seq<byte>, dst: Address, ourMac: Mac, our: Address, solicited: bool) {
    && |m| == 32 && m[0] == 136 && m[1] == 0
    && m[4..8] == [if solicited then 0x60 else 0x20, 0, 0, 0]
    && m[8..24] == our && m[24..26] == [2, 1] && m[26..] == ourMac
    && ChecksumOf(our, dst, m) == 0
  }

  /** The headers of a reply, byte for byte: IPv6, 32 bytes of ICMPv6, hop limit 255. */
  ghost predicate Headers(packet: seq<byte>, dstMac: Mac, dst: Address, ourMac: Mac, our: Address) {
    && |packet| == 86
    && packet[0..6] == dstMac && packet[6..12] == ourMac && packet[12..14] == [0x86, 0xdd]
    && packet[14..18] == [0x60, 0, 0, 0]
    && packet[18] == 0 && packet[19] == 32 && packet[20] == 58 && packet[21] == 255
    && packet[22..38] == our && packet[38..54] == dst
  }

  /** What a receiver can read from a reply (RFC 4861 section 7.2.4). */
  ghost predicate Answers(packet: seq<byte>, dstMac: Mac, dst: Address, ourMac: Mac, our: Address, solicited: bool) {
    && Headers(packet, dstMac, dst, ourMac, our)
    && ParseEthernet(packet) == Some(EthernetFrame(dstMac, ourMac, ETHERTYPE_IPV6, 14))
    && ParseIpv6(packet[14..]) == Some(Ipv6Header(0, 0, 32, IPPROTO_ICMPV6, 255, our, dst))
    && Advertises(packet[54..], dst, ourMac, our, solicited)
  }

  method BuildNaReply(nsEth: EthernetFrame, nsIpv6: Ipv6Header, ns: NeighborSolicitation, ourMac: Mac, ourIpv6: Address)
      returns (packet: seq<byte>)
    ensures var specified := nsIpv6.srcAddr != UNSPECIFIED;
            Answers(packet, if ns.sourceLlAddr.Some? then ns.sourceLlAddr.value else nsEth.srcMac,
              if specified then nsIpv6.srcAddr else ALL_NODES, ourMac, ourIpv6, specified)
  {
    var dstMac := if ns.sourceLlAddr.Some? then ns.sourceLlAddr.value else nsEth.srcMac;
    var dstIpv6 := if nsIpv6.srcAddr == UNSPECIFIED then ALL_NODES else nsIpv6.srcAddr;
    var na := NeighborAdvertisement(ourIpv6, ourMac, false, nsIpv6.srcAddr != UNSPECIFIED, true);
    var data := EncodeIcmpv6(na);
    var computed := Icmpv6Checksum(ourIpv6, dstIpv6, data, true);
    var checksum := computed.value;
    assert checksum == ChecksumOf(ourIpv6, dstIpv6, data);
    data := Sealed(na, dstIpv6, checksum, data);
    var ipv6 := Ipv6Header(0, 0, |data|, IPPROTO_ICMPV6, 255, ourIpv6, dstIpv6);
    var eth := EthernetFrame(dstMac, ourMac, ETHERTYPE_IPV6, 0);
    packet := EncodeEthernet(eth, []);
    packet := EncodeIpv6(ipv6, packet);
    packet := packet + data;
    AssembledReply(packet, eth, ipv6, data);
    HeadersStand(packet, eth, ipv6, data);
  }

  /** Headers with these fields, byte for byte. */
  lemma {:induction false} HeadersStand(packet: seq<byte>, eth: EthernetFrame, ipv6: Ipv6Header, data: seq<byte>)
    requires packet == EthernetBytes(eth) + Ipv6Bytes(ipv6) + data && |data| == 32 && eth.ethertype == 0x86dd
    requires ipv6.trafficClass == 0 && ipv6.flowLabel == 0 && ipv6.payloadLen == 32 && ipv6.nextHeader == 58
    requires ipv6.hopLimit == 255
    ensures Headers(packet, eth.dstMac, ipv6.dstAddr, eth.srcMac, ipv6.srcAddr)
  {
    var e, h := EthernetBytes(eth), Ipv6Bytes(ipv6);
    EthernetFields(eth);
    Ipv6Fields(ipv6);
    BehindEthernet(packet, e, h, data, 0, 4);
    assert packet[18] == h[4] && packet[19] == h[5] && packet[20] == h[6] && packet[21] == h[7];
    BehindEthernet(packet, e, h, data, 8, 24);
    BehindEthernet(packet, e, h, data, 24, 40);
    AtFront(packet, e, h, data, 0, 6);
    AtFront(packet, e, h, data, 6, 12);
    AtFront(packet, e, h, data, 12, 14);
  }

  lemma {:induction false} EthernetFields(eth: EthernetFrame)
    requires eth.ethertype == 0x86dd
    ensures var e := EthernetBytes(eth);
            e[0..6] == eth.dstMac && e[6..12] == eth.srcMac && e[12..14] == [0x86, 0xdd]
  {
    WordBytes(0x86dd);
  }

  lemma {:induction false} Ipv6Fields(ipv6: Ipv6Header)
    requires ipv6.trafficClass == 0 && ipv6.flowLabel == 0 && ipv6.payloadLen == 32 && ipv6.nextHeader == 58
    requires ipv6.hopLimit == 255
    ensures var h := Ipv6Bytes(ipv6);
            h[0..4] == [0x60, 0, 0, 0] && h[4] == 0 && h[5] == 32 && h[6] == 58 && h[7] == 255
            && h[8..24] == ipv6.srcAddr && h[24..40] == ipv6.dstAddr
  {
    var line, middle := FirstLine(ipv6.trafficClass, ipv6.flowLabel), Be(ipv6.payloadLen, 2) + [58, 255];
    SecondLine(ipv6.payloadLen, 58, 255);
    HeaderParts(line, middle, ipv6.srcAddr, ipv6.dstAddr, []);
    NilConcat(line + middle + ipv6.srcAddr + ipv6.dstAddr);
  }

  lemma {:induction false} SecondLine(length: u16, next: byte, hops: byte)
    ensures var m := Be(length, 2) + [next, hops];
            |m| == 4 && m[0] == length / 256 && m[1] == length % 256 && m[2] == next && m[3] == hops
  {
    WordBytes(length);
  }

  lemma {:induction false} AtFront(packet: seq<byte>, e: seq<byte>, h: seq<byte>, data: seq<byte>, i: nat, j: nat)
    requires packet == e + h + data && i <= j <= |e|
    ensures |packet| == |e| + |h| + |data| && packet[i..j] == e[i..j]
  {
  }

  lemma {:induction false} BehindEthernet(
      packet: seq<byte>, e: seq<byte>, h: seq<byte>, data: seq<byte>, i: nat, j: nat)
    requires packet == e + h + data && |e| == 14 && i <= j <= |h|
    ensures |packet| == 14 + |h| + |data| && packet[14 + i..14 + j] == h[i..j]
  {
  }

  /** The checksum written into its field. */
  method Sealed(na: NeighborAdvertisement, dst: Address, checksum: u16, blank: seq<byte>) returns (data: seq<byte>)
    requires !na.isRouter && na.isOverride && blank == AdvertisementBytes(na)
    requires checksum == ChecksumOf(na.targetAddr, dst, blank)
    ensures |data| == 32 && Advertises(data, dst, na.targetLlAddr, na.targetAddr, na.isSolicited)
  {
    data := blank[2 := checksum / 256];
    data := data[3 := checksum % 256];
    SealedMessage(na, dst, checksum, data);
  }

  /** The message with its checksum inserted verifies, and still says what it said. */
  lemma {:induction false} SealedMessage(na: NeighborAdvertisement, dst: Address, c: u16, data: seq<byte>)
    requires !na.isRouter && na.isOverride && c == ChecksumOf(na.targetAddr, dst, AdvertisementBytes(na))
    requires data == AdvertisementBytes(na)[2 := c / 256][3 := c % 256]
    ensures Advertises(data, dst, na.targetLlAddr, na.targetAddr, na.isSolicited)
  {
    var blank := AdvertisementBytes(na);
    assert data == WithChecksum(blank, c) && blank == WithChecksum(blank, 0);
    ChecksumVerifies(na.targetAddr, dst, blank, c);
  }

  lemma {:induction false} AssembledReply(packet: seq<byte>, eth: EthernetFrame, ipv6: Ipv6Header, data: seq<byte>)
    requires packet == EthernetBytes(eth) + Ipv6Bytes(ipv6) + data && |data| == 32 && ipv6.flowLabel == 0
    ensures |packet| == 86 && packet[54..] == data
    ensures ParseEthernet(packet) == Some(eth.(payloadOffset := 14))
    ensures ParseIpv6(packet[14..]) == Some(ipv6)
  {
    assert packet == EthernetBytes(eth) + (Ipv6Bytes(ipv6) + data);
    assert packet[14..] == Ipv6Bytes(ipv6) + data;
    EthernetRoundTrip(eth, Ipv6Bytes(ipv6) + data);
    Ipv6RoundTrip(ipv6, data);
  }
}
