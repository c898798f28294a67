/** Messages that carry matches: flow statistics replies and packet-in messages. */
module Containers {
  import opened Common
  import opened Bytes
  import opened MatchCodec
  import opened OxmDecode
  import opened Oxm
  import opened Seqs

  // --------------------------------------------------------- flow statistics

  const FIXED_SIZE := 48

  datatype FlowStatsEntry = FlowStatsEntry(
    tableId: u8, durationSec: u32, durationNsec: u32, priority: u16, idleTimeout: u16, hardTimeout: u16, flags: u16,
    cookie: u64, packetCount: u64, byteCount: u64, matchFields: Match, instructions: seq<byte>)

  /** One entry and its length; the instructions are what is left of the length after the match. */
  function DecodeEntry(data: seq<byte>): (r: Outcome<(FlowStatsEntry, nat)>)
    ensures r.Returned? && r.result.Ok? ==> FIXED_SIZE + 8 <= r.result.value.1 <= |data|
  {
    if |data| < FIXED_SIZE then Returned(Err(TooShort))
    else
      var length := FromBe(data[0..2]);
      if |data| < length then Returned(Err(Truncated))
      else
        match MatchCodec.Decoded(data[FIXED_SIZE..])
        case Panicked => Panicked
        case Returned(Err(e)) => Returned(Err(e))
        case Returned(Ok((m, matchLen))) =>
          if FIXED_SIZE + matchLen > length then Panicked
          else Returned(Ok((EntryOf(data, m, data[FIXED_SIZE + matchLen..length]), length)))
  }

  function EntryOf(data: seq<byte>, m: Match, instructions: seq<byte>): FlowStatsEntry
    requires |data| >= FIXED_SIZE
  {
    Pow256Values();
    FlowStatsEntry(data[2], FromBe(data[4..8]), FromBe(data[8..12]), FromBe(data[12..14]), FromBe(data[14..16]),
      FromBe(data[16..18]), FromBe(data[18..20]), FromBe(data[24..32]), FromBe(data[32..40]), FromBe(data[40..48]), m,
        instructions)
  }

  /** All entries up to where fewer than four bytes are left. */
  function EntriesIn(data: seq<byte>): Outcome<seq<FlowStatsEntry>>
    decreases |data|
  {
    if |data| < 4 then Returned(Ok([]))
    else
      match DecodeEntry(data)
      case Panicked => Panicked
      case Returned(Err(e)) => Returned(Err(e))
      case Returned(Ok((entry, consumed))) => Prepended(entry, EntriesIn(data[consumed..]))
  }

  function Prepended(entry: FlowStatsEntry, r: Outcome<seq<FlowStatsEntry>>): Outcome<seq<FlowStatsEntry>> {
    if r.Returned? && r.result.Ok? then Returned(Ok([entry] + r.result.value)) else r
  }

  function AllPrepended(entries: seq<FlowStatsEntry>, r: Outcome<seq<FlowStatsEntry>>): Outcome<seq<FlowStatsEntry>> {
    if r.Returned? && r.result.Ok? then Returned(Ok(entries + r.result.value)) else r
  }

  function ParsedReply(body: seq<byte>): Outcome<(seq<FlowStatsEntry>, bool)> {
    if |body| < 8 then Returned(Err(TooShort))
    else if FromBe(body[0..2]) != 1 then Returned(Err(Other))
    else
      match EntriesIn(body[8..])
      case Panicked => Panicked
      case Returned(Err(e)) => Returned(Err(e))
      case Returned(Ok(entries)) => Returned(Ok((entries, FromBe(body[2..4]) % 2 == 1)))
  }

  /**
   The entries that stop the program: long enough to reach the match's header, complete as far as their length says,
   with an OXM match that fits, but whose own length is below its header, or ends after the entry does.
   */
  predicate EntryStops(data: seq<byte>) {
    && |data| >= FIXED_SIZE + 4
    && var length, matchType, n := FromBe(data[0..2]), FromBe(data[FIXED_SIZE..50]), FromBe(data[50..52]);
    && length <= |data| && matchType == 1 && n <= |data| - FIXED_SIZE
    && (n < 4 || FIXED_SIZE + PadTo8(n) > length)
  }

  lemma {:induction false} EntryPanicsIff(data: seq<byte>)
    ensures DecodeEntry(data).Panicked? <==> EntryStops(data)
  {
    if |data| >= FIXED_SIZE + 4 {
      SliceOfDrop(data, FIXED_SIZE, 0, 2);
      SliceOfDrop(data, FIXED_SIZE, 2, 4);
    }
  }

  /** Whole entries up to one that stops the program. */
  predicate ReplyStops(data: seq<byte>)
    decreases |data|
  {
    && |data| >= 4
    && (EntryStops(data)
        || (DecodeEntry(data).Returned? && DecodeEntry(data).result.Ok?
           && ReplyStops(data[DecodeEntry(data).result.value.1..])))
  }

  lemma {:induction false} EntriesPanicIff(data: seq<byte>)
    ensures EntriesIn(data).Panicked? <==> ReplyStops(data)
    decreases |data|
  {
    EntryPanicsIff(data);
    if |data| >= 4 && DecodeEntry(data).Returned? && DecodeEntry(data).result.Ok? {
      EntriesPanicIff(data[DecodeEntry(data).result.value.1..]);
    }
  }

  /** Exactly which reply bodies stop the program instead of being parsed or refused. */
  lemma {:induction false} ReplyPanicsIff(body: seq<byte>)
    ensures ParsedReply(body).Panicked? <==> |body| >= 8 && body[0] == 0 && body[1] == 1 && ReplyStops(body[8..])
  {
    if |body| >= 8 {
      TwoByteNumber(body[0..2]);
      EntriesPanicIff(body[8..]);
    }
  }

  /** An entry that stops the program: its length covers the fixed part only, and an empty match follows. */
  const SHORT_ENTRY: seq<byte> := [0, 48] + Zeros(46) + [0, 1, 0, 4] + Zeros(4)

  lemma {:induction false} ShortEntryStops()
    ensures DecodeEntry(SHORT_ENTRY).Panicked? && ParsedReply([0, 1] + Zeros(6) + SHORT_ENTRY).Panicked?
  {
    var data, body := SHORT_ENTRY, [0, 1] + Zeros(6) + SHORT_ENTRY;
    assert data[0..2] == [0, 48] && data[48..50] == [0, 1] && data[50..52] == [0, 4];
    TwoByteNumber([0, 48]);
    TwoByteNumber([0, 1]);
    TwoByteNumber([0, 4]);
    EntryPanicsIff(data);
    assert body[8..] == data;
    ReplyPanicsIff(body);
  }

  /** The loop over the entries of a reply ends for every body: each turn consumes a whole entry or leaves. */
  method ParseFlowStatsReply(body: seq<byte>) returns (r: Outcome<(seq<FlowStatsEntry>, bool)>)
    ensures r == ParsedReply(body)
  {
    if |body| < 8 {
      return Returned(Err(TooShort));
    }
    var mpType, flags := FromBe(body[0..2]), FromBe(body[2..4]);
    if mpType != 1 {
      return Returned(Err(Other));
    }
    var entries := [];
    var offset := 8;
    NonePrepended(EntriesIn(body[8..]));
    while offset < |body|
      invariant 8 <= offset <= |body|
      invariant EntriesIn(body[8..]) == AllPrepended(entries, EntriesIn(body[offset..]))
      decreases |body| - offset
    {
      var remaining := body[offset..];
      if |remaining| < 4 {
        break;
      }
      var decoded := DecodeEntry(remaining);
      if decoded.Panicked? {
        return Panicked;
      }
      if decoded.result.Err? {
        return Returned(Err(decoded.result.error));
      }
      var (entry, consumed) := decoded.result.value;
      assert remaining[consumed..] == body[offset + consumed..];
      OneMore(entries, entry, EntriesIn(body[offset + consumed..]));
      entries := entries + [entry];
      offset := offset + consumed;
    }
    assert entries + [] == entries;
    r := Returned(Ok((entries, flags % 2 == 1)));
  }

  lemma {:induction false} NonePrepended(r: Outcome<seq<FlowStatsEntry>>)
    ensures AllPrepended([], r) == r
  {
    if r.Returned? && r.result.Ok? {
      assert [] + r.result.value == r.result.value;
    }
  }

  lemma {:induction false} OneMore(entries: seq<FlowStatsEntry>, entry: FlowStatsEntry, r: Outcome<seq<FlowStatsEntry>>)
    ensures AllPrepended(entries, Prepended(entry, r)) == AllPrepended(entries + [entry], r)
  {
    if r.Returned? && r.result.Ok? {
      assert entries + ([entry] + r.result.value) == entries + [entry] + r.result.value;
    }
  }

  /** The layout of an entry (OpenFlow 1.3.5, section 7.3.5). */
  function EntryLength(e: FlowStatsEntry): nat { FIXED_SIZE + |MatchBytes(e.matchFields)| + |e.instructions| }

  function EntryHead(e: FlowStatsEntry): (s: seq<byte>)
    ensures |s| == FIXED_SIZE
  {
    (Be(EntryLength(e), 2) + [e.tableId, 0] + Be(e.durationSec, 4) + Be(e.durationNsec, 4))
    + (Be(e.priority, 2) + Be(e.idleTimeout, 2) + Be(e.hardTimeout, 2) + Be(e.flags, 2) + Zeros(4))
    + (Be(e.cookie, 8) + Be(e.packetCount, 8) + Be(e.byteCount, 8))
  }

  function EntryBytes(e: FlowStatsEntry): seq<byte> {
    EntryHead(e) + MatchBytes(e.matchFields) + e.instructions
  }

  function Normal(e: FlowStatsEntry): FlowStatsEntry { e.(matchFields := Norm(e.matchFields)) }

  ghost predicate Sendable(e: FlowStatsEntry) { Typed(e.matchFields) && EntryLength(e) < 0x1_0000 }

  lemma {:induction false} HeadSlices(e: FlowStatsEntry)
    ensures var h := EntryHead(e);
            && h[0..2] == Be(EntryLength(e), 2) && h[2] == e.tableId
            && h[4..8] == Be(e.durationSec, 4) && h[8..12] == Be(e.durationNsec, 4)
            && h[12..14] == Be(e.priority, 2) && h[14..16] == Be(e.idleTimeout, 2)
            && h[16..18] == Be(e.hardTimeout, 2) && h[18..20] == Be(e.flags, 2)
            && h[24..32] == Be(e.cookie, 8) && h[32..40] == Be(e.packetCount, 8) && h[40..48] == Be(e.byteCount, 8)
  {
    ThreeGroups(Be(EntryLength(e), 2), [e.tableId, 0], Be(e.durationSec, 4), Be(e.durationNsec, 4),
      Be(e.priority, 2), Be(e.idleTimeout, 2), Be(e.hardTimeout, 2), Be(e.flags, 2),
      Be(e.cookie, 8), Be(e.packetCount, 8), Be(e.byteCount, 8));
  }

  lemma {:induction false} ThreeGroups(a: seq<byte>, b: seq<byte>, c: seq<byte>, d: seq<byte>,
      e: seq<byte>, f: seq<byte>, g: seq<byte>, h: seq<byte>, i: seq<byte>, j: seq<byte>, k: seq<byte>)
    requires |a| == |b| == |e| == |f| == |g| == |h| == 2 && |c| == |d| == 4 && |i| == |j| == |k| == 8
    ensures var s := (a + b + c + d) + (e + f + g + h + Zeros(4)) + (i + j + k);
            && s[0..2] == a && s[2] == b[0] && s[4..8] == c && s[8..12] == d && s[12..14] == e && s[14..16] == f
            && s[16..18] == g && s[18..20] == h && s[24..32] == i && s[32..40] == j && s[40..48] == k
  {
  }

  lemma {:induction false} HeadReadBack(e: FlowStatsEntry, data: seq<byte>, m: Match)
    requires |data| >= FIXED_SIZE && data[..FIXED_SIZE] == EntryHead(e)
    ensures EntryOf(data, m, e.instructions) == e.(matchFields := m)
  {
    var h := EntryHead(e);
    HeadSlices(e);
    Pow256Values();
    assert data[2] == h[2];
    assert data[4..8] == h[4..8] && data[8..12] == h[8..12] && data[12..14] == h[12..14] && data[14..16] == h[14..16];
    assert data[16..18] == h[16..18] && data[18..20] == h[18..20];
    assert data[24..32] == h[24..32] && data[32..40] == h[32..40] && data[40..48] == h[40..48];
    FromBeBe(e.durationSec, 4);
    FromBeBe(e.durationNsec, 4);
    FromBeBe(e.priority, 2);
    FromBeBe(e.idleTimeout, 2);
    FromBeBe(e.hardTimeout, 2);
    FromBeBe(e.flags, 2);
    FromBeBe(e.cookie, 8);
    FromBeBe(e.packetCount, 8);
    FromBeBe(e.byteCount, 8);
  }

  /** An entry decodes to itself with its match in normal form and its exact instruction bytes, whatever follows. */
  lemma {:induction false} EntryRoundTrip(e: FlowStatsEntry, rest: seq<byte>)
    requires Sendable(e)
    ensures DecodeEntry(EntryBytes(e) + rest) == Returned(Ok((Normal(e), EntryLength(e))))
            && |EntryBytes(e)| == EntryLength(e)
  {
    var s, n := EntryBytes(e) + rest, FIXED_SIZE + |MatchBytes(e.matchFields)|;
    HeadSlices(e);
    TwoBytes(EntryLength(e));
    assert s[..FIXED_SIZE] == EntryHead(e);
    assert s[0..2] == EntryHead(e)[0..2];
    assert s[FIXED_SIZE..] == MatchBytes(e.matchFields) + (e.instructions + rest);
    MatchRoundTrip(e.matchFields, e.instructions + rest);
    assert s[n..EntryLength(e)] == e.instructions;
    HeadReadBack(e, s, Norm(e.matchFields));
  }

  function EntriesBytes(es: seq<FlowStatsEntry>): seq<byte> {
    if es == [] then [] else EntryBytes(es[0]) + EntriesBytes(es[1..])
  }

  function Normals(es: seq<FlowStatsEntry>): seq<FlowStatsEntry> {
    if es == [] then [] else [Normal(es[0])] + Normals(es[1..])
  }

  lemma {:induction false} FirstEntry(e: FlowStatsEntry, rest: seq<byte>)
    requires Sendable(e)
    ensures EntriesIn(EntryBytes(e) + rest) == Prepended(Normal(e), EntriesIn(rest))
  {
    var s := EntryBytes(e) + rest;
    EntryRoundTrip(e, rest);
    assert s[EntryLength(e)..] == rest;
  }

  lemma {:induction false} EntriesRoundTrip(es: seq<FlowStatsEntry>, tail: seq<byte>)
    requires |tail| < 4 && forall e :: e in es ==> Sendable(e)
    ensures EntriesIn(EntriesBytes(es) + tail) == Returned(Ok(Normals(es)))
    decreases |es|
  {
    if es == [] {
      assert EntriesBytes(es) + tail == tail;
    } else {
      assert es[0] in es;
      FirstEntry(es[0], EntriesBytes(es[1..]) + tail);
      EntriesRoundTrip(es[1..], tail);
      Associative(EntryBytes(es[0]), EntriesBytes(es[1..]), tail);
    }
  }

  lemma {:induction false} ReplySlices(flags: u16, rest: seq<byte>, tail: seq<byte>)
    ensures var body := [0, 1] + Be(flags, 2) + Zeros(4) + rest + tail;
            body[0..2] == [0, 1] && body[2..4] == Be(flags, 2) && body[8..] == rest + tail
  {
  }

  /** A reply of any list of entries parses to the list, in order, and says whether more parts follow. */
  lemma {:induction false} ReplyRoundTrip(es: seq<FlowStatsEntry>, flags: u16, tail: seq<byte>)
    requires |tail| < 4 && forall e :: e in es ==> Sendable(e)
    ensures ParsedReply([0, 1] + Be(flags, 2) + Zeros(4) + EntriesBytes(es) + tail)
            == Returned(Ok((Normals(es), flags % 2 == 1)))
  {
    var body := [0, 1] + Be(flags, 2) + Zeros(4) + EntriesBytes(es) + tail;
    TwoBytes(flags);
    ReplySlices(flags, EntriesBytes(es), tail);
    BodyParsed(body, es, flags, tail);
  }

  lemma {:induction false} BodyParsed(body: seq<byte>, es: seq<FlowStatsEntry>, flags: u16, tail: seq<byte>)
    requires |tail| < 4 && forall e :: e in es ==> Sendable(e)
    requires |body| >= 8 && body[0..2] == [0, 1] && FromBe(body[2..4]) == flags
    requires body[8..] == EntriesBytes(es) + tail
    ensures ParsedReply(body) == Returned(Ok((Normals(es), flags % 2 == 1)))
  {
    TwoByteNumber([0, 1]);
    EntriesRoundTrip(es, tail);
  }

  // --------------------------------------------------------------- packet in

  datatype PacketIn = PacketIn(
    bufferId: u32, totalLen: u16, reason: byte, tableId: u8, cookie: u64, matchFields: Match, data: seq<byte>)

  /** Field by field in absolute positions: fixed part, match, padding of the match, two bytes of padding, payload. */
  function ParsedPacketIn(b: seq<byte>): Result<PacketIn, Error> {
    if |b| < 20 then Err(TooShort)
    else if b[6] > 5 then Err(Other)
    else
      match MatchAndData(b)
      case Err(e) => Err(e)
      case Ok((m, data)) =>
        Pow256Values();
        Ok(PacketIn(FromBe(b[0..4]), FromBe(b[4..6]), b[6], b[7], FromBe(b[8..16]), m, data))
  }

  function MatchAndData(b: seq<byte>): Result<(Match, seq<byte>), Error>
    requires |b| >= 20
  {
    if FromBe(b[16..18]) != 1 then Err(UnsupportedType(FromBe(b[16..18])))
    else
      var matchLen := FromBe(b[18..20]);
      var end := 20 + (if matchLen < 4 then 0 else matchLen - 4);
      var padded := end + PadTo8(matchLen) - matchLen;
      if |b| < end then Err(Truncated)
      else if |b| < padded + 2 then Err(Other)
      else Ok((MatchCodec.Fold(ANY, TlvsIn(b[20..end])), b[padded + 2..]))
  }

  method ParsePacketIn(body: seq<byte>) returns (r: Result<PacketIn, Error>)
    ensures r == ParsedPacketIn(body)
  {
    var buf := body;
    if |buf| < 20 {
      return Err(TooShort);
    }
    Pow256Values();
    var bufferId := FromBe(buf[0..4]);
    buf := buf[4..];
    SliceOfDrop(body, 4, 0, 2);
    var totalLen := FromBe(buf[0..2]);
    buf := buf[2..];
    DropDrop(body, 4, 2);
    var reason, tableId := buf[0], buf[1];
    buf := buf[2..];
    if reason > 5 {
      return Err(Other);
    }
    DropDrop(body, 6, 2);
    SliceOfDrop(body, 8, 0, 8);
    var cookie := FromBe(buf[0..8]);
    buf := buf[8..];
    DropDrop(body, 8, 8);
    var rest := ParseMatch(body, buf);
    r := if rest.Err? then Err(rest.error)
      else Ok(PacketIn(bufferId, totalLen, reason, tableId, cookie, rest.value.0, rest.value.1));
  }

  /** The rest of parsing, from the match on. */
  method ParseMatch(ghost body: seq<byte>, start: seq<byte>) returns (r: Result<(Match, seq<byte>), Error>)
    requires |body| >= 20 && start == body[16..]
    ensures r == MatchAndData(body)
  {
    var buf := start;
    SliceOfDrop(body, 16, 0, 2);
    var matchType := FromBe(buf[0..2]);
    SliceOfDrop(body, 16, 2, 4);
    var matchLen := FromBe(buf[2..4]);
    buf := buf[4..];
    DropDrop(body, 16, 4);
    if matchType != 1 {
      return Err(UnsupportedType(matchType));
    }
    var oxmLen := if matchLen < 4 then 0 else matchLen - 4;
    if |buf| < oxmLen {
      return Err(Truncated);
    }
    SliceOfDrop(body, 20, 0, oxmLen);
    var matchFields := MatchCodec.DecodeOxm(buf[0..oxmLen]);
    buf := buf[oxmLen..];
    DropDrop(body, 20, oxmLen);
    var padding := (matchLen + 7) / 8 * 8 - matchLen;
    if |buf| < padding {
      return Err(Other);
    }
    buf := buf[padding..];
    DropDrop(body, 20 + oxmLen, padding);
    if |buf| < 2 {
      return Err(Other);
    }
    buf := buf[2..];
    DropDrop(body, 20 + oxmLen + padding, 2);
    r := Ok((matchFields, buf));
  }

  /** The layout of a packet-in message after the OpenFlow header (OpenFlow 1.3.5, section 7.4.1). */
  function PacketInBytes(p: PacketIn): seq<byte> {
    (Be(p.bufferId, 4) + Be(p.totalLen, 2) + [p.reason, p.tableId] + Be(p.cookie, 8)) + MatchBytes(p.matchFields)
      + [0, 0] + p.data
  }

  /** Match and payload are recovered past both paddings, whatever the length of the match. */
  lemma {:induction false} PacketInRoundTrip(p: PacketIn)
    requires Typed(p.matchFields) && p.reason <= 5
    ensures ParsedPacketIn(PacketInBytes(p)) == Ok(p.(matchFields := Norm(p.matchFields)))
  {
    PacketInHead(p);
    PacketInMatch(p);
  }

  lemma {:induction false} PacketInMatch(p: PacketIn)
    requires Typed(p.matchFields)
    ensures |PacketInBytes(p)| >= 20 && MatchAndData(PacketInBytes(p)) == Ok((Norm(p.matchFields), p.data))
  {
    var fields := AllBytes(Tlvs(p.matchFields));
    EncodedLength(p.matchFields, SLOTS);
    PacketInRest(p, fields);
    TwoBytes(4 + |fields|);
    TwoByteNumber([0, 1]);
    FieldsDecodeToNorm(p.matchFields);
    MatchFound(PacketInBytes(p), fields, Norm(p.matchFields), p.data);
  }

  lemma {:induction false} MatchFound(b: seq<byte>, fields: seq<byte>, m: Match, data: seq<byte>)
    requires var n := 4 + |fields|;
             && |b| == 18 + PadTo8(n) + |data| && FromBe(b[16..18]) == 1 && FromBe(b[18..20]) == n
             && b[20..16 + n] == fields && b[16 + PadTo8(n) + 2..] == data
    requires MatchCodec.Fold(ANY, TlvsIn(fields)) == m
    ensures MatchAndData(b) == Ok((m, data))
  {
  }

  lemma {:induction false} PacketInHead(p: PacketIn)
    ensures var b := PacketInBytes(p);
            |b| >= 16 && FromBe(b[0..4]) == p.bufferId && FromBe(b[4..6]) == p.totalLen && b[6] == p.reason
              && b[7] == p.tableId
            && FromBe(b[8..16]) == p.cookie
  {
    var head := Be(p.bufferId, 4) + Be(p.totalLen, 2) + [p.reason, p.tableId] + Be(p.cookie, 8);
    HeadParts(Be(p.bufferId, 4), Be(p.totalLen, 2), [p.reason, p.tableId], Be(p.cookie, 8));
    StartsWith(head, MatchBytes(p.matchFields), [0, 0], p.data);
    Pow256Values();
    FromBeBe(p.bufferId, 4);
    FromBeBe(p.totalLen, 2);
    FromBeBe(p.cookie, 8);
  }

  lemma {:induction false} HeadParts(a: seq<byte>, b: seq<byte>, c: seq<byte>, d: seq<byte>)
    requires |a| == 4 && |b| == |c| == 2 && |d| == 8
    ensures var h := a + b + c + d;
            h[0..4] == a && h[4..6] == b && h[6] == c[0] && h[7] == c[1] && h[8..16] == d
  {
  }

  lemma {:induction false} StartsWith(head: seq<byte>, x: seq<byte>, y: seq<byte>, z: seq<byte>)
    requires |head| == 16
    ensures var b := head + x + y + z;
            |b| >= 16 && b[0..4] == head[0..4] && b[4..6] == head[4..6] && b[6] == head[6] && b[7] == head[7]
              && b[8..16] == head[8..16]
  {
  }

  lemma {:induction false} PacketInRest(p: PacketIn, fields: seq<byte>)
    requires fields == AllBytes(Tlvs(p.matchFields))
    ensures var (b, n) := (PacketInBytes(p), 4 + |fields|);
            |b| == 18 + PadTo8(n) + |p.data| && b[16..18] == [0, 1] && b[18..20] == Be(n, 2) && b[20..16 + n] == fields
            && b[16 + PadTo8(n) + 2..] == p.data
  {
    var head := Be(p.bufferId, 4) + Be(p.totalLen, 2) + [p.reason, p.tableId] + Be(p.cookie, 8);
    assert PacketInBytes(p) == head + Framed(fields) + [0, 0] + p.data;
    FramedSlices(head, fields, p.data);
  }

  lemma {:induction false} FramedSlices(head: seq<byte>, fields: seq<byte>, rest: seq<byte>)
    requires |head| == 16
    ensures var (b, n) := (head + Framed(fields) + [0, 0] + rest, 4 + |fields|);
            && |b| == 18 + PadTo8(n) + |rest|
            && b[16..18] == [0, 1] && b[18..20] == Be(n, 2) && b[20..16 + n] == fields
               && b[16 + PadTo8(n) + 2..] == rest
  {
  }
}
