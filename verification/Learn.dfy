/** The Nicira learn action: its specs, their wire form, and the cursor the decoder reads them with. */
module Learn {
  import opened Common
  import opened Bytes
  import opened Seqs

  datatype LearnSpec =
    | MatchField(src: u32, dst: u32, nBits: u16)
    | MatchImmediate(dst: u32, value: seq<byte>, nBits: u16)
    | LoadField(src: u32, dst: u32, nBits: u16)
    | LoadImmediate(dst: u32, value: seq<byte>, nBits: u16)
    | OutputField(src: u32, nBits: u16)

  datatype NxLearn = NxLearn(
    idleTimeout: u16, hardTimeout: u16, priority: u16, cookie: u64, flags: u16, tableId: u8,
    finIdleTimeout: u16, finHardTimeout: u16, specs: seq<LearnSpec>)

  datatype Error = Truncated | UnknownSpec

  /** A bit count has eleven bits to be sent in, less one. */
  predicate Encodable(s: LearnSpec) { 1 <= s.nBits <= 2048 }
  predicate AllEncodable(specs: seq<LearnSpec>) { forall s :: s in specs ==> Encodable(s) }

  /** Subtracting one from a bit count of zero stops a program that checks for overflow. */
  predicate Underflows(specs: seq<LearnSpec>) { exists s :: s in specs && s.nBits == 0 }

  // ---------------------------------------------------------------- encoding

  /** Bytes an immediate value of `nBits` bits takes up: a whole number of 16-bit words. */
  function ValueLen(nBits: nat): nat { (nBits + 15) / 16 * 2 }

  /** The value aligned to the right; of a value too long, the first bytes. */
  function Padded(value: seq<byte>, n: nat): (s: seq<byte>)
    ensures |s| == n
  {
    var copied := if |value| < n then |value| else n;
    Zeros(n - copied) + value[..copied]
  }

  function Source(s: LearnSpec): nat { if s.MatchImmediate? || s.LoadImmediate? then 1 else 0 }
  function Destination(s: LearnSpec): nat {
    if s.OutputField? then 2 else if s.LoadField? || s.LoadImmediate? then 1 else 0
  }

  function TypeBits(s: LearnSpec): u16 { Source(s) * 0x2000 + Destination(s) * 0x800 }

  /** The bit count less one, or-ed with the type bits: a count above 2048 runs into them. */
  function Header(s: LearnSpec): u16 {
    Pow2Values();
    OrBelow(TypeBits(s), LessOne(s.nBits), 16);
    Or(TypeBits(s), LessOne(s.nBits))
  }

  /** A field reference: its header and a bit offset of zero. */
  function Subfield(field: u32): (s: seq<byte>)
    ensures |s| == 6
  {
    Be(field, 4) + [0, 0]
  }

  function Body(s: LearnSpec): seq<byte> {
    match s
    case MatchField(src, dst, _) => Subfield(src) + Subfield(dst)
    case MatchImmediate(dst, value, nBits) => Padded(value, ValueLen(nBits)) + Subfield(dst)
    case LoadField(src, dst, _) => Subfield(src) + Subfield(dst)
    case LoadImmediate(dst, value, nBits) => Padded(value, ValueLen(nBits)) + Subfield(dst)
    case OutputField(src, _) => Subfield(src)
  }

  function SpecBytes(s: LearnSpec): seq<byte> { Be(Header(s), 2) + Body(s) }

  function SpecsBytes(specs: seq<LearnSpec>): seq<byte> {
    if specs == [] then [] else SpecsBytes(specs[..|specs| - 1]) + SpecBytes(specs[|specs| - 1])
  }

  method EncodeLearnSubfield(buf: seq<byte>, field: u32, ofs: u16) returns (out: seq<byte>)
    ensures ofs == 0 ==> out == buf + Subfield(field)
  {
    out := buf + Be(field, 4);
    out := out + Be(ofs, 2);
    if ofs == 0 {
      assert Be(0, 2) == Be(0, 1) + [0] && Be(0, 1) == Be(0, 0) + [0];
    }
  }

  /** `None`: the program has stopped on a bit count of zero, which it does when it was built to check for overflow. */
  method EncodeLearnSpecs(specs: seq<LearnSpec>, checked: bool) returns (r: Option<seq<byte>>)
    ensures r == if checked && Underflows(specs) then None else Some(SpecsBytes(specs))
  {
    var buf: seq<byte> := [];
    for i := 0 to |specs|
      invariant buf == SpecsBytes(specs[..i])
      invariant checked ==> !Underflows(specs[..i])
    {
      var s := specs[i];
      OneMore(specs, i);
      if checked && s.nBits == 0 {
        return None;
      }
      buf := EncodeSpec(buf, s);
    }
    assert specs[..|specs|] == specs;
    r := Some(buf);
  }

  lemma {:induction false} OneMore(specs: seq<LearnSpec>, i: nat)
    requires i < |specs|
    ensures SpecsBytes(specs[..i + 1]) == SpecsBytes(specs[..i]) + SpecBytes(specs[i])
    ensures Underflows(specs[..i + 1]) <==> Underflows(specs[..i]) || specs[i].nBits == 0
    ensures specs[i].nBits == 0 ==> Underflows(specs)
  {
    assert specs[..i + 1][..i] == specs[..i];
    assert forall s :: s in specs[..i + 1] <==> s in specs[..i] || s == specs[i];
  }

  /** One turn of the loop. */
  method EncodeSpec(buf: seq<byte>, s: LearnSpec) returns (out: seq<byte>)
    ensures out == buf + SpecBytes(s)
  {
    var header := Header(s);
    out := buf + Be(header, 2);
    match s {
      case MatchField(src, dst, nBits) =>
        Appended(buf, Be(header, 2), Subfield(src), Subfield(dst));
        out := EncodeLearnSubfield(out, src, 0);
        out := EncodeLearnSubfield(out, dst, 0);
      case MatchImmediate(dst, value, nBits) =>
        var padded := Padded(value, ValueLen(nBits));
        Appended(buf, Be(header, 2), padded, Subfield(dst));
        out := out + padded;
        out := EncodeLearnSubfield(out, dst, 0);
      case LoadField(src, dst, nBits) =>
        Appended(buf, Be(header, 2), Subfield(src), Subfield(dst));
        out := EncodeLearnSubfield(out, src, 0);
        out := EncodeLearnSubfield(out, dst, 0);
      case LoadImmediate(dst, value, nBits) =>
        var padded := Padded(value, ValueLen(nBits));
        Appended(buf, Be(header, 2), padded, Subfield(dst));
        out := out + padded;
        out := EncodeLearnSubfield(out, dst, 0);
      case OutputField(src, nBits) =>
        Appended(buf, Be(header, 2), Subfield(src), []);
        out := EncodeLearnSubfield(out, src, 0);
    }
  }

  lemma {:induction false} Appended(a: seq<byte>, b: seq<byte>, c: seq<byte>, d: seq<byte>)
    ensures a + b + c + d == a + (b + (c + d))
    ensures d == [] ==> a + b + c == a + (b + c)
  {
  }

  function FixedBytes(l: NxLearn): (s: seq<byte>)
    ensures |s| == 22
  {
    (Be(l.idleTimeout, 2) + Be(l.hardTimeout, 2) + Be(l.priority, 2) + Be(l.cookie, 8))
    + (Be(l.flags, 2) + [l.tableId, 0] + Be(l.finIdleTimeout, 2) + Be(l.finHardTimeout, 2))
  }

  function LearnLength(l: NxLearn): nat { PadTo8(32 + |SpecsBytes(l.specs)|) }

  /** The action after its vendor header and subtype: fixed fields, specs, zeros. */
  function LearnBytes(l: NxLearn): (s: seq<byte>)
    ensures |s| == LearnLength(l) - 10
  {
    FixedBytes(l) + SpecsBytes(l.specs) + Zeros(LearnLength(l) - 32 - |SpecsBytes(l.specs)|)
  }

  method EncodeFixed(buf: seq<byte>, l: NxLearn) returns (out: seq<byte>)
    ensures out == buf + FixedBytes(l)
  {
    out := buf + Be(l.idleTimeout, 2) + Be(l.hardTimeout, 2) + Be(l.priority, 2) + Be(l.cookie, 8);
    out := out + Be(l.flags, 2) + [l.tableId] + [0] + Be(l.finIdleTimeout, 2) + Be(l.finHardTimeout, 2);
  }

  // ---------------------------------------------------------------- decoding

  /** What a spec with this header needs, and makes, of the bytes after it; with how many it used. */
  function ReadBody(header: u16, data: seq<byte>): Result<(LearnSpec, nat), Error> {
    var nBits, source, destination := header % 0x800 + 1, header / 0x2000 % 2, header / 0x800 % 4;
    var n := ValueLen(nBits);
    if destination == 2 && source == 0 then
      if |data| < 6 then Err(Truncated) else Ok((OutputField(FieldAt(data, 0), nBits), 6))
    else if destination > 1 then Err(UnknownSpec)
    else if source == 0 then
      if |data| < 12 then Err(Truncated)
      else
        var src, dst := FieldAt(data, 0), FieldAt(data, 6);
        Ok((if destination == 0 then MatchField(src, dst, nBits) else LoadField(src, dst, nBits), 12))
    else if |data| < n + 6 then Err(Truncated)
    else
      var dst, value := FieldAt(data, n), data[..n];
      Ok((if destination == 0 then MatchImmediate(dst, value, nBits) else LoadImmediate(dst, value, nBits), n + 6))
  }

  function FieldAt(data: seq<byte>, i: nat): u32
    requires i + 4 <= |data|
  {
    Pow256Values();
    FromBe(data[i..i + 4])
  }

  function HeaderAt(data: seq<byte>): u16
    requires |data| >= 2
  {
    Pow256Values();
    FromBe(data[..2])
  }

  /** All specs up to a zero header or the last odd byte; a truncated or unknown spec is an error. */
  function ReadSpecs(data: seq<byte>): Result<seq<LearnSpec>, Error>
    decreases |data|
  {
    if |data| < 2 || HeaderAt(data) == 0 then Ok([])
    else
      match ReadBody(HeaderAt(data), data[2..])
      case Err(e) => Err(e)
      case Ok((spec, n)) => Prepended([spec], ReadSpecs(data[2 + n..]))
  }

  /** A bounds-checked cursor. */
  class Cursor {
    const data: seq<byte>
    var offset: nat

    ghost predicate Valid()
      reads this
    {
      offset <= |data|
    }

    ghost function Left(): seq<byte>
      reads this
      requires Valid()
    {
      data[offset..]
    }

    constructor (data: seq<byte>)
      ensures Valid() && Left() == data && this.data == data
    {
      this.data := data;
      offset := 0;
    }

    function Remaining(): nat
      reads this
      requires Valid()
      ensures Remaining() == |Left()|
    {
      |data| - offset
    }

    /** The next `n` bytes, or an error that leaves the cursor where it was. */
    method Take(n: nat) returns (r: Result<seq<byte>, Error>)
      requires Valid()
      modifies this
      ensures Valid()
      ensures old(|Left()|) < n ==> r == Err(Truncated) && Left() == old(Left())
      ensures old(|Left()|) >= n ==> r == Ok(old(Left())[..n]) && Left() == old(Left())[n..]
    {
      if |data| - offset < n {
        return Err(Truncated);
      }
      assert data[offset..][..n] == data[offset..offset + n] && data[offset..][n..] == data[offset + n..];
      r := Ok(data[offset..offset + n]);
      offset := offset + n;
    }

    method Rest() returns (s: seq<byte>)
      requires Valid()
      modifies this
      ensures Valid() && s == old(Left()) && Left() == []
    {
      s := data[offset..];
      offset := |data|;
    }

    /** An unsigned number of `width` bytes. */
    method Read(width: nat) returns (r: Result<nat, Error>)
      requires Valid()
      modifies this
      ensures Valid()
      ensures old(|Left()|) < width ==> r == Err(Truncated) && Left() == old(Left())
      ensures old(|Left()|) >= width ==> r == Ok(FromBe(old(Left())[..width])) && Left() == old(Left())[width..]
    {
      var b := Take(width);
      r := if b.Err? then Err(b.error) else Ok(FromBe(b.value));
    }

    /** A field header; the bit offset after it is skipped. */
    method ReadSubfield() returns (r: Result<u32, Error>)
      requires Valid()
      modifies this
      ensures Valid()
      ensures old(|Left()|) < 6 ==> r == Err(Truncated)
      ensures old(|Left()|) >= 6 ==> r == Ok(FieldAt(old(Left()), 0)) && Left() == old(Left())[6..]
    {
      ghost var left := Left();
      var field := Take(4);
      if field.Err? {
        return Err(field.error);
      }
      var skipped := Take(2);
      if skipped.Err? {
        return Err(skipped.error);
      }
      assert left[0..4] == field.value == field.value[0..4];
      assert left[4..][2..] == left[6..];
      r := Ok(FieldAt(field.value, 0));
    }
  }

  /** The body of one spec, read step by step. */
  method DecodeBody(cur: Cursor, header: u16) returns (r: Result<LearnSpec, Error>)
    requires cur.Valid()
    modifies cur
    ensures cur.Valid()
    ensures match ReadBody(header, old(cur.Left()))
            case Err(e) => r == Err(e)
            case Ok((spec, n)) => r == Ok(spec) && cur.Left() == old(cur.Left())[n..]
  {
    var nBits := header % 0x800 + 1;
    var srcType := header / 0x2000 % 2;
    var dstType := header / 0x800 % 4;
    var valueLen := ValueLen(nBits);
    ghost var left := cur.Left();
    if srcType == 0 && dstType < 2 {
      var src := cur.ReadSubfield();
      if src.Err? {
        return Err(src.error);
      }
      ghost var mid := cur.Left();
      var dst := cur.ReadSubfield();
      if dst.Err? {
        return Err(dst.error);
      }
      assert mid[0..4] == left[6..10] && mid[6..] == left[12..];
      r := Ok(if dstType == 0 then MatchField(src.value, dst.value, nBits) else LoadField(src.value, dst.value, nBits));
    } else if srcType == 1 && dstType < 2 {
      var value := cur.Take(valueLen);
      if value.Err? {
        return Err(value.error);
      }
      ghost var mid := cur.Left();
      var dst := cur.ReadSubfield();
      if dst.Err? {
        return Err(dst.error);
      }
      assert mid[0..4] == left[valueLen..valueLen + 4] && mid[6..] == left[valueLen + 6..];
      r := Ok(if dstType == 0 then MatchImmediate(dst.value, value.value, nBits)
        else LoadImmediate(dst.value, value.value, nBits));
    } else if srcType == 0 && dstType == 2 {
      var src := cur.ReadSubfield();
      if src.Err? {
        return Err(src.error);
      }
      r := Ok(OutputField(src.value, nBits));
    } else {
      r := Err(UnknownSpec);
    }
  }

  function Prepended(specs: seq<LearnSpec>, r: Result<seq<LearnSpec>, Error>): Result<seq<LearnSpec>, Error> {
    match r
    case Err(e) => Err(e)
    case Ok(more) => Ok(specs + more)
  }

  /** What a loop that has read `specs` and has `left` to read returns in the end. */
  ghost function Finished(specs: seq<LearnSpec>, left: seq<byte>): Result<seq<LearnSpec>, Error> {
    Prepended(specs, ReadSpecs(left))
  }

  /** One turn of the loop: a spec, or none at the end mark. */
  method DecodeSpec(cur: Cursor, ghost specs: seq<LearnSpec>) returns (r: Result<Option<LearnSpec>, Error>)
    requires cur.Valid() && |cur.Left()| >= 2
    modifies cur
    ensures cur.Valid() && (r.Ok? ==> |cur.Left()| < old(|cur.Left()|))
    ensures match r
            case Err(e) => Finished(specs, old(cur.Left())) == Err(e)
            case Ok(None) => Finished(specs, old(cur.Left())) == Ok(specs)
            case Ok(Some(spec)) => Finished(specs, old(cur.Left())) == Finished(specs + [spec], cur.Left())
  {
    ghost var left := cur.Left();
    var header := cur.Read(2);
    HeaderFits(left);
    NilConcat(specs);
    if header.value == 0 {
      return Ok(None);
    }
    var spec := DecodeBody(cur, header.value);
    if spec.Err? {
      return Err(spec.error);
    }
    SpecConsumed(left);
    OnePrepended(specs, spec.value, ReadSpecs(cur.Left()));
    r := Ok(Some(spec.value));
  }

  method DecodeLearnSpecs(data: seq<byte>) returns (r: Result<seq<LearnSpec>, Error>)
    ensures r == ReadSpecs(data)
  {
    var cur := new Cursor(data);
    NothingPrepended(ReadSpecs(data));
    r := DecodeRemaining(cur);
  }

  /** The loop. */
  method DecodeRemaining(cur: Cursor) returns (r: Result<seq<LearnSpec>, Error>)
    requires cur.Valid()
    modifies cur
    ensures r == Finished([], old(cur.Left()))
  {
    ghost var expected := Finished([], cur.Left());
    var specs: seq<LearnSpec> := [];
    while cur.Remaining() >= 2
      invariant cur.Valid() && Finished(specs, cur.Left()) == expected
      decreases |cur.Left()|
    {
      var spec := DecodeSpec(cur, specs);
      if spec.Err? {
        return Err(spec.error);
      }
      if spec.value.None? {
        return Ok(specs);
      }
      specs := specs + [spec.value.value];
    }
    NothingLeft(specs, cur.Left());
    r := Ok(specs);
  }

  lemma {:induction false} NothingLeft(specs: seq<LearnSpec>, left: seq<byte>)
    requires |left| < 2
    ensures Finished(specs, left) == Ok(specs)
  {
    NilConcat(specs);
  }

  lemma {:induction false} HeaderFits(data: seq<byte>)
    requires |data| >= 2
    ensures FromBe(data[..2]) < 0x1_0000
  {
  }

  lemma {:induction false} SpecConsumed(left: seq<byte>)
    requires |left| >= 2 && HeaderAt(left) != 0 && ReadBody(HeaderAt(left), left[2..]).Ok?
    ensures var (spec, n) := ReadBody(HeaderAt(left), left[2..]).value;
            0 < n <= |left| - 2 && ReadSpecs(left) == Prepended([spec], ReadSpecs(left[2..][n..]))
  {
  }

  lemma {:induction false} NothingPrepended(r: Result<seq<LearnSpec>, Error>)
    ensures Prepended([], r) == r
  {
    if r.Ok? {
      assert [] + r.value == r.value;
    }
  }

  lemma {:induction false} OnePrepended(specs: seq<LearnSpec>, spec: LearnSpec, r: Result<seq<LearnSpec>, Error>)
    ensures Prepended(specs, Prepended([spec], r)) == Prepended(specs + [spec], r)
  {
    if r.Ok? {
      assert specs + ([spec] + r.value) == specs + [spec] + r.value;
    }
  }

  /** Fixed fields after the subtype; an encoding may lack the last one, and then has no specs either. */
  function DecodedLearn(data: seq<byte>): Result<NxLearn, Error> {
    if |data| < 20 then Err(Truncated)
    else
      var n := if |data| >= 22 then 22 else 20;
      match ReadSpecs(data[n..])
      case Err(e) => Err(e)
      case Ok(specs) =>
        Ok(FixedOf(data).(specs := specs))
  }

  function LongAt(data: seq<byte>): u64
    requires |data| >= 8
  {
    Pow256Values();
    FromBe(data[..8])
  }

  /** Fixed fields of a learn action, read one after the other, down to the optional last one. */
  method DecodeLearnFields(cur: Cursor) returns (r: Result<NxLearn, Error>)
    requires cur.Valid()
    modifies cur
    ensures cur.Valid()
    ensures var left := old(cur.Left());
            if |left| < 20 then r == Err(Truncated)
            else r == Ok(FixedOf(left)) && cur.Left() == left[if |left| >= 22 then 22 else 20..]
  {
    ghost var left := cur.Left();
    var idle := cur.Read(2);
    if idle.Err? {
      return Err(idle.error);
    }
    var hard := cur.Read(2);
    if hard.Err? {
      return Err(hard.error);
    }
    DropDrop(left, 2, 2);
    var priority := cur.Read(2);
    if priority.Err? {
      return Err(priority.error);
    }
    DropDrop(left, 4, 2);
    var cookie := cur.Read(8);
    if cookie.Err? {
      return Err(cookie.error);
    }
    DropDrop(left, 6, 8);
    var flags := cur.Read(2);
    if flags.Err? {
      return Err(flags.error);
    }
    DropDrop(left, 14, 2);
    var table := cur.Read(1);
    if table.Err? {
      return Err(table.error);
    }
    DropDrop(left, 16, 1);
    var pad := cur.Read(1);
    if pad.Err? {
      return Err(pad.error);
    }
    DropDrop(left, 17, 1);
    var finIdle := cur.Read(2);
    if finIdle.Err? {
      return Err(finIdle.error);
    }
    DropDrop(left, 18, 2);
    var finHard := Ok(0);
    if cur.Remaining() >= 2 {
      finHard := cur.Read(2);
      DropDrop(left, 20, 2);
    }
    OneByte(left[16..]);
    FieldsFit(left);
    r := Ok(NxLearn(idle.value, hard.value, priority.value, cookie.value, flags.value, table.value, finIdle.value,
      finHard.value, []));
  }

  lemma {:induction false} OneByte(data: seq<byte>)
    requires data != []
    ensures FromBe(data[..1]) == data[0]
  {
  }

  lemma {:induction false} FieldsFit(data: seq<byte>)
    requires |data| >= 20
    ensures FromBe(data[..2]) == HeaderAt(data) && FromBe(data[2..][..2]) == HeaderAt(data[2..])
            && FromBe(data[4..][..2]) == HeaderAt(data[4..])
    ensures FromBe(data[6..][..8]) == LongAt(data[6..]) && FromBe(data[14..][..2]) == HeaderAt(data[14..])
    ensures FromBe(data[18..][..2]) == HeaderAt(data[18..])
    ensures |data| >= 22 ==> FromBe(data[20..][..2]) == HeaderAt(data[20..])
  {
  }

  /** The fields before the specs. */
  function FixedOf(data: seq<byte>): NxLearn
    requires |data| >= 20
  {
    NxLearn(HeaderAt(data), HeaderAt(data[2..]), HeaderAt(data[4..]), LongAt(data[6..]), HeaderAt(data[14..]), data[16],
      HeaderAt(data[18..]), if |data| >= 22 then HeaderAt(data[20..]) else 0, [])
  }

  method DecodeLearn(cur: Cursor) returns (r: Result<NxLearn, Error>)
    requires cur.Valid()
    modifies cur
    ensures cur.Valid() && r == DecodedLearn(old(cur.Left()))
  {
    var fixed := DecodeLearnFields(cur);
    if fixed.Err? {
      return Err(Truncated);
    }
    var rest := cur.Rest();
    var specs := DecodeLearnSpecs(rest);
    r := if specs.Err? then Err(specs.error) else Ok(fixed.value.(specs := specs.value));
  }

  // --------------------------------------------------------------- round trip

  /** Decoded immediate values have the padding they were sent with. */
  function Normal(s: LearnSpec): LearnSpec {
    match s
    case MatchImmediate(dst, value, nBits) => MatchImmediate(dst, Padded(value, ValueLen(nBits)), nBits)
    case LoadImmediate(dst, value, nBits) => LoadImmediate(dst, Padded(value, ValueLen(nBits)), nBits)
    case _ => s
  }

  /** The one legal spec whose header is zero, which also marks the end of the specs. */
  predicate LooksLikeEnd(s: LearnSpec) { s.MatchField? && s.nBits == 1 }

  /** The specs before the first that looks like the end, in normal form. */
  function Survivors(specs: seq<LearnSpec>): seq<LearnSpec> {
    if specs == [] || LooksLikeEnd(specs[0]) then [] else [Normal(specs[0])] + Survivors(specs[1..])
  }

  function Packed(source: nat, destination: nat, low: nat): nat { (source * 4 + destination) * 0x800 + low }

  lemma {:induction false} HeaderSum(s: LearnSpec)
    requires Encodable(s)
    ensures Header(s) == Packed(Source(s), Destination(s), s.nBits - 1)
  {
    Pow2Values();
    OrDisjoint(Source(s) * 4 + Destination(s), s.nBits - 1, 11);
    assert LessOne(s.nBits) == s.nBits - 1;
  }

  lemma {:induction false} BitFields(source: nat, destination: nat, low: nat)
    requires source < 2 && destination < 4 && low < 0x800
    ensures var h := Packed(source, destination, low);
            h % 0x800 == low && h / 0x2000 % 2 == source && h / 0x800 % 4 == destination
  {
    assert Packed(source, destination, low) / 0x800 == source * 4 + destination;
  }

  lemma {:induction false} HeaderBits(s: LearnSpec)
    requires Encodable(s)
    ensures var h := Header(s);
            && h % 0x800 + 1 == s.nBits && h / 0x2000 % 2 == Source(s) && h / 0x800 % 4 == Destination(s)
  {
    HeaderSum(s);
    BitFields(Source(s), Destination(s), s.nBits - 1);
  }

  lemma {:induction false} SubfieldReadBack(data: seq<byte>, i: nat, field: u32)
    requires i + 6 <= |data| && data[i..i + 6] == Subfield(field)
    ensures FieldAt(data, i) == field
  {
    assert data[i..i + 4] == data[i..i + 6][..4] == Be(field, 4);
    Pow256Values();
    FromBeBe(field, 4);
  }

  lemma {:induction false} TwoSubfields(src: u32, dst: u32, rest: seq<byte>)
    ensures var data := Subfield(src) + Subfield(dst) + rest; FieldAt(data, 0) == src && FieldAt(data, 6) == dst
  {
    var data := Subfield(src) + Subfield(dst) + rest;
    assert data[0..6] == Subfield(src) && data[6..12] == Subfield(dst);
    SubfieldReadBack(data, 0, src);
    SubfieldReadBack(data, 6, dst);
  }

  lemma {:induction false} ValueAndSubfield(value: seq<byte>, dst: u32, rest: seq<byte>)
    ensures var data := value + Subfield(dst) + rest; data[..|value|] == value && FieldAt(data, |value|) == dst
  {
    var data := value + Subfield(dst) + rest;
    assert data[|value|..|value| + 6] == Subfield(dst);
    SubfieldReadBack(data, |value|, dst);
  }

  lemma {:induction false} BodyReadBack(s: LearnSpec, rest: seq<byte>)
    requires Encodable(s)
    ensures ReadBody(Header(s), Body(s) + rest) == Ok((Normal(s), |Body(s)|))
  {
    HeaderBits(s);
    match s {
      case MatchField(src, dst, _) => TwoSubfields(src, dst, rest);
      case LoadField(src, dst, _) => TwoSubfields(src, dst, rest);
      case MatchImmediate(dst, value, nBits) => ValueAndSubfield(Padded(value, ValueLen(nBits)), dst, rest);
      case LoadImmediate(dst, value, nBits) => ValueAndSubfield(Padded(value, ValueLen(nBits)), dst, rest);
      case OutputField(src, _) =>
        assert (Subfield(src) + rest)[0..6] == Subfield(src);
        SubfieldReadBack(Subfield(src) + rest, 0, src);
    }
  }

  /** The first spec of a list comes first on the wire. */
  lemma {:induction false} SpecsBytesFirst(specs: seq<LearnSpec>)
    requires specs != []
    ensures SpecsBytes(specs) == SpecBytes(specs[0]) + SpecsBytes(specs[1..])
    decreases |specs|
  {
    var n := |specs| - 1;
    if n == 0 {
      assert specs[..0] == [] && specs[1..] == [];
      NilConcat(SpecBytes(specs[0]));
    } else {
      SpecsBytesFirst(specs[..n]);
      MiddleSame(specs);
      Associative(SpecBytes(specs[0]), SpecsBytes(specs[..n][1..]), SpecBytes(specs[n]));
    }
  }

  lemma {:induction false} MiddleSame(specs: seq<LearnSpec>)
    requires |specs| > 1
    ensures SpecsBytes(specs[1..]) == SpecsBytes(specs[..|specs| - 1][1..]) + SpecBytes(specs[|specs| - 1])
  {
    assert specs[1..][..|specs| - 2] == specs[..|specs| - 1][1..];
  }

  /** Padding reads as the end. */
  lemma {:induction false} PaddingEnds(pad: nat)
    ensures ReadSpecs(Zeros(pad)) == Ok([])
  {
    if pad >= 2 {
      assert Zeros(pad)[..2] == [0, 0];
      assert FromBe([0, 0]) == FromBe([0, 0][..1]) * 256 && FromBe([0, 0][..1]) == FromBe([0, 0][..1][..0]) * 256;
    }
  }

  /** Specs followed by padding decode to the normal forms of those before the first that looks like the end. */
  lemma {:induction false} SpecsRoundTrip(specs: seq<LearnSpec>, pad: nat)
    requires AllEncodable(specs)
    ensures ReadSpecs(SpecsBytes(specs) + Zeros(pad)) == Ok(Survivors(specs))
    decreases |specs|
  {
    if specs == [] {
      assert [] + Zeros(pad) == Zeros(pad);
      PaddingEnds(pad);
    } else {
      var s, rest := specs[0], SpecsBytes(specs[1..]) + Zeros(pad);
      assert s in specs;
      SpecsBytesFirst(specs);
      FirstSpecReadBack(s, rest);
      Associative(SpecBytes(s), SpecsBytes(specs[1..]), Zeros(pad));
      if !LooksLikeEnd(s) {
        SpecsRoundTrip(specs[1..], pad);
      }
    }
  }

  lemma {:induction false} HeadSlices(head: seq<byte>, body: seq<byte>, rest: seq<byte>)
    requires |head| == 2
    ensures var data := head + body + rest;
            data[..2] == head && data[2..] == body + rest && data[2 + |body|..] == rest
  {
  }

  lemma {:induction false} FirstSpecReadBack(s: LearnSpec, rest: seq<byte>)
    requires Encodable(s)
    ensures ReadSpecs(SpecBytes(s) + rest) == if LooksLikeEnd(s) then Ok([])
            else Prepended([Normal(s)], ReadSpecs(rest))
  {
    HeaderZero(s);
    TwoBytes(Header(s));
    HeadSlices(Be(Header(s), 2), Body(s), rest);
    BodyReadBack(s, rest);
    ReadStep(SpecBytes(s) + rest, Header(s), rest);
  }

  lemma {:induction false} HeaderZero(s: LearnSpec)
    ensures Header(s) == 0 <==> LooksLikeEnd(s)
  {
  }

  lemma {:induction false} ReadStep(data: seq<byte>, header: u16, rest: seq<byte>)
    requires |data| >= 2 && FromBe(data[..2]) == header
    requires header != 0 ==> ReadBody(header, data[2..]).Ok? && data[2 + ReadBody(header, data[2..]).value.1..] == rest
    ensures ReadSpecs(data) == if header == 0 then Ok([])
            else Prepended([ReadBody(header, data[2..]).value.0], ReadSpecs(rest))
  {
  }

  /** Nothing is lost exactly when no spec looks like the end. */
  lemma {:induction false} SurvivorsAll(specs: seq<LearnSpec>)
    ensures |Survivors(specs)| == |specs| <==> forall s :: s in specs ==> !LooksLikeEnd(s)
    ensures |Survivors(specs)| <= |specs|
    ensures forall i :: 0 <= i < |Survivors(specs)| ==> Survivors(specs)[i] == Normal(specs[i])
    decreases |specs|
  {
    if specs != [] && !LooksLikeEnd(specs[0]) {
      SurvivorsAll(specs[1..]);
      assert forall s :: s in specs <==> s == specs[0] || s in specs[1..];
    }
  }

  /** An immediate value that fills its words. */
  predicate Full(s: LearnSpec) { s.MatchImmediate? || s.LoadImmediate? ==> |s.value| == ValueLen(s.nBits) }

  /** Exactly the values that fill their words are sent as they are; others come back padded or cut. */
  lemma {:induction false} NormalIffFull(s: LearnSpec)
    ensures Normal(s) == s <==> Full(s)
  {
    if s.MatchImmediate? || s.LoadImmediate? {
      if |s.value| == ValueLen(s.nBits) {
        assert Padded(s.value, ValueLen(s.nBits)) == s.value;
      }
    }
  }

  lemma {:induction false} FixedReadBack(l: NxLearn, rest: seq<byte>)
    ensures var data := FixedBytes(l) + rest;
            && HeaderAt(data) == l.idleTimeout && HeaderAt(data[2..]) == l.hardTimeout
               && HeaderAt(data[4..]) == l.priority
            && LongAt(data[6..]) == l.cookie && HeaderAt(data[14..]) == l.flags && data[16] == l.tableId
            && HeaderAt(data[18..]) == l.finIdleTimeout && HeaderAt(data[20..]) == l.finHardTimeout
               && data[22..] == rest
  {
    var data := FixedBytes(l) + rest;
    assert data[..2] == Be(l.idleTimeout, 2) && data[2..][..2] == Be(l.hardTimeout, 2)
           && data[4..][..2] == Be(l.priority, 2);
    assert data[6..][..8] == Be(l.cookie, 8) && data[14..][..2] == Be(l.flags, 2);
    assert data[18..][..2] == Be(l.finIdleTimeout, 2) && data[20..][..2] == Be(l.finHardTimeout, 2);
    TwoBytes(l.idleTimeout);
    TwoBytes(l.hardTimeout);
    TwoBytes(l.priority);
    TwoBytes(l.flags);
    TwoBytes(l.finIdleTimeout);
    TwoBytes(l.finHardTimeout);
    EightBytes(l.cookie);
  }

  lemma {:induction false} EightBytes(n: u64)
    ensures FromBe(Be(n, 8)) == n
  {
    Pow256Values();
    FromBeBe(n, 8);
  }

  /** The fields and specs of an encoded action, up to the specs from the first that looks like the end. */
  lemma {:induction false} LearnReadBack(l: NxLearn)
    requires AllEncodable(l.specs)
    ensures DecodedLearn(LearnBytes(l)) == Ok(l.(specs := Survivors(l.specs)))
  {
    var pad := LearnLength(l) - 32 - |SpecsBytes(l.specs)|;
    Associative(FixedBytes(l), SpecsBytes(l.specs), Zeros(pad));
    FixedReadBack(l, SpecsBytes(l.specs) + Zeros(pad));
    SpecsRoundTrip(l.specs, pad);
  }

  /** Whatever is read as a spec can be sent as one. */
  lemma {:induction false} ReadSpecsEncodable(data: seq<byte>)
    ensures ReadSpecs(data).Ok? ==> AllEncodable(ReadSpecs(data).value)
    decreases |data|
  {
    if |data| >= 2 && HeaderAt(data) != 0 && ReadBody(HeaderAt(data), data[2..]).Ok? {
      var (spec, n) := ReadBody(HeaderAt(data), data[2..]).value;
      assert Encodable(spec);
      ReadSpecsEncodable(data[2 + n..]);
    }
  }

  function Normals(specs: seq<LearnSpec>): seq<LearnSpec> {
    seq(|specs|, i requires 0 <= i < |specs| => Normal(specs[i]))
  }

  /**
   Decoding gives the action back, its specs in normal form, exactly when every bit count fits its eleven bits and no
   spec looks like the end.
   */
  lemma {:induction false} LearnInvertedIff(l: NxLearn)
    ensures DecodedLearn(LearnBytes(l)) == Ok(l.(specs := Normals(l.specs)))
       <==> forall s :: s in l.specs ==> Encodable(s) && !LooksLikeEnd(s)
  {
    if DecodedLearn(LearnBytes(l)) == Ok(l.(specs := Normals(l.specs))) {
      DecodedEncodable(LearnBytes(l));
      NormalsEncodable(l.specs);
    }
    if AllEncodable(l.specs) {
      LearnReadBack(l);
      SurvivorsAll(l.specs);
      assert |Survivors(l.specs)| == |l.specs| ==> Survivors(l.specs) == Normals(l.specs);
    }
  }

  /** Decoding gives exactly the action back if and only if, besides, every immediate value fills its words. */
  lemma {:induction false} LearnExactIff(l: NxLearn)
    ensures DecodedLearn(LearnBytes(l)) == Ok(l) <==>
            forall s :: s in l.specs ==> Encodable(s) && !LooksLikeEnd(s) && Full(s)
  {
    if DecodedLearn(LearnBytes(l)) == Ok(l) {
      DecodedEncodable(LearnBytes(l));
    }
    if AllEncodable(l.specs) {
      LearnReadBack(l);
      SurvivorsAll(l.specs);
      SurvivorsSameIff(l.specs);
    }
  }

  lemma {:induction false} SurvivorsSameIff(specs: seq<LearnSpec>)
    ensures Survivors(specs) == specs <==> forall s :: s in specs ==> !LooksLikeEnd(s) && Full(s)
    decreases |specs|
  {
    if specs != [] {
      var s, rest := specs[0], specs[1..];
      NormalIffFull(s);
      SurvivorsSameIff(rest);
      assert specs == [s] + rest;
      assert !LooksLikeEnd(s) ==> Survivors(specs)[0] == Normal(s) && Survivors(specs)[1..] == Survivors(rest);
    }
  }

  lemma {:induction false} DecodedEncodable(data: seq<byte>)
    ensures DecodedLearn(data).Ok? ==> AllEncodable(DecodedLearn(data).value.specs)
  {
    if |data| >= 20 {
      ReadSpecsEncodable(data[if |data| >= 22 then 22 else 20..]);
    }
  }

  lemma {:induction false} NormalsEncodable(specs: seq<LearnSpec>)
    requires AllEncodable(Normals(specs))
    ensures AllEncodable(specs)
  {
    forall s | s in specs
      ensures Encodable(s)
    {
      var i :| 0 <= i < |specs| && specs[i] == s;
      assert Normals(specs)[i] in Normals(specs);
    }
  }
}
