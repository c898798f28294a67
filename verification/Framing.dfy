/**
 The brace-depth scanner that cuts a byte stream into JSON objects, and why it is right:
 on every stream of RFC 8259 objects it finds exactly the objects.
 */
module Framing {
  import opened Common
  import opened Bytes
  import opened Seqs

  const QUOTE: byte := 0x22
  const BACKSLASH: byte := 0x5c
  const OPEN: byte := 0x7b
  const CLOSE: byte := 0x7d

  type pos = n: nat | n > 0 witness 1

  // ---------------------------------------------------------------- scanner

  /** `Idle` is `json_start == None`; `Complete` is the state in which the scanner has found a closing brace. */
  datatype Scanner = Idle | Inside(depth: pos, inString: bool, escapeNext: bool) | Complete

  function Step(sc: Scanner, b: byte): Scanner {
    match sc
    case Idle => if b == OPEN then Inside(1, false, false) else Idle
    case Complete => Complete
    case Inside(depth, inString, escapeNext) =>
      if escapeNext then sc.(escapeNext := false)
      else if b == BACKSLASH && inString then sc.(escapeNext := true)
      else if b == QUOTE then sc.(inString := !inString)
      else if b == OPEN && !inString then sc.(depth := depth + 1)
      else if b == CLOSE && !inString then
        if depth == 1 then Complete else sc.(depth := depth - 1)
      else sc
  }

  function Run(sc: Scanner, s: seq<byte>): Scanner
    decreases |s|
  {
    if s == [] then sc else Run(Step(sc, s[0]), s[1..])
  }

  /** Bytes consumed when the scanner first completes. */
  function FirstEnd(sc: Scanner, s: seq<byte>): (end: Option<nat>)
    ensures end.Some? ==> end.value <= |s|
    decreases |s|
  {
    if sc == Complete then Some(0)
    else if s == [] then None
    else
      match FirstEnd(Step(sc, s[0]), s[1..])
      case None => None
      case Some(n) => Some(n + 1)
  }

  /** Index of the first opening brace. */
  function FirstOpen(s: seq<byte>): (i: nat)
    ensures i <= |s|
    ensures forall k :: 0 <= k < i ==> s[k] != OPEN
    ensures i < |s| ==> s[i] == OPEN
  {
    if s == [] || s[0] == OPEN then 0 else 1 + FirstOpen(s[1..])
  }

  datatype Frame = Frame(start: nat, end: nat)

  /** The first complete object in `s`, as the half-open byte range `start..end`. */
  function FirstFrame(s: seq<byte>): (f: Option<Frame>)
    ensures f.Some? ==> f.value.start < f.value.end <= |s|
  {
    match FirstEnd(Idle, s)
    case None => None
    case Some(end) =>
      EndsAfterOpen(s);
      Some(Frame(FirstOpen(s), end))
  }

  lemma {:induction false} RunConcat(sc: Scanner, a: seq<byte>, b: seq<byte>)
    ensures Run(sc, a + b) == Run(Run(sc, a), b)
    decreases |a|
  {
    if a == [] {
      assert a + b == b;
    } else {
      ConsConcat(a, b);
      RunConcat(Step(sc, a[0]), a[1..], b);
    }
  }

  lemma {:induction false} RunComplete(s: seq<byte>)
    ensures Run(Complete, s) == Complete
  {
    if s != [] {
      RunComplete(s[1..]);
    }
  }

  /** Extending the buffer does not move a frame that is already there: the restarted scan is monotone. */
  lemma {:induction false} FirstEndConcat(sc: Scanner, a: seq<byte>, b: seq<byte>)
    ensures FirstEnd(sc, a).Some? ==> FirstEnd(sc, a + b) == FirstEnd(sc, a)
    ensures FirstEnd(sc, a).None? ==>
              FirstEnd(sc, a + b) == match FirstEnd(Run(sc, a), b)
                                     case None => None
                                     case Some(n) => Some(|a| + n)
    ensures FirstEnd(sc, a).None? <==> Run(sc, a) != Complete
    decreases |a|
  {
    if a == [] {
      assert a + b == b;
    } else if sc == Complete {
      RunComplete(a);
    } else {
      ConsConcat(a, b);
      FirstEndConcat(Step(sc, a[0]), a[1..], b);
    }
  }

  /** `FirstEnd` is the least prefix length on which the scanner has completed. */
  lemma {:induction false} FirstEndLeast(sc: Scanner, s: seq<byte>, n: nat)
    requires n <= |s|
    ensures FirstEnd(sc, s) == Some(n) <==>
            Run(sc, s[..n]) == Complete && (n > 0 ==> Run(sc, s[..n - 1]) != Complete)
  {
    SplitAt(s, n);
    FirstEndConcat(sc, s[..n], s[n..]);
    if n > 0 {
      SplitAt(s, n - 1);
      FirstEndConcat(sc, s[..n - 1], s[n - 1..]);
    }
  }

  lemma {:induction false} RunIdle(s: seq<byte>)
    requires forall k :: 0 <= k < |s| ==> s[k] != OPEN
    ensures Run(Idle, s) == Idle
  {
    if s != [] {
      RunIdle(s[1..]);
    }
  }

  lemma {:induction false} EndsAfterOpen(s: seq<byte>)
    ensures FirstEnd(Idle, s).Some? ==> FirstOpen(s) < FirstEnd(Idle, s).value
  {
    var i := FirstOpen(s);
    assert s == s[..i] + s[i..];
    RunIdle(s[..i]);
    FirstEndConcat(Idle, s[..i], s[i..]);
  }

  /** A frame found in a prefix of the stream is the frame of the whole stream. */
  lemma {:induction false} FirstFrameMonotone(a: seq<byte>, b: seq<byte>)
    requires FirstFrame(a).Some?
    ensures FirstFrame(a + b) == FirstFrame(a)
    ensures var f := FirstFrame(a).value;
            (a + b)[f.start..f.end] == a[f.start..f.end] && (a + b)[f.end..] == a[f.end..] + b
  {
    FirstEndConcat(Idle, a, b);
    EndsAfterOpen(a);
    assert (a + b)[..|a|] == a;
    assert FirstOpen(a + b) == FirstOpen(a);
  }

  // ------------------------------------------------------- RFC 8259 objects

  /** One item of a JSON string: an unescaped byte, a two-byte escape, or a `\u` escape (RFC 8259, section 7). */
  datatype Piece = Plain(b: byte) | Escape(b: byte) | Unicode(hex: seq<byte>)

  /** JSON texts with the white space they are written with. `Scalar` is a number, `true`, `false` or `null`. */
  datatype Value =
    | Scalar(text: seq<byte>)
    | Str(pieces: seq<Piece>)
    | Arr(blank: seq<byte>, elems: Elems)
    | Obj(blank: seq<byte>, members: Members)

  datatype Elems = NoElems | Elem(before: seq<byte>, v: Value, after: seq<byte>, rest: Elems)

  datatype Members =
    | NoMembers
    | Member(before: seq<byte>, key: seq<Piece>, colon: seq<byte>, v: Value, after: seq<byte>, rest: Members)

  predicate IsBlank(b: byte) { b == 0x20 || b == 0x09 || b == 0x0a || b == 0x0d }

  predicate Blank(s: seq<byte>) { forall k :: 0 <= k < |s| ==> IsBlank(s[k]) }

  predicate IsHex(b: byte) { 0x30 <= b <= 0x39 || 0x41 <= b <= 0x46 || 0x61 <= b <= 0x66 }

  /** Letters, digits, sign and point: everything a number or a literal name is written with. */
  predicate IsScalarByte(b: byte) {
    0x30 <= b <= 0x39 || 0x41 <= b <= 0x5a || 0x61 <= b <= 0x7a || b == 0x2b || b == 0x2d || b == 0x2e
  }

  predicate PieceOk(p: Piece) {
    match p
    case Plain(b) => b >= 0x20 && b != QUOTE && b != BACKSLASH
    case Escape(b) => b in {QUOTE, BACKSLASH, 0x2f, 0x62, 0x66, 0x6e, 0x72, 0x74}
    case Unicode(hex) => |hex| == 4 && forall k :: 0 <= k < 4 ==> IsHex(hex[k])
  }

  predicate PiecesOk(ps: seq<Piece>) { forall k :: 0 <= k < |ps| ==> PieceOk(ps[k]) }

  /** The colon between a key and its value, with the white space around it. */
  predicate ColonOk(s: seq<byte>) {
    exists k :: 0 <= k < |s| && s[k] == 0x3a && Blank(s[..k]) && Blank(s[k + 1..])
  }

  predicate WellFormed(v: Value) {
    match v
    case Scalar(text) => text != [] && forall k :: 0 <= k < |text| ==> IsScalarByte(text[k])
    case Str(ps) => PiecesOk(ps)
    case Arr(blank, elems) => Blank(blank) && ElemsOk(elems)
    case Obj(blank, members) => Blank(blank) && MembersOk(members)
  }

  predicate ElemsOk(es: Elems) {
    match es
    case NoElems => true
    case Elem(before, v, after, rest) => Blank(before) && WellFormed(v) && Blank(after) && ElemsOk(rest)
  }

  predicate MembersOk(ms: Members) {
    match ms
    case NoMembers => true
    case Member(before, key, colon, v, after, rest) =>
      Blank(before) && PiecesOk(key) && ColonOk(colon) && WellFormed(v) && Blank(after) && MembersOk(rest)
  }

  function RenderPiece(p: Piece): seq<byte> {
    match p
    case Plain(b) => [b]
    case Escape(b) => [BACKSLASH, b]
    case Unicode(hex) => [BACKSLASH, 0x75] + hex
  }

  function RenderPieces(ps: seq<Piece>): seq<byte> {
    if ps == [] then [] else RenderPiece(ps[0]) + RenderPieces(ps[1..])
  }

  function RenderStr(ps: seq<Piece>): seq<byte> { [QUOTE] + RenderPieces(ps) + [QUOTE] }

  function Render(v: Value): (s: seq<byte>)
  {
    match v
    case Scalar(text) => text
    case Str(ps) => RenderStr(ps)
    case Arr(blank, elems) => [0x5b] + blank + RenderElems(elems) + [0x5d]
    case Obj(blank, members) => [OPEN] + (blank + RenderMembers(members)) + [CLOSE]
  }

  function RenderElems(es: Elems): seq<byte> {
    match es
    case NoElems => []
    case Elem(before, v, after, rest) =>
      before + Render(v) + after + (if rest.NoElems? then [] else [0x2c]) + RenderElems(rest)
  }

  function RenderMembers(ms: Members): seq<byte> {
    match ms
    case NoMembers => []
    case Member(before, key, colon, v, after, rest) =>
      before + RenderStr(key) + colon + Render(v) + after
      + (if rest.NoMembers? then [] else [0x2c]) + RenderMembers(rest)
  }

  // ------------------------------------------- scanning a well-formed object

  /** Between tokens at depth `d`. */
  function At(d: pos): Scanner { Inside(d, false, false) }

  predicate Quiet(s: seq<byte>) {
    forall k :: 0 <= k < |s| ==> s[k] != QUOTE && s[k] != BACKSLASH && s[k] != OPEN && s[k] != CLOSE
  }

  lemma {:induction false} RunQuiet(sc: Scanner, s: seq<byte>)
    requires Quiet(s) && sc.Inside? && !sc.escapeNext
    ensures Run(sc, s) == sc
  {
    if s != [] {
      RunQuiet(sc, s[1..]);
    }
  }

  lemma {:induction false} RunPiece(sc: Scanner, p: Piece)
    requires PieceOk(p) && sc.Inside? && sc.inString && !sc.escapeNext
    ensures Run(sc, RenderPiece(p)) == sc
  {
    match p
    case Plain(b) =>
      assert Run(sc, [b]) == Run(Step(sc, b), []);
    case Escape(b) =>
      var s := [BACKSLASH, b];
      assert s[1..] == [b] && [b][1..] == [];
      assert Run(sc, s) == Run(Step(sc, BACKSLASH), [b]) == Run(Step(Step(sc, BACKSLASH), b), []);
    case Unicode(hex) =>
      var s := [BACKSLASH, 0x75] + hex;
      assert s[1..] == [0x75] + hex && s[1..][1..] == hex;
      assert Run(sc, s) == Run(Step(Step(sc, BACKSLASH), 0x75), hex);
      RunQuiet(sc, hex);
  }

  lemma {:induction false} RunPieces(sc: Scanner, ps: seq<Piece>)
    requires PiecesOk(ps) && sc.Inside? && sc.inString && !sc.escapeNext
    ensures Run(sc, RenderPieces(ps)) == sc
  {
    if ps != [] {
      RunPiece(sc, ps[0]);
      RunConcat(sc, RenderPiece(ps[0]), RenderPieces(ps[1..]));
      RunPieces(sc, ps[1..]);
    }
  }

  lemma {:induction false} RunOne(sc: Scanner, b: byte)
    ensures Run(sc, [b]) == Step(sc, b)
  {
  }

  lemma {:induction false} RunStr(d: pos, ps: seq<Piece>)
    requires PiecesOk(ps)
    ensures Run(At(d), RenderStr(ps)) == At(d)
  {
    RunConcat(At(d), [QUOTE] + RenderPieces(ps), [QUOTE]);
    RunConcat(At(d), [QUOTE], RenderPieces(ps));
    RunOne(At(d), QUOTE);
    RunPieces(Inside(d, true, false), ps);
    RunOne(Inside(d, true, false), QUOTE);
  }

  lemma {:induction false} ColonIsQuiet(s: seq<byte>)
    requires ColonOk(s)
    ensures Quiet(s)
  {
  }

  /** Any value nested in an object leaves the scanner where it was, having never completed. */
  lemma {:induction false} RunValue(d: pos, v: Value)
    requires WellFormed(v)
    ensures Run(At(d), Render(v)) == At(d)
    decreases v
  {
    match v
    case Scalar(text) => RunQuiet(At(d), text);
    case Str(ps) => RunStr(d, ps);
    case Arr(blank, elems) =>
      var inner := [0x5b] + blank;
      RunConcat(At(d), inner + RenderElems(elems), [0x5d]);
      RunConcat(At(d), inner, RenderElems(elems));
      RunQuiet(At(d), inner);
      RunElems(d, elems);
      RunQuiet(At(d), [0x5d]);
    case Obj(blank, members) =>
      RunBody(At(d), v);
      RunConcat(At(d), [OPEN] + (blank + RenderMembers(members)), [CLOSE]);
      RunOne(At(d + 1), CLOSE);
  }

  /** From the opening brace up to, but not including, the closing one. */
  lemma {:induction false} RunBody(sc: Scanner, v: Value)
    requires WellFormed(v) && v.Obj?
    requires sc == Idle || (sc.Inside? && sc == At(sc.depth))
    ensures Run(sc, [OPEN] + (v.blank + RenderMembers(v.members))) == At(if sc == Idle then 1 else sc.depth + 1)
    decreases v, 0
  {
    var d: pos := if sc == Idle then 1 else sc.depth + 1;
    RunConcat(sc, [OPEN], v.blank + RenderMembers(v.members));
    RunOne(sc, OPEN);
    RunConcat(At(d), v.blank, RenderMembers(v.members));
    RunQuiet(At(d), v.blank);
    RunMembers(d, v.members);
  }

  lemma {:induction false} RunElems(d: pos, es: Elems)
    requires ElemsOk(es)
    ensures Run(At(d), RenderElems(es)) == At(d)
    decreases es
  {
    match es
    case NoElems =>
    case Elem(before, v, after, rest) =>
      var comma: seq<byte> := if rest.NoElems? then [] else [0x2c];
      RunConcat(At(d), before + Render(v) + after + comma, RenderElems(rest));
      RunConcat(At(d), before + Render(v) + after, comma);
      RunConcat(At(d), before + Render(v), after);
      RunConcat(At(d), before, Render(v));
      RunQuiet(At(d), before);
      RunValue(d, v);
      RunQuiet(At(d), after);
      RunQuiet(At(d), comma);
      RunElems(d, rest);
  }

  lemma {:induction false} RunMembers(d: pos, ms: Members)
    requires MembersOk(ms)
    ensures Run(At(d), RenderMembers(ms)) == At(d)
    decreases ms
  {
    match ms
    case NoMembers =>
    case Member(before, key, colon, v, after, rest) =>
      var comma: seq<byte> := if rest.NoMembers? then [] else [0x2c];
      var s1 := before + RenderStr(key);
      RunConcat(At(d), s1 + colon + Render(v) + after + comma, RenderMembers(rest));
      RunConcat(At(d), s1 + colon + Render(v) + after, comma);
      RunConcat(At(d), s1 + colon + Render(v), after);
      RunConcat(At(d), s1 + colon, Render(v));
      RunConcat(At(d), s1, colon);
      RunConcat(At(d), before, RenderStr(key));
      RunQuiet(At(d), before);
      RunStr(d, key);
      ColonIsQuiet(colon);
      RunQuiet(At(d), colon);
      RunValue(d, v);
      RunQuiet(At(d), after);
      RunQuiet(At(d), comma);
      RunMembers(d, rest);
  }

  predicate NoOpen(s: seq<byte>) { forall k :: 0 <= k < |s| ==> s[k] != OPEN }

  /**
   Framing refines JSON: the first frame of a stream that starts with an object, after anything
   without an opening brace, is that object, byte for byte; what follows does not matter.
   */
  lemma {:induction false} FramingExact(gap: seq<byte>, v: Value, suffix: seq<byte>)
    requires NoOpen(gap) && WellFormed(v) && v.Obj?
    ensures var s := gap + Render(v) + suffix;
            FirstFrame(s) == Some(Frame(|gap|, |gap| + |Render(v)|))
            && s[|gap|..|gap| + |Render(v)|] == Render(v)
            && s[|gap| + |Render(v)|..] == suffix
  {
    var body := [OPEN] + (v.blank + RenderMembers(v.members));
    var whole := gap + Render(v);
    assert Render(v) == body + [CLOSE];
    assert whole == (gap + body) + [CLOSE];
    RunConcat(Idle, gap, body);
    RunIdle(gap);
    RunBody(Idle, v);
    RunConcat(Idle, gap + body, [CLOSE]);
    RunOne(At(1), CLOSE);
    FirstEndLeast(Idle, whole, |whole|);
    assert whole[..|whole|] == whole && whole[..|whole| - 1] == gap + body;
    assert whole[..|gap|] == gap && whole[|gap|] == OPEN;
    assert FirstOpen(whole) == |gap|;
    FirstFrameMonotone(whole, suffix);
  }

  /** Every proper, non-empty prefix of an object leaves the scanner inside it: depth does not reach zero early. */
  lemma {:induction false} DepthStaysPositive(v: Value, n: nat)
    requires WellFormed(v) && v.Obj? && 0 < n < |Render(v)|
    ensures Run(Idle, Render(v)[..n]).Inside?
  {
    var s := Render(v);
    var p, q := s[..n], s[n..|s| - 1];
    var body := [OPEN] + (v.blank + RenderMembers(v.members));
    assert s == body + [CLOSE];
    assert p + q == body;
    RunBody(Idle, v);
    RunConcat(Idle, p, q);
    RunComplete(q);
    StaysStarted(p);
  }

  lemma {:induction false} StaysStarted(p: seq<byte>)
    requires p != [] && p[0] == OPEN
    ensures Run(Idle, p) != Idle
  {
    StaysInside(At(1), p[1..]);
  }

  lemma {:induction false} StaysInside(sc: Scanner, s: seq<byte>)
    requires sc != Idle
    ensures Run(sc, s) != Idle
    decreases |s|
  {
    if s != [] {
      StaysInside(Step(sc, s[0]), s[1..]);
    }
  }
}
