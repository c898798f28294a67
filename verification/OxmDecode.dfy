/**
 The two decoding loops, in `decode` and in `decode_oxm`, over any update `apply` that one field makes to the value
 under construction.
 */
module OxmDecode {
  import opened Common
  import opened Bytes
  import opened Oxm
  import opened Seqs

  function Fold<M>(apply: (M, Tlv) -> M, m: M, ts: seq<Tlv>): M
    decreases |ts|
  {
    if ts == [] then m else Fold(apply, apply(m, ts[0]), ts[1..])
  }

  method ReadHeader(data: seq<byte>, offset: nat) returns (oxmClass: u16, field: nat, hasMask: bool, length: nat)
    requires offset + 4 <= |data|
    ensures (oxmClass, field, hasMask, length) == HeaderAt(data, offset)
  {
    var header := ((data[offset] as nat * 256 + data[offset + 1]) * 256 + data[offset + 2]) * 256 + data[offset + 3];
    HeaderNumber(data[offset], data[offset + 1], data[offset + 2], data[offset + 3]);
    oxmClass, field := header / 0x1_0000, header / 0x200 % 0x80;
    hasMask, length := header / 0x100 % 2 != 0, header % 0x100;
  }

  ghost function HeaderAt(data: seq<byte>, offset: nat): (u16, nat, bool, nat)
    requires offset + 4 <= |data|
  {
    (data[offset] as nat * 256 + data[offset + 1], data[offset + 2] / 2, data[offset + 2] % 2 == 1, data[offset + 3])
  }

  ghost function FieldAt(data: seq<byte>, offset: nat): Tlv
    requires offset + 4 <= |data| && offset + 4 + HeaderAt(data, offset).3 <= |data|
  {
    var h := HeaderAt(data, offset);
    Tlv(h.0, h.1, h.2, data[offset + 4..offset + 4 + h.3])
  }

  /** What remains of a loop that stands at `from`. */
  ghost function FoldFrom<M>(apply: (M, Tlv) -> M, m: M, data: seq<byte>, from: nat): M
    requires from <= |data|
  {
    Fold(apply, m, TlvsIn(data[from..]))
  }

  /** Dispatch on the class of the field read at `from`: what remains to be folded afterwards is the rest. */
  method DecodeField<M>(apply: (M, Tlv) -> M, m: M, t: Tlv, ghost data: seq<byte>, ghost from: nat, ghost end: nat)
      returns (r: M)
    requires from + 4 <= |data| && end == from + 4 + HeaderAt(data, from).3 <= |data| && t == FieldAt(data, from)
    ensures FoldFrom(apply, r, data, end) == FoldFrom(apply, m, data, from)
  {
    FieldStep(apply, data, from, m);
    r := apply(m, t);
  }

  /** `decode_oxm`: the fold of the per-field update over the fields there are. */
  method DecodeOxm<M>(data: seq<byte>, any: M, apply: (M, Tlv) -> M) returns (m: M)
    ensures m == Fold(apply, any, TlvsIn(data))
  {
    m := any;
    var offset := 0;
    while offset + 4 <= |data|
      invariant 0 <= offset <= |data|
      invariant FoldFrom(apply, m, data, offset) == FoldFrom(apply, any, data, 0)
      decreases |data| - offset
    {
      var oxmClass, field, hasMask, length := ReadHeader(data, offset);
      ghost var from := offset;
      offset := offset + 4;
      if offset + length > |data| {
        NoField(apply, data, from, m);
        break;
      }
      var t := Tlv(oxmClass, field, hasMask, data[offset..offset + length]);
      m := DecodeField(apply, m, t, data, from, offset + length);
      offset := offset + length;
    }
  }

  /** One turn of the loop: the field at `from` is applied, and the rest remains to be folded. */
  lemma {:induction false} FieldStep<M>(apply: (M, Tlv) -> M, data: seq<byte>, from: nat, m: M)
    requires from + 4 <= |data| && from + 4 + HeaderAt(data, from).3 <= |data|
    ensures FoldFrom(apply, m, data, from)
         == FoldFrom(apply, apply(m, FieldAt(data, from)), data, from + 4 + HeaderAt(data, from).3)
  {
    var t := FieldAt(data, from);
    FieldFound(data, from);
    FoldNext(apply, m, t, TlvsIn(data[from + 4 + |t.payload|..]));
  }

  lemma {:induction false} FieldFound(data: seq<byte>, from: nat)
    requires from + 4 <= |data| && from + 4 + HeaderAt(data, from).3 <= |data|
    ensures TlvsIn(data[from..]) == [FieldAt(data, from)] + TlvsIn(data[from + 4 + HeaderAt(data, from).3..])
  {
    FirstFieldAt(data, from);
    DropDrop(data, from, 4 + HeaderAt(data, from).3);
  }

  lemma {:induction false} FirstFieldAt(data: seq<byte>, from: nat)
    requires from + 4 <= |data| && from + 4 + HeaderAt(data, from).3 <= |data|
    ensures FirstTlv(data[from..]) == Some(FieldAt(data, from))
  {
    var rest := data[from..];
    assert rest[0] == data[from] && rest[1] == data[from + 1] && rest[2] == data[from + 2] && rest[3] == data[from + 3];
    SliceOfDrop(data, from, 4, 4 + HeaderAt(data, from).3);
  }

  lemma {:induction false} FoldNext<M>(apply: (M, Tlv) -> M, m: M, t: Tlv, ts: seq<Tlv>)
    ensures Fold(apply, m, [t] + ts) == Fold(apply, apply(m, t), ts)
  {
  }

  /** A field cut off by the end of the data ends the loop. */
  lemma {:induction false} NoField<M>(apply: (M, Tlv) -> M, data: seq<byte>, from: nat, m: M)
    requires from + 4 > |data| >= from || (from + 4 <= |data| && from + 4 + HeaderAt(data, from).3 > |data|)
    ensures FoldFrom(apply, m, data, from) == m
  {
  }

  datatype Error = TooShort | UnsupportedType(t: nat) | Truncated | Other

  /** What a call does: return, or stop the program because a slice has its start after its end. */
  datatype Outcome<T> = Returned(result: Result<T, Error>) | Panicked

  /** The match at the front of `data`, and how many bytes it takes up with its padding. */
  function Decoded<M>(data: seq<byte>, any: M, apply: (M, Tlv) -> M): Outcome<(M, nat)> {
    if |data| < 4 then Returned(Err(TooShort))
    else
      var matchType, matchLen := FromBe(data[0..2]), FromBe(data[2..4]);
      if matchType != 1 then Returned(Err(UnsupportedType(matchType)))
      else if |data| < matchLen then Returned(Err(Truncated))
      else if matchLen < 4 then Panicked
      else Returned(Ok((Fold(apply, any, TlvsIn(data[4..matchLen])), PadTo8(matchLen))))
  }

  /** `decode`: a second copy of the loop, over the bytes between header and padding. */
  method Decode<M>(data: seq<byte>, any: M, apply: (M, Tlv) -> M) returns (r: Outcome<(M, nat)>)
    ensures r == Decoded(data, any, apply)
  {
    if |data| < 4 {
      return Returned(Err(TooShort));
    }
    var matchType, matchLen := FromBe(data[0..2]), FromBe(data[2..4]);
    if matchType != 1 {
      return Returned(Err(UnsupportedType(matchType)));
    }
    if |data| < matchLen {
      return Returned(Err(Truncated));
    }
    if 4 > matchLen {
      return Panicked;
    }
    var m := DecodeBetween(data[4..matchLen], any, apply);
    r := Returned(Ok((m, (matchLen + 7) / 8 * 8)));
  }

  /** The second copy of the loop. */
  method DecodeBetween<M>(oxm: seq<byte>, any: M, apply: (M, Tlv) -> M) returns (m: M)
    ensures m == Fold(apply, any, TlvsIn(oxm))
  {
    m := any;
    var offset := 0;
    while offset + 4 <= |oxm|
      invariant 0 <= offset <= |oxm|
      invariant FoldFrom(apply, m, oxm, offset) == FoldFrom(apply, any, oxm, 0)
      decreases |oxm| - offset
    {
      var oxmClass, field, hasMask, length := ReadHeader(oxm, offset);
      ghost var from := offset;
      offset := offset + 4;
      if offset + length > |oxm| {
        NoField(apply, oxm, from, m);
        break;
      }
      var t := Tlv(oxmClass, field, hasMask, oxm[offset..offset + length]);
      m := DecodeField(apply, m, t, oxm, from, offset + length);
      offset := offset + length;
    }
  }

  /** Exactly which inputs stop the program: an OXM match whose length field is below its own header's four bytes. */
  lemma {:induction false} DecodePanicsIff<M>(data: seq<byte>, any: M, apply: (M, Tlv) -> M)
    ensures Decoded(data, any, apply).Panicked? <==>
            |data| >= 4 && data[0] == 0 && data[1] == 1 && data[2] == 0 && data[3] < 4
  {
    if |data| >= 4 {
      TwoByteNumber(data[0..2]);
      TwoByteNumber(data[2..4]);
    }
  }

  /**
   Exactly which inputs decode: an OXM match whose length field covers its header and does not exceed the input. What it
   is said to take up is that length and the padding to eight bytes, which need not be there.
   */
  lemma {:induction false} DecodeOkIff<M>(data: seq<byte>, any: M, apply: (M, Tlv) -> M)
    ensures var r := Decoded(data, any, apply);
            var length := if |data| >= 4 then data[2] as nat * 256 + data[3] else 0;
            && (r.Returned? && r.result.Ok? <==> 4 <= length <= |data| && data[0] == 0 && data[1] == 1)
            && (r.Returned? && r.result.Ok? ==> r.result.value.1 % 8 == 0 && length <= r.result.value.1 < length + 8)
  {
    if |data| >= 4 {
      TwoByteNumber(data[0..2]);
      TwoByteNumber(data[2..4]);
    }
  }

  lemma {:induction false} TwoByteNumber(s: seq<byte>)
    requires |s| == 2
    ensures FromBe(s) == s[0] as nat * 256 + s[1]
  {
  }

  // ----------------------------------------------------------- fold properties

  lemma {:induction false} FoldConcat<M>(apply: (M, Tlv) -> M, m: M, a: seq<Tlv>, b: seq<Tlv>)
    ensures Fold(apply, m, a + b) == Fold(apply, Fold(apply, m, a), b)
    decreases |a|
  {
    if a == [] {
      assert a + b == b;
    } else {
      ConsConcat(a, b);
      FoldConcat(apply, apply(m, a[0]), a[1..], b);
    }
  }

  lemma {:induction false} FoldOne<M>(apply: (M, Tlv) -> M, m: M, t: Tlv)
    ensures Fold(apply, m, [t]) == apply(m, t)
  {
  }

  /** A field that never changes anything can be dropped wherever it stands. */
  lemma {:induction false} IdleFieldDropped<M>(apply: (M, Tlv) -> M, m: M, a: seq<Tlv>, t: Tlv, b: seq<Tlv>)
    requires forall x :: apply(x, t) == x
    ensures Fold(apply, m, a + [t] + b) == Fold(apply, m, a + b)
  {
    FoldConcat(apply, m, a + [t], b);
    FoldConcat(apply, m, a, [t]);
    FoldConcat(apply, m, a, b);
    FoldOne(apply, Fold(apply, m, a), t);
  }

  ghost predicate Commute<M(!new)>(apply: (M, Tlv) -> M, t: Tlv, u: Tlv) {
    forall x :: apply(apply(x, t), u) == apply(apply(x, u), t)
  }

  /** Neighbours whose updates commute can be swapped. */
  lemma {:induction false} NeighboursSwap<M(!new)>(apply: (M, Tlv) -> M, m: M, a: seq<Tlv>, t: Tlv, u: Tlv, b: seq<Tlv>)
    requires Commute(apply, t, u)
    ensures Fold(apply, m, a + [t, u] + b) == Fold(apply, m, a + [u, t] + b)
  {
    FoldConcat(apply, m, a + [t, u], b);
    FoldConcat(apply, m, a + [u, t], b);
    FoldConcat(apply, m, a, [t, u]);
    FoldConcat(apply, m, a, [u, t]);
    FoldConcat(apply, Fold(apply, m, a), [t], [u]);
    FoldConcat(apply, Fold(apply, m, a), [u], [t]);
    assert [t] + [u] == [t, u] && [u] + [t] == [u, t];
    FoldOne(apply, Fold(apply, m, a), t);
    FoldOne(apply, Fold(apply, m, a), u);
    FoldOne(apply, apply(Fold(apply, m, a), t), u);
    FoldOne(apply, apply(Fold(apply, m, a), u), t);
  }

  /** A field that commutes with all fields before it can be moved to the front. */
  lemma {:induction false} FieldToFront<M(!new)>(apply: (M, Tlv) -> M, m: M, a: seq<Tlv>, t: Tlv, b: seq<Tlv>)
    requires forall u :: u in a ==> Commute(apply, u, t)
    ensures Fold(apply, m, a + [t] + b) == Fold(apply, m, [t] + (a + b))
    decreases |a|
  {
    if a == [] {
      assert a + [t] + b == [t] + (a + b);
    } else {
      var n := |a| - 1;
      var u, front := a[n], a[..n];
      NeighboursSwap(apply, m, front, u, t, b);
      FieldToFront(apply, m, front, t, [u] + b);
      assert a + [t] + b == front + [u, t] + b && front + [t, u] + b == front + [t] + ([u] + b);
      assert front + ([u] + b) == a + b;
    }
  }

  lemma {:induction false} InBothOrders(ts: seq<Tlv>, us: seq<Tlv>, u: Tlv)
    requires multiset(ts) == multiset(us) && u in us
    ensures u in ts
  {
    assert u in multiset(us);
    assert u in multiset(ts);
  }

  lemma {:induction false} RemoveField(t: Tlv, rest: seq<Tlv>, a: seq<Tlv>, b: seq<Tlv>)
    requires multiset([t] + rest) == multiset(a + [t] + b)
    ensures multiset(rest) == multiset(a + b)
  {
    assert multiset(rest) == multiset([t] + rest) - multiset{t};
    assert multiset(a + b) == multiset(a + [t] + b) - multiset{t};
  }

  /** The first field of one order, found in another. */
  lemma {:induction false} FirstFound(ts: seq<Tlv>, us: seq<Tlv>) returns (a: seq<Tlv>, b: seq<Tlv>)
    requires ts != [] && multiset(ts) == multiset(us)
    ensures us == a + [ts[0]] + b && multiset(ts[1..]) == multiset(a + b)
    ensures forall u :: u in a ==> u in ts
  {
    assert ts[0] in multiset(us);
    var k :| 0 <= k < |us| && us[k] == ts[0];
    a, b := us[..k], us[k + 1..];
    assert us == a + [ts[0]] + b && ts == [ts[0]] + ts[1..];
    RemoveField(ts[0], ts[1..], a, b);
    forall u | u in a ensures u in ts { InBothOrders(ts, us, u); }
  }

  /** Fields of which any two commute can stand in any order. */
  lemma {:induction false} OrderIrrelevant<M(!new)>(apply: (M, Tlv) -> M, m: M, ts: seq<Tlv>, us: seq<Tlv>)
    requires multiset(ts) == multiset(us)
    requires forall t, u :: t in ts && u in ts ==> Commute(apply, t, u)
    ensures Fold(apply, m, ts) == Fold(apply, m, us)
    decreases |ts|
  {
    if ts == [] {
      assert |multiset(us)| == 0;
    } else {
      var t, rest := ts[0], ts[1..];
      var a, b := FirstFound(ts, us);
      FieldToFront(apply, m, a, t, b);
      OrderIrrelevant(apply, apply(m, t), rest, a + b);
      FoldNext(apply, m, t, rest);
      FoldNext(apply, m, t, a + b);
    }
  }
}
