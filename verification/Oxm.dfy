/** OXM fields on the wire: headers, lists of fields, and the masks that stand for address prefixes. */
module Oxm {
  import opened Common
  import opened Bytes
  import opened Seqs

  const BASIC: u16 := 0x8000
  const NXM0: u16 := 0
  const NXM1: u16 := 1

  /** One field: a header of class, field number, mask flag and length, and `length` bytes of value and mask. */
  datatype Tlv = Tlv(oxmClass: u16, field: nat, hasMask: bool, payload: seq<byte>)
  {
    predicate Valid() { field < 128 && |payload| < 256 }
  }

  predicate AllValid(ts: seq<Tlv>) { forall t :: t in ts ==> t.Valid() }

  function HeaderBytes(t: Tlv): (s: seq<byte>)
    requires t.Valid()
    ensures |s| == 4
  {
    [t.oxmClass / 256, t.oxmClass % 256, t.field * 2 + if t.hasMask then 1 else 0, |t.payload|]
  }

  function TlvBytes(t: Tlv): seq<byte>
    requires t.Valid()
  {
    HeaderBytes(t) + t.payload
  }

  function AllBytes(ts: seq<Tlv>): seq<byte>
    requires AllValid(ts)
  {
    if ts == [] then [] else TlvBytes(ts[0]) + AllBytes(ts[1..])
  }

  /** The field at the front of `data`; `None` when the header or the payload is cut off. */
  function FirstTlv(data: seq<byte>): (t: Option<Tlv>)
    ensures t.Some? ==> t.value.Valid() && 4 + |t.value.payload| <= |data|
  {
    if |data| < 4 then None
    else
      var high: nat, length: nat := data[0], data[3];
      if |data| < 4 + length then None
      else Some(Tlv(high * 256 + data[1], data[2] / 2, data[2] % 2 == 1, data[4..4 + length]))
  }

  /** The fields of `data` in order, up to where no whole field is left. */
  function TlvsIn(data: seq<byte>): (ts: seq<Tlv>)
    ensures AllValid(ts)
    decreases |data|
  {
    match FirstTlv(data)
    case None => []
    case Some(t) => [t] + TlvsIn(data[4 + |t.payload|..])
  }

  /** The header read as one 32-bit number and taken apart by shifts and masks. */
  lemma {:induction false} HeaderNumber(a: byte, b: byte, c: byte, d: byte)
    ensures var h := ((a as nat * 256 + b) * 256 + c) * 256 + d;
            && h / 0x1_0000 == a as nat * 256 + b && h / 0x200 % 0x80 == c / 2 && h / 0x100 % 2 == c % 2
               && h % 0x100 == d
  {
    var h := ((a as nat * 256 + b) * 256 + c) * 256 + d;
    assert h / 0x100 == (a as nat * 256 + b) * 256 + c;
    assert h / 0x200 == h / 0x100 / 2;
    assert h / 0x200 == (a as nat * 256 + b) * 128 + c / 2;
  }

  lemma {:induction false} FirstTlvOfBytes(t: Tlv, rest: seq<byte>)
    requires t.Valid()
    ensures FirstTlv(TlvBytes(t) + rest) == Some(t)
    ensures (TlvBytes(t) + rest)[4 + |t.payload|..] == rest
  {
  }

  /** Encoded fields are read back, one by one, whatever incomplete field follows. */
  lemma {:induction false} FieldsReadBack(ts: seq<Tlv>, tail: seq<byte>)
    requires AllValid(ts) && FirstTlv(tail).None?
    ensures TlvsIn(AllBytes(ts) + tail) == ts
    decreases |ts|
  {
    if ts == [] {
      assert AllBytes(ts) + tail == tail;
    } else {
      var rest := AllBytes(ts[1..]) + tail;
      Associative(TlvBytes(ts[0]), AllBytes(ts[1..]), tail);
      FirstTlvOfBytes(ts[0], rest);
      FieldsReadBack(ts[1..], tail);
    }
  }

  /** Every byte string is its fields, encoded, and an incomplete rest: decoding skips nothing. */
  lemma {:induction false} FieldsExact(data: seq<byte>) returns (tail: seq<byte>)
    ensures data == AllBytes(TlvsIn(data)) + tail && FirstTlv(tail).None?
    decreases |data|
  {
    if FirstTlv(data).None? {
      tail := data;
      assert [] + data == data;
    } else {
      var t := FirstTlv(data).value;
      var n := 4 + |t.payload|;
      tail := FieldsExact(data[n..]);
      var ts := TlvsIn(data);
      assert ts[0] == t && ts[1..] == TlvsIn(data[n..]);
      assert TlvBytes(t) == data[..n];
      SplitAt(data, n);
      Associative(TlvBytes(t), AllBytes(TlvsIn(data[n..])), tail);
    }
  }

  lemma {:induction false} AllBytesConcat(a: seq<Tlv>, b: seq<Tlv>)
    requires AllValid(a) && AllValid(b)
    ensures AllValid(a + b) && AllBytes(a + b) == AllBytes(a) + AllBytes(b)
    decreases |a|
  {
    if a == [] {
      assert a + b == b;
    } else {
      ConsConcat(a, b);
      AllBytesConcat(a[1..], b);
      Associative(TlvBytes(a[0]), AllBytes(a[1..]), AllBytes(b));
    }
  }

  // ---------------------------------------------------------- prefixes, masks

  lemma {:induction false} Pow2OfBytes(width: nat)
    ensures Pow2(8 * width) == Pow256(width)
  {
    if width > 0 {
      Pow2OfBytes(width - 1);
      var n := 8 * (width - 1);
      assert Pow2(n + 4) == 2 * Pow2(n + 3) && Pow2(n + 3) == 2 * Pow2(n + 2) && Pow2(n + 2) == 2 * Pow2(n + 1);
      assert Pow2(n + 8) == 2 * Pow2(n + 7) && Pow2(n + 7) == 2 * Pow2(n + 6) && Pow2(n + 6) == 2 * Pow2(n + 5)
             && Pow2(n + 5) == 2 * Pow2(n + 4);
    }
  }

  lemma {:induction false} Pow2Mono(a: nat, b: nat)
    requires a <= b
    ensures Pow2(a) <= Pow2(b)
  {
    if a < b {
      Pow2Mono(a, b - 1);
    }
  }

  /** `prefix` ones followed by zeros: all ones shifted left, in a number of `bits` bits. */
  function PrefixToMask(prefix: nat, bits: nat): (mask: nat) {
    var zeros := if prefix >= bits then 0 else bits - prefix;
    Pow2Mono(zeros, bits);
    Pow2(bits) - Pow2(zeros)
  }

  /** `leading_ones`: how many of the top bits of a `bits`-bit number are ones before the first zero. */
  function LeadingOnes(mask: nat, bits: nat): (n: nat)
    ensures n <= bits
    decreases bits
  {
    if bits == 0 || mask < Pow2(bits - 1) then 0 else 1 + LeadingOnes(mask - Pow2(bits - 1), bits - 1)
  }

  /** Masks of prefixes convert back to their prefix. */
  lemma {:induction false} PrefixRoundTrip(prefix: nat, bits: nat)
    requires prefix <= bits
    ensures PrefixToMask(prefix, bits) < Pow2(bits) && LeadingOnes(PrefixToMask(prefix, bits), bits) == prefix
    decreases bits
  {
    if prefix > 0 {
      PrefixRoundTrip(prefix - 1, bits - 1);
      assert PrefixToMask(prefix, bits) == Pow2(bits - 1) + PrefixToMask(prefix - 1, bits - 1);
    } else if bits > 0 {
      assert PrefixToMask(0, bits) == 0;
    }
  }

  /** Any mask is at least the mask of its leading ones, and equal to it only when it has no one after a zero. */
  lemma {:induction false} MaskToPrefixDrops(mask: nat, bits: nat)
    requires mask < Pow2(bits)
    ensures var p := LeadingOnes(mask, bits);
            PrefixToMask(p, bits) <= mask
            && (mask == PrefixToMask(p, bits) <==> exists q :: 0 <= q <= bits && mask == PrefixToMask(q, bits))
  {
    LeadingOnesBelow(mask, bits);
    if q :| 0 <= q <= bits && mask == PrefixToMask(q, bits) {
      PrefixRoundTrip(q, bits);
    }
  }

  lemma {:induction false} LeadingOnesBelow(mask: nat, bits: nat)
    requires mask < Pow2(bits)
    ensures PrefixToMask(LeadingOnes(mask, bits), bits) <= mask
    decreases bits
  {
    if bits > 0 && mask >= Pow2(bits - 1) {
      var p := LeadingOnes(mask - Pow2(bits - 1), bits - 1);
      LeadingOnesBelow(mask - Pow2(bits - 1), bits - 1);
      assert PrefixToMask(p + 1, bits) == Pow2(bits - 1) + PrefixToMask(p, bits - 1);
    } else {
      assert PrefixToMask(0, bits) == 0;
    }
  }
}
