/**
 The ICMPv6 checksum: the loop that computes it, the one's-complement sum it stands for
 (RFC 4443 section 2.3, RFC 8200 section 8.1), and what a receiver can conclude from it.
 */
module Checksum {
  import opened Common
  import opened Bytes

  const IPPROTO_ICMPV6: byte := 58

  type Address = s: seq<byte> | |s| == 16 witness Zeros(16)
  type Mac = s: seq<byte> | |s| == 6 witness Zeros(6)

  /** `u16::from_be_bytes`. */
  function Word(hi: byte, lo: byte): u16 { var high: nat := hi; high * 256 + lo }

  /** The sum of the 16-bit big-endian words of `s`; an odd last byte is the high half of a word. */
  function WordSum(s: seq<byte>): nat
    decreases |s|
  {
    if s == [] then 0
    else if |s| == 1 then Word(s[0], 0)
    else Word(s[0], s[1]) + WordSum(s[2..])
  }

  lemma {:induction false} WordSumConcat(a: seq<byte>, b: seq<byte>)
    requires |a| % 2 == 0
    ensures WordSum(a + b) == WordSum(a) + WordSum(b)
    decreases |a|
  {
    if a == [] {
      assert a + b == b;
    } else {
      assert (a + b)[2..] == a[2..] + b;
      WordSumConcat(a[2..], b);
    }
  }

  lemma {:induction false} WordSumNext(s: seq<byte>, i: nat)
    requires i % 2 == 0 && i + 2 <= |s|
    ensures WordSum(s[..i + 2]) == WordSum(s[..i]) + Word(s[i], s[i + 1])
  {
    assert s[..i + 2] == s[..i] + s[i..i + 2];
    WordSumConcat(s[..i], s[i..i + 2]);
    assert s[i..i + 2][2..] == [];
  }

  /** One's-complement folding of carries: the end-around carry of RFC 1071. */
  function Fold(n: nat): u16
    decreases n
  {
    if n < 0x1_0000 then n else Fold(n % 0x1_0000 + n / 0x1_0000)
  }

  /** Folding keeps the value modulo 65535, and only zero folds to zero. */
  lemma {:induction false} FoldKeepsResidue(n: nat)
    ensures Fold(n) % 65535 == n % 65535
    ensures Fold(n) == 0 <==> n == 0
    decreases n
  {
    if n >= 0x1_0000 {
      var q, r := n / 0x1_0000, n % 0x1_0000;
      FoldKeepsResidue(r + q);
      ModMultiple(r + q, q);
      assert n == r + q + 65535 * q;
    }
  }

  lemma {:induction false} ModMultiple(n: nat, k: nat)
    ensures (n + 65535 * k) % 65535 == n % 65535
  {
  }

  /** Everything the checksum covers: the pseudo-header and the message. */
  function Covered(src: Address, dst: Address, data: seq<byte>): nat {
    WordSum(src) + WordSum(dst) + |data| + IPPROTO_ICMPV6 + WordSum(data)
  }

  function ChecksumOf(src: Address, dst: Address, data: seq<byte>): u16 {
    0xffff - Fold(Covered(src, dst, data))
  }

  const WIDTH := 0x1_0000_0000

  /** A sum on 32 bits: it wraps, or stops a program that checks for overflow. */
  function Wrapped(total: nat, checked: bool): Option<u32> {
    if checked && total >= WIDTH then None else Some(total % WIDTH)
  }

  lemma {:induction false} WrappedPlus(a: nat, b: nat, checked: bool)
    ensures Wrapped(a, checked).Some? ==> Wrapped(Wrapped(a, checked).value + b, checked) == Wrapped(a + b, checked)
    ensures Wrapped(a, checked).None? ==> Wrapped(a + b, checked) == None
  {
  }

  method Plus(sum: u32, n: u32, checked: bool) returns (r: Option<u32>)
    ensures r == Wrapped(sum + n, checked)
  {
    if checked && sum + n >= WIDTH {
      return None;
    }
    r := Some((sum + n) % WIDTH);
  }

  /** The 16-bit words of an address, one after the other. */
  method AddWords(address: Address, start: u32) returns (sum: u32)
    requires start + 8 * 65535 < WIDTH
    ensures sum == start + WordSum(address) <= start + 8 * 65535
  {
    sum := start;
    var i := 0;
    while i < 16
      invariant 0 <= i <= 16 && i % 2 == 0
      invariant sum == start + WordSum(address[..i]) && WordSum(address[..i]) <= i / 2 * 65535
    {
      WordSumNext(address, i);
      sum := sum + Word(address[i], address[i + 1]);
      i := i + 2;
    }
    assert address[..16] == address;
  }

  /** The words of the message, and its odd last byte. */
  method AddMessage(data: seq<byte>, start: u32, checked: bool) returns (r: Option<u32>)
    ensures r == Wrapped(start + WordSum(data), checked)
  {
    var sum := start;
    var i := 0;
    while i + 1 < |data|
      invariant 0 <= i <= |data| && i % 2 == 0
      invariant Wrapped(start + WordSum(data[..i]), checked) == Some(sum)
    {
      NextWord(data, start, i, checked);
      var next := Plus(sum, Word(data[i], data[i + 1]), checked);
      if next.None? {
        return None;
      }
      sum := next.value;
      i := i + 2;
    }
    WordSumSplit(data, i);
    WrappedPlus(start + WordSum(data[..i]), WordSum(data[i..]), checked);
    r := Some(sum);
    if i < |data| {
      r := Plus(sum, Word(data[i], 0), checked);
    }
  }

  /** One word more, and what an overflow at it means for the whole message. */
  lemma {:induction false} NextWord(data: seq<byte>, start: nat, i: nat, checked: bool)
    requires i % 2 == 0 && i + 2 <= |data| && Wrapped(start + WordSum(data[..i]), checked).Some?
    ensures var next := Wrapped(Wrapped(start + WordSum(data[..i]), checked).value + Word(data[i], data[i + 1]),
            checked);
            && next == Wrapped(start + WordSum(data[..i + 2]), checked)
            && (next.None? ==> Wrapped(start + WordSum(data), checked) == None)
  {
    WordSumNext(data, i);
    WordSumSplit(data, i + 2);
    WrappedPlus(start + WordSum(data[..i]), Word(data[i], data[i + 1]), checked);
  }

  lemma {:induction false} WordSumSplit(s: seq<byte>, i: nat)
    requires i % 2 == 0 && i <= |s|
    ensures WordSum(s) == WordSum(s[..i]) + WordSum(s[i..])
  {
    assert s == s[..i] + s[i..];
    WordSumConcat(s[..i], s[i..]);
  }

  /** The sum as the program takes it: the length is cut to 32 bits. */
  function Summed(src: Address, dst: Address, data: seq<byte>): nat {
    WordSum(src) + WordSum(dst) + |data| % WIDTH + IPPROTO_ICMPV6 + WordSum(data)
  }

  /** Pseudo-header and message. */
  method AddAll(src: Address, dst: Address, data: seq<byte>, checked: bool) returns (r: Option<u32>)
    ensures r == Wrapped(Summed(src, dst, data), checked)
  {
    var sum := AddWords(src, 0);
    sum := AddWords(dst, sum);
    ghost var addresses, length := sum, |data| % WIDTH;
    r := Plus(sum, |data| % WIDTH, checked);
    WrappedPlus(addresses + length, IPPROTO_ICMPV6, checked);
    WrappedPlus(addresses + length + IPPROTO_ICMPV6, WordSum(data), checked);
    if r.Some? {
      r := Plus(r.value, IPPROTO_ICMPV6, checked);
    }
    if r.Some? {
      r := AddMessage(data, r.value, checked);
    }
  }

  /** `None`: the program has stopped because the 32-bit sum overflowed. The folding loop always ends. */
  method Icmpv6Checksum(src: Address, dst: Address, data: seq<byte>, checked: bool) returns (checksum: Option<u16>)
    ensures checksum == if checked && Summed(src, dst, data) >= WIDTH then None
                        else Some(0xffff - Fold(Summed(src, dst, data) % WIDTH))
    ensures |data| <= 131036 ==> checksum == Some(ChecksumOf(src, dst, data))
  {
    ShortMessagesFit(src, dst, data);
    var total := AddAll(src, dst, data, checked);
    if total.None? {
      return None;
    }
    var sum := FoldCarries(total.value);
    checksum := Some(0xffff - sum);
  }

  method FoldCarries(total: u32) returns (sum: u32)
    ensures sum == Fold(total)
  {
    sum := total;
    while sum / 0x1_0000 != 0
      invariant Fold(sum) == Fold(total)
      decreases sum
    {
      sum := sum % 0x1_0000 + sum / 0x1_0000;
    }
  }

  lemma {:induction false} WordSumBelow(s: seq<byte>)
    ensures WordSum(s) <= (|s| + 1) / 2 * 65535
    decreases |s|
  {
    if |s| > 1 {
      WordSumBelow(s[2..]);
    }
  }

  lemma {:induction false} ShortMessagesFit(src: Address, dst: Address, data: seq<byte>)
    ensures |data| <= 131036 ==> Summed(src, dst, data) == Covered(src, dst, data) < WIDTH
  {
    WordSumBelow(src);
    WordSumBelow(dst);
    WordSumBelow(data);
  }

  /**
   A sum that has wrapped gives a wrong checksum: where overflow is not checked the result is right exactly when the
   number of wraps is a multiple of 65535 and something is left. Below 2^32 bytes that means that it has not wrapped.
   */
  lemma {:induction false} WrappedChecksumIff(src: Address, dst: Address, data: seq<byte>)
    ensures var n := Covered(src, dst, data);
            && (0xffff - Fold(Summed(src, dst, data) % WIDTH) == ChecksumOf(src, dst, data)
                <==> n / WIDTH % 65535 == 0 && n % WIDTH != 0)
            && (|data| < WIDTH ==>
                  (0xffff - Fold(Summed(src, dst, data) % WIDTH) == ChecksumOf(src, dst, data) <==> n < WIDTH))
  {
    var n := Covered(src, dst, data);
    CutLength(src, dst, data);
    FoldWrapped(n);
    if |data| < WIDTH {
      FewWraps(src, dst, data);
      SmallQuotient(n);
    }
  }

  lemma {:induction false} SmallQuotient(n: nat)
    requires 0 < n < 65535 * WIDTH
    ensures n / WIDTH % 65535 == 0 && n % WIDTH != 0 <==> n < WIDTH
  {
  }

  /** Cutting the length to 32 bits makes no difference to the wrapped sum. */
  lemma {:induction false} CutLength(src: Address, dst: Address, data: seq<byte>)
    ensures Summed(src, dst, data) % WIDTH == Covered(src, dst, data) % WIDTH
  {
    assert Covered(src, dst, data) == Summed(src, dst, data) + |data| / WIDTH * WIDTH;
    WrapsAway(Summed(src, dst, data), |data| / WIDTH);
  }

  lemma {:induction false} FewWraps(src: Address, dst: Address, data: seq<byte>)
    requires |data| < WIDTH
    ensures Covered(src, dst, data) < 65535 * WIDTH
  {
    WordSumBelow(src);
    WordSumBelow(dst);
    WordSumBelow(data);
  }

  lemma {:induction false} FoldWrapped(n: nat)
    requires n > 0
    ensures Fold(n % WIDTH) == Fold(n) <==> n / WIDTH % 65535 == 0 && n % WIDTH != 0
  {
    FoldSameIff(n % WIDTH, n);
    WrapResidue(n);
  }

  lemma {:induction false} WrapsAway(n: nat, k: nat)
    ensures (n + k * WIDTH) % WIDTH == n % WIDTH
  {
  }

  lemma {:induction false} FoldSameIff(a: nat, b: nat)
    ensures Fold(a) == Fold(b) <==> a % 65535 == b % 65535 && (a == 0 <==> b == 0)
  {
    FoldKeepsResidue(a);
    FoldKeepsResidue(b);
  }

  /** The IPv6 pseudo-header, byte for byte: both addresses, the length, three zeros, the next header. */
  function PseudoHeader(src: Address, dst: Address, length: nat): (s: seq<byte>) {
    src + dst + Be(length, 4) + [0, 0, 0, 58]
  }

  /** The sum that is folded stands for the words of pseudo-header and message, as long as a length fits its field. */
  lemma {:induction false} CoversPseudoHeader(src: Address, dst: Address, data: seq<byte>)
    requires |data| < WIDTH
    ensures Fold(WordSum(PseudoHeader(src, dst, |data|) + data)) == Fold(Covered(src, dst, data))
  {
    PseudoSum(src, dst, |data|, data);
    SplitLength(WordSum(src) + WordSum(dst) + 58 + WordSum(data), |data|);
  }

  lemma {:induction false} PseudoSum(src: Address, dst: Address, n: nat, data: seq<byte>)
    requires n < WIDTH
    ensures WordSum(PseudoHeader(src, dst, n) + data)
         == WordSum(src) + WordSum(dst) + 58 + WordSum(data) + n / 0x1_0000 + n % 0x1_0000
  {
    var tail: seq<byte> := [0, 0, 0, 58];
    WordSumConcat(PseudoHeader(src, dst, n), data);
    WordSumConcat(src + dst + Be(n, 4), tail);
    WordSumConcat(src + dst, Be(n, 4));
    WordSumConcat(src, dst);
    FourByteForm(n);
    TwoWords(Be(n, 4));
    LengthDigits(n);
    assert tail[2..] == [0, 58] && tail[2..][2..] == [] && WordSum(tail[2..]) == 58;
  }

  /** A length and the sum of its two words fold alike. */
  lemma {:induction false} SplitLength(words: nat, n: nat)
    requires words > 0
    ensures Fold(words + n / 0x1_0000 + n % 0x1_0000) == Fold(words + n)
  {
    var q, r := n / 0x1_0000, n % 0x1_0000;
    assert n == q * 65536 + r && words + n == words + q + r + 65535 * q;
    ModMultiple(words + q + r, q);
    FoldSameIff(words + q + r, words + n);
  }

  lemma {:induction false} TwoWords(s: seq<byte>)
    requires |s| == 4
    ensures WordSum(s) == Word(s[0], s[1]) + Word(s[2], s[3])
  {
    assert s[2..] == [s[2], s[3]] && s[2..][2..] == [];
    assert WordSum(s[2..]) == Word(s[2], s[3]);
  }

  lemma {:induction false} FourByteForm(n: nat)
    ensures Be(n, 4) == [n / 256 / 256 / 256 % 256, n / 256 / 256 % 256, n / 256 % 256, n % 256]
  {
    var a, b, c := n / 256, n / 256 / 256, n / 256 / 256 / 256;
    assert Be(c, 1) == Be(c / 256, 0) + [c % 256] == [c % 256];
    assert Be(b, 2) == Be(c, 1) + [b % 256];
    assert Be(a, 3) == Be(b, 2) + [a % 256];
  }

  lemma {:induction false} LengthDigits(n: nat)
    requires n < WIDTH
    ensures n / 256 / 256 / 256 % 256 * 256 + n / 256 / 256 % 256 == n / 0x1_0000
    ensures n / 256 % 256 * 256 + n % 256 == n % 0x1_0000
  {
  }

  /** A wrap takes away 2^32, which is one more than a multiple of 65535. */
  lemma {:induction false} WrapResidue(n: nat)
    ensures n % WIDTH % 65535 == n % 65535 <==> n / WIDTH % 65535 == 0
  {
    var k, r := n / WIDTH, n % WIDTH;
    assert WIDTH == 65535 * 65537 + 1;
    ModMultiple(r + k, 65537 * k);
    assert n == r + k + 65535 * (65537 * k);
    SumResidue(r, k);
  }

  lemma {:induction false} SumResidue(r: nat, k: nat)
    ensures (r + k) % 65535 == r % 65535 <==> k % 65535 == 0
  {
  }

  /** The message with `checksum` in its checksum field. */
  function WithChecksum(data: seq<byte>, checksum: u16): (r: seq<byte>)
    requires |data| >= 4
    ensures |r| == |data| && r[..2] == data[..2] && r[4..] == data[4..] && r[2..4] == [checksum / 256, checksum % 256]
  {
    data[2 := checksum / 256][3 := checksum % 256]
  }

  lemma {:induction false} ChecksumCounts(src: Address, dst: Address, data: seq<byte>, c: u16)
    requires |data| >= 4
    ensures Covered(src, dst, WithChecksum(data, c)) == Covered(src, dst, WithChecksum(data, 0)) + c
  {
    var one, zero := WithChecksum(data, c), WithChecksum(data, 0);
    WordSumConcat(data[..2], [c / 256, c % 256] + data[4..]);
    WordSumConcat(data[..2], [0, 0] + data[4..]);
    WordSumConcat([c / 256, c % 256], data[4..]);
    WordSumConcat([0, 0], data[4..]);
    assert one == data[..2] + ([c / 256, c % 256] + data[4..]);
    assert zero == data[..2] + ([0, 0] + data[4..]);
    assert [c / 256, c % 256][2..] == [] && [0, 0][2..] == [];
  }

  lemma {:induction false} SameResidue(a: nat, b: nat, c: nat)
    requires a % 65535 == b % 65535
    ensures (a + c) % 65535 == (b + c) % 65535
  {
  }

  /** Adding the complement of a non-zero folded sum, and only that, gives a folded sum of all ones. */
  lemma {:induction false} ComplementCompletes(total: nat, c: u16)
    requires total > 0
    ensures Fold(total + c) == 0xffff <==> c == 0xffff - Fold(total) || (c == 0xffff && Fold(total) == 0xffff)
  {
    var f := Fold(total);
    FoldKeepsResidue(total);
    FoldKeepsResidue(total + c);
    SameResidue(total, f, c);
    AllOnes(Fold(total + c), f + c);
  }

  lemma {:induction false} AllOnes(folded: u16, n: nat)
    requires 0 < folded && 0 < n <= 131070 && folded % 65535 == n % 65535
    ensures folded == 0xffff <==> n == 65535 || n == 131070
  {
  }

  /**
   Inserting the checksum makes the recomputed checksum zero; and no other field value does, except that
   one's-complement zero has two forms.
   */
  lemma {:induction false} ChecksumVerifies(src: Address, dst: Address, data: seq<byte>, c: u16)
    requires |data| >= 4
    ensures var right := ChecksumOf(src, dst, WithChecksum(data, 0));
            ChecksumOf(src, dst, WithChecksum(data, c)) == 0 <==> c == right || (c == 0xffff && right == 0)
  {
    ChecksumCounts(src, dst, data, c);
    ComplementCompletes(Covered(src, dst, WithChecksum(data, 0)), c);
  }

  lemma {:induction false} ChangedWord(src: Address, dst: Address, data: seq<byte>, i: nat, hi: byte, lo: byte)
    requires i % 2 == 0 && i + 1 < |data|
    ensures Covered(src, dst, data[i := hi][i + 1 := lo]) + Word(data[i], data[i + 1])
            == Covered(src, dst, data) + Word(hi, lo)
  {
    var changed := data[i := hi][i + 1 := lo];
    var a, was, now, z := data[..i], [data[i], data[i + 1]], [hi, lo], data[i + 2..];
    assert data == a + (was + z) && changed == a + (now + z);
    WordSumConcat(a, was + z);
    WordSumConcat(a, now + z);
    WordSumConcat(was, z);
    WordSumConcat(now, z);
    assert was[2..] == [] && now[2..] == [];
  }

  /** Any change of one aligned word of a message that verifies is detected, unless it swaps the two zeros. */
  lemma {:induction false} WordChangeDetected(src: Address, dst: Address, data: seq<byte>, i: nat, hi: byte, lo: byte)
    requires i % 2 == 0 && i + 1 < |data|
    requires ChecksumOf(src, dst, data) == 0
    ensures ChecksumOf(src, dst, data[i := hi][i + 1 := lo]) == 0 <==>
            var was, now := Word(data[i], data[i + 1]), Word(hi, lo);
            now == was || (now == 0 && was == 0xffff) || (now == 0xffff && was == 0)
  {
    ChangedWord(src, dst, data, i, hi, lo);
    ResidueOfChange(Covered(src, dst, data), Covered(src, dst, data[i := hi][i + 1 := lo]), Word(data[i], data[i + 1]),
      Word(hi, lo));
  }

  lemma {:induction false} ResidueOfChange(n: nat, m: nat, w: u16, v: u16)
    requires m + w == n + v && m > 0 && Fold(n) == 0xffff
    ensures Fold(m) == 0xffff <==> (v == w || (v == 0 && w == 0xffff) || (v == 0xffff && w == 0))
  {
    FoldKeepsResidue(n);
    FoldKeepsResidue(m);
    assert Fold(m) == 0xffff <==> m % 65535 == 0;
    MultiplesOfModulus(n, m, w, v);
  }

  lemma {:induction false} MultiplesOfModulus(n: nat, m: nat, w: u16, v: u16)
    requires m + w == n + v && n % 65535 == 0
    ensures m % 65535 == 0 <==> (v == w || (v == 0 && w == 0xffff) || (v == 0xffff && w == 0))
  {
  }
}
