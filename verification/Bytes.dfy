/** Bytes, and the big-endian integers every wire format of the repository is made of. */
module Bytes {
  type byte = b: int | 0 <= b < 256

  type u8 = byte
  type u16 = n: int | 0 <= n < 0x1_0000
  type u32 = n: int | 0 <= n < 0x1_0000_0000
  type u64 = n: int | 0 <= n < 0x1_0000_0000_0000_0000

  function Pow256(width: nat): (p: nat)
    ensures p >= 1
  {
    if width == 0 then 1 else 256 * Pow256(width - 1)
  }

  lemma {:induction false} Pow256Values()
    ensures Pow256(1) == 0x100 && Pow256(2) == 0x1_0000 && Pow256(4) == 0x1_0000_0000
    ensures Pow256(8) == 0x1_0000_0000_0000_0000
  {
    assert Pow256(2) == 256 * (256 * Pow256(0));
    assert Pow256(4) == 256 * (256 * Pow256(2));
    assert Pow256(8) == 256 * (256 * (256 * (256 * Pow256(4))));
  }

  /** The low `width` bytes of `value`, most significant first (`to_be_bytes`). */
  function Be(value: nat, width: nat): (s: seq<byte>)
    ensures |s| == width
  {
    if width == 0 then [] else Be(value / 256, width - 1) + [value % 256]
  }

  /** The number a big-endian byte string denotes (`from_be_bytes`). */
  function FromBe(s: seq<byte>): (n: nat)
    ensures n < Pow256(|s|)
  {
    if s == [] then 0 else FromBe(s[..|s| - 1]) * 256 + s[|s| - 1]
  }

  lemma {:induction false} FromBeBe(value: nat, width: nat)
    requires value < Pow256(width)
    ensures FromBe(Be(value, width)) == value
  {
    if width > 0 {
      FromBeBe(value / 256, width - 1);
      var s := Be(value, width);
      assert s[..|s| - 1] == Be(value / 256, width - 1);
    }
  }

  lemma {:induction false} TwoBytes(value: nat)
    requires value < 0x1_0000
    ensures FromBe(Be(value, 2)) == value
  {
  }

  function Pow2(n: nat): (p: nat)
    ensures p >= 1
  {
    if n == 0 then 1 else 2 * Pow2(n - 1)
  }

  lemma {:induction false} Pow2Values()
    ensures Pow2(11) == 0x800 && Pow2(16) == 0x1_0000
  {
    assert Pow2(4) == 2 * (2 * (2 * (2 * Pow2(0))));
    assert Pow2(8) == 2 * (2 * (2 * (2 * Pow2(4))));
    assert Pow2(11) == 2 * (2 * (2 * Pow2(8)));
    assert Pow2(16) == 2 * (2 * (2 * (2 * (2 * Pow2(11)))));
  }

  /** Bitwise `a | b`. */
  function Or(a: nat, b: nat): (r: nat)
    ensures r == 0 <==> a == 0 && b == 0
  {
    if a == 0 then b
    else if b == 0 then a
    else Or(a / 2, b / 2) * 2 + if a % 2 == 1 || b % 2 == 1 then 1 else 0
  }

  lemma {:induction false} OrBelow(a: nat, b: nat, k: nat)
    requires a < Pow2(k) && b < Pow2(k)
    ensures Or(a, b) < Pow2(k)
  {
    if k > 0 {
      OrBelow(a / 2, b / 2, k - 1);
    }
  }

  /** Numbers without a bit in common are added. */
  lemma {:induction false} OrDisjoint(a: nat, b: nat, k: nat)
    requires b < Pow2(k)
    ensures Or(a * Pow2(k), b) == a * Pow2(k) + b
  {
    if k > 0 {
      OrDisjoint(a, b / 2, k - 1);
      Doubled(a, Pow2(k - 1));
      OrStep(a * Pow2(k - 1), b);
    }
  }

  lemma {:induction false} Doubled(a: nat, p: nat)
    ensures a * (2 * p) == 2 * (a * p) && a * p >= 0
  {
  }

  lemma {:induction false} OrStep(x: nat, b: nat)
    requires Or(x, b / 2) == x + b / 2
    ensures Or(2 * x, b) == 2 * x + b
  {
  }

  /** `n - 1` on sixteen bits, as it wraps where overflow is not checked. */
  function LessOne(n: u16): u16 { (n + 0xffff) % 0x1_0000 }

  /** `n` rounded up to the next multiple of eight: `(n + 7) & !7`. */
  function PadTo8(n: nat): (p: nat)
    ensures p % 8 == 0 && n <= p < n + 8
  {
    (n + 7) / 8 * 8
  }

  function Zeros(n: nat): (s: seq<byte>)
    ensures |s| == n
  {
    seq(n, i => 0)
  }
}
