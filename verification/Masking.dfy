/** Exclusive or of bytes, and the masking of section 5.3 of RFC 6455. */
module Masking {
  import opened ByteString

  function Pow2(n: nat): nat {
    if n == 0 then 1 else 2 * Pow2(n - 1)
  }

  function Bit(a: nat, k: nat): bool {
    if k == 0 then a % 2 == 1 else Bit(a / 2, k - 1)
  }

  /** Exclusive or of the n low bits. */
  function XorBits(a: nat, b: nat, n: nat): (r: nat)
    ensures r < Pow2(n)
  {
    if n == 0 then 0
    else XorBits(a / 2, b / 2, n - 1) * 2 + (if a % 2 == b % 2 then 0 else 1)
  }

  lemma {:induction false} XorIsBitwise(a: nat, b: nat, n: nat, k: nat)
    requires k < n
    ensures Bit(XorBits(a, b, n), k) == (Bit(a, k) != Bit(b, k))
  {
    if k > 0 {
      XorIsBitwise(a / 2, b / 2, n - 1, k - 1);
      assert XorBits(a, b, n) / 2 == XorBits(a / 2, b / 2, n - 1);
    }
  }

  lemma {:induction false} XorTwice(a: nat, b: nat, n: nat)
    requires a < Pow2(n)
    ensures XorBits(XorBits(a, b, n), b, n) == a
  {
    if n > 0 {
      XorTwice(a / 2, b / 2, n - 1);
      assert XorBits(a, b, n) / 2 == XorBits(a / 2, b / 2, n - 1);
    }
  }

  function Xor(a: Byte, b: Byte): Byte {
    assert Pow2(8) == 256;
    XorBits(a, b, 8)
  }

  /** Octet i of the transformed data is octet i of the data XOR octet i mod 4 of the key. */
  function Masked(key: seq<Byte>, s: seq<Byte>): (r: seq<Byte>)
    requires |key| == 4
    ensures |r| == |s| && forall i :: 0 <= i < |s| ==> r[i] == Xor(s[i], key[i % 4])
  {
    seq(|s|, i requires 0 <= i < |s| => Xor(s[i], key[i % 4]))
  }

  lemma MaskedTwice(key: seq<Byte>, s: seq<Byte>)
    requires |key| == 4
    ensures Masked(key, Masked(key, s)) == s
  {
    assert Pow2(8) == 256;
    var m := Masked(key, s);
    forall i | 0 <= i < |s| ensures Xor(m[i], key[i % 4]) == s[i] {
      XorTwice(s[i], key[i % 4], 8);
    }
  }
}
