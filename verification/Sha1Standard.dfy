/** Octets as numbers. */
module Octets {
  lemma OctetAsNumber(v: nat)
    requires v < 0x100
    ensures (v as bv8) as nat == v
  {
  }
}

/** The Secure Hash Algorithm as FIPS PUB 180-1 defines it: padding (section 4), functions and
    constants (sections 5 and 6), and the message digest (section 7). */
module Sha1Standard {
  import opened Octets

  type Byte = bv8
  type Word = bv32

  datatype Buffer = Buffer(a: Word, b: Word, c: Word, d: Word, e: Word)

  const INITIAL: Buffer := Buffer(0x67452301, 0xEFCDAB89, 0x98BADCFE, 0x10325476, 0xC3D2E1F0)

  /** Addition of words is modulo 2 to the 32nd (section 3). */
  function Plus(x: Word, y: Word): Word {
    x + y
  }

  // Section 4: message padding.

  function Zeros(n: nat): (r: seq<Byte>)
    ensures |r| == n && forall i :: 0 <= i < n ==> r[i] == 0
  {
    seq(n, _ => 0)
  }

  function ByteOf(v: nat): Byte {
    (v % 0x100) as Byte
  }

  /** A word, most significant byte first. */
  function WordBytes(v: nat): seq<Byte> {
    [ByteOf(v / 0x100_0000), ByteOf(v / 0x1_0000), ByteOf(v / 0x100), ByteOf(v)]
  }

  /** The length in bits as two words, high-order word first. */
  function LengthBytes(bits: nat): (r: seq<Byte>)
    ensures |r| == 8
  {
    WordBytes(bits / 0x1_0000_0000) + WordBytes(bits % 0x1_0000_0000)
  }

  /** A "1" bit, then as few zero bytes as leave eight bytes of the last block for the length. */
  function PadZeros(n: nat): (z: nat)
    ensures (n + 1 + z + 8) % 64 == 0 && z < 64
  {
    if n % 64 <= 55 then 55 - n % 64 else 119 - n % 64
  }

  function PadWith(m: seq<Byte>, length: seq<Byte>): (r: seq<Byte>)
    requires |length| == 8
    ensures |r| % 64 == 0
  {
    m + [0x80] + Zeros(PadZeros(|m|)) + length
  }

  function Pad(m: seq<Byte>): (r: seq<Byte>)
    ensures |r| % 64 == 0
  {
    PadWith(m, LengthBytes(8 * |m|))
  }

  /** Bytes read as one number, the most significant first. */
  function Number(s: seq<Byte>): nat {
    if s == [] then 0 else 256 * Number(s[..|s| - 1]) + s[|s| - 1] as nat
  }

  lemma ByteOfSmall(v: nat)
    requires v < 0x100
    ensures ByteOf(v) == v as Byte
  {
  }

  lemma ByteIsDigit(v: nat)
    ensures ByteOf(v) as nat == v % 0x100
  {
    OctetAsNumber(v % 0x100);
  }

  lemma SmallWord(v: nat)
    requires v < 0x100
    ensures WordBytes(v) == [0, 0, 0, v as Byte]
  {
    ByteOfSmall(v);
    ByteOfSmall(0);
  }

  lemma SmallLength(bits: nat)
    requires bits < 0x100
    ensures LengthBytes(bits) == WordBytes(0) + WordBytes(bits)
  {
  }

  lemma NumberPush(s: seq<Byte>, x: Byte, digit: nat)
    requires x as nat == digit
    ensures Number(s + [x]) == 256 * Number(s) + digit
  {
    assert (s + [x])[..|s|] == s;
  }

  lemma NumberOfFour(front: seq<Byte>, a: Byte, b: Byte, c: Byte, d: Byte, digits: seq<nat>)
    requires |digits| == 4 && a as nat == digits[0] && b as nat == digits[1] && c as nat == digits[2] && d as nat == digits[3]
    ensures Number(front + [a, b, c, d]) ==
      256 * (256 * (256 * (256 * Number(front) + digits[0]) + digits[1]) + digits[2]) + digits[3]
  {
    NumberPush(front, a, digits[0]);
    NumberPush(front + [a], b, digits[1]);
    NumberPush(front + [a] + [b], c, digits[2]);
    NumberPush(front + [a] + [b] + [c], d, digits[3]);
    FourAppended(front, a, b, c, d);
  }

  lemma FourAppended(front: seq<Byte>, a: Byte, b: Byte, c: Byte, d: Byte)
    ensures front + [a] + [b] + [c] + [d] == front + [a, b, c, d]
  {
  }

  lemma NumberOfWord(front: seq<Byte>, v: nat)
    requires v < 0x1_0000_0000
    ensures Number(front + WordBytes(v)) == 0x1_0000_0000 * Number(front) + v
  {
    ByteIsDigit(v / 0x100_0000);
    ByteIsDigit(v / 0x1_0000);
    ByteIsDigit(v / 0x100);
    ByteIsDigit(v);
    var digits := [v / 0x100_0000 % 0x100, v / 0x1_0000 % 0x100, v / 0x100 % 0x100, v % 0x100];
    NumberOfFour(front, ByteOf(v / 0x100_0000), ByteOf(v / 0x1_0000), ByteOf(v / 0x100), ByteOf(v), digits);
    Digits(v);
  }

  lemma Digits(v: nat)
    requires v < 0x1_0000_0000
    ensures v == 256 * (256 * (256 * (v / 0x100_0000 % 0x100) + v / 0x1_0000 % 0x100) + v / 0x100 % 0x100) + v % 0x100
  {
    assert v / 0x100_0000 % 0x100 == v / 0x100_0000;
    assert v / 0x1_0000 == v / 0x100_0000 * 0x100 + v / 0x1_0000 % 0x100;
    assert v / 0x100 == v / 0x1_0000 * 0x100 + v / 0x100 % 0x100;
  }

  /** A padded message is the message, a "1" bit, zeros, and in its last eight bytes its length in bits. */
  lemma PaddedLength(m: seq<Byte>)
    requires 8 * |m| < 0x1_0000_0000_0000_0000
    ensures var p := Pad(m);
      && |p| >= |m| + 9 && p[..|m|] == m && p[|m|] == 0x80
      && (forall i :: |m| < i < |p| - 8 ==> p[i] == 0)
      && Number(p[|p| - 8..]) == 8 * |m|
  {
    var bits := 8 * |m|;
    var high, low := bits / 0x1_0000_0000, bits % 0x1_0000_0000;
    NumberOfWord([], high);
    NumberOfWord(WordBytes(high), low);
    assert [] + WordBytes(high) == WordBytes(high);
    LastEight(m + [0x80] + Zeros(PadZeros(|m|)), LengthBytes(bits));
  }

  lemma LastEight(front: seq<Byte>, length: seq<Byte>)
    requires |length| == 8
    ensures (front + length)[|front + length| - 8..] == length
  {
  }

  // Sections 5 and 6: functions and constants.

  function F(t: nat, b: Word, c: Word, d: Word): Word {
    if t < 20 then (b & c) | (!b & d)
    else if t < 40 then b ^ c ^ d
    else if t < 60 then (b & c) | (b & d) | (c & d)
    else b ^ c ^ d
  }

  function K(t: nat): Word {
    if t < 20 then 0x5A827999 else if t < 40 then 0x6ED9EBA1 else if t < 60 then 0x8F1BBCDC else 0xCA62C1D6
  }

  // Section 7: computing the message digest.

  function BlockWord(block: seq<Byte>, t: nat): Word
    requires |block| == 64 && t < 16
  {
    WordOf(block[4 * t], block[4 * t + 1], block[4 * t + 2], block[4 * t + 3])
  }

  /** The first byte is the most significant. */
  function WordOf(a: Byte, b: Byte, c: Byte, d: Byte): Word {
    (a as Word << 24) | (b as Word << 16) | (c as Word << 8) | d as Word
  }

  function Mix(a: Word, b: Word, c: Word, d: Word): Word {
    a ^ b ^ c ^ d
  }

  /** Step b: a word from the 3rd, 8th, 14th and 16th before it. */
  function Scheduled(a: Word, b: Word, c: Word, d: Word): Word {
    Mix(a, b, c, d).RotateLeft(1)
  }

  function W(block: seq<Byte>, t: nat): Word
    requires |block| == 64
  {
    if t < 16 then BlockWord(block, t)
    else Scheduled(W(block, t - 3), W(block, t - 8), W(block, t - 14), W(block, t - 16))
  }

  function Step(v: Buffer, t: nat, w: Word): Buffer {
    Buffer(Plus(Plus(Plus(Plus(v.a.RotateLeft(5), F(t, v.b, v.c, v.d)), v.e), w), K(t)),
           v.a, v.b.RotateLeft(30), v.c, v.d)
  }

  function Steps(block: seq<Byte>, h: Buffer, t: nat): Buffer
    requires |block| == 64
  {
    if t == 0 then h else Step(Steps(block, h, t - 1), t - 1, W(block, t - 1))
  }

  function Compress(h: Buffer, block: seq<Byte>): Buffer
    requires |block| == 64
  {
    var v := Steps(block, h, 80);
    Buffer(Plus(h.a, v.a), Plus(h.b, v.b), Plus(h.c, v.c), Plus(h.d, v.d), Plus(h.e, v.e))
  }

  function Blocks(bytes: seq<Byte>): Buffer
    requires |bytes| % 64 == 0
  {
    if bytes == [] then INITIAL
    else Compress(Blocks(bytes[..|bytes| - 64]), bytes[|bytes| - 64..])
  }

  function Digest(m: seq<Byte>): seq<Word> {
    var h := Blocks(Pad(m));
    [h.a, h.b, h.c, h.d, h.e]
  }

  lemma BlocksExtend(bytes: seq<Byte>, block: seq<Byte>)
    requires |bytes| % 64 == 0 && |block| == 64
    ensures Blocks(bytes + block) == Compress(Blocks(bytes), block)
  {
    assert (bytes + block)[..|bytes|] == bytes && (bytes + block)[|bytes|..] == block;
  }
}
