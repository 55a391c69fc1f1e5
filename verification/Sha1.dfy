/** The SHA1 class (codec/sha1.cpp) against FIPS PUB 180-1. */
module Sha1 {
  import opened Sha1Standard

  const WORD_RANGE: nat := 0x1_0000_0000
  const MAX_BITS: nat := 0x1_0000_0000_0000_0000

  function CircularShift(bits: nat, word: Word): Word
    requires 1 <= bits <= 31
  {
    ((word << bits) & 0xFFFF_FFFF) | ((word & 0xFFFF_FFFF) >> (32 - bits))
  }

  /** The shifts the algorithm uses are the circular shifts of section 2. */
  lemma CircularShiftRotates(word: Word)
    ensures CircularShift(1, word) == word.RotateLeft(1)
    ensures CircularShift(5, word) == word.RotateLeft(5)
    ensures CircularShift(30, word) == word.RotateLeft(30)
  {
  }

  ghost predicate IsW(w: seq<Word>, block: seq<Byte>, t: nat)
    requires |block| == 64 && t < |w|
  {
    w[t] == W(block, t)
  }

  ghost predicate IsSchedule(w: seq<Word>, block: seq<Byte>)
    requires |block| == 64
  {
    forall t :: 0 <= t < |w| ==> IsW(w, block, t)
  }

  /** The word that follows at least 16 words of a schedule. */
  function Next(w: seq<Word>): Word
    requires |w| >= 16
  {
    var t := |w|;
    Scheduled(w[t - 3], w[t - 8], w[t - 14], w[t - 16])
  }

  lemma ScheduleExtends(w: seq<Word>, block: seq<Byte>)
    requires |block| == 64 && |w| >= 16 && IsSchedule(w, block)
    ensures IsSchedule(w + [Next(w)], block)
  {
    var t, more := |w|, w + [Next(w)];
    assert IsW(w, block, t - 3) && IsW(w, block, t - 8) && IsW(w, block, t - 14) && IsW(w, block, t - 16);
    assert Next(w) == W(block, t);
    forall j | 0 <= j < |more|
      ensures IsW(more, block, j)
    {
      assert j < t ==> IsW(w, block, j);
    }
  }

  /** The four statements that put a word of the block together. */
  method PackWord(a: Byte, b: Byte, c: Byte, d: Byte) returns (w: Word)
    ensures w == WordOf(a, b, c, d)
  {
    w := a as Word << 24;
    w := w | (b as Word << 16);
    w := w | (c as Word << 8);
    w := w | d as Word;
  }

  method NextWord(w: array<Word>, t: nat) returns (next: Word)
    requires 16 <= t < w.Length
    ensures next == Next(w[..t])
  {
    var a, b, c, d := w[t - 3], w[t - 8], w[t - 14], w[t - 16];
    NextOf(w[..t], a, b, c, d);
    next := ShiftMix(a, b, c, d);
  }

  method ShiftMix(a: Word, b: Word, c: Word, d: Word) returns (next: Word)
    ensures next == Scheduled(a, b, c, d)
  {
    CircularShiftRotates(Mix(a, b, c, d));
    next := CircularShift(1, Mix(a, b, c, d));
  }

  lemma NextOf(w: seq<Word>, a: Word, b: Word, c: Word, d: Word)
    requires |w| >= 16 && a == w[|w| - 3] && b == w[|w| - 8] && c == w[|w| - 14] && d == w[|w| - 16]
    ensures Next(w) == Scheduled(a, b, c, d)
  {
  }

  lemma FirstWords(w: seq<Word>, block: seq<Byte>)
    requires |block| == 64 && |w| == 16
    requires forall j :: 0 <= j < 16 ==> w[j] == WordOf(block[4 * j], block[4 * j + 1], block[4 * j + 2], block[4 * j + 3])
    ensures IsSchedule(w, block)
  {
    forall j | 0 <= j < 16
      ensures IsW(w, block, j)
    {
    }
  }

  /** Forcing a word to 32 bits changes nothing: a word has no more. */
  function Mask(w: Word): (r: Word)
    ensures r == w
  {
    w & 0xFFFF_FFFF
  }

  function ByteMask(x: Byte): (r: Byte)
    ensures r == x
  {
    x & 0xFF
  }

  // The expressions of the four loops.

  function Choose(b: Word, c: Word, d: Word): Word {
    (b & c) | (!b & d)
  }

  function Parity(b: Word, c: Word, d: Word): Word {
    b ^ c ^ d
  }

  function Majority(b: Word, c: Word, d: Word): Word {
    (b & c) | (b & d) | (c & d)
  }

  function Turn(f: Word, a: Word, e: Word, w: Word, k: Word): Word {
    Mask(Plus(Plus(Plus(Plus(CircularShift(5, a), f), e), w), k))
  }

  lemma StepByShift(x: Buffer, t: nat, w: Word)
    ensures Step(x, t, w) ==
      Buffer(Turn(F(t, x.b, x.c, x.d), x.a, x.e, w, K(t)), x.a, CircularShift(30, x.b), x.c, x.d)
  {
    CircularShiftRotates(x.a);
    CircularShiftRotates(x.b);
  }

  lemma NextStep(block: seq<Byte>, v: Buffer, t: nat, w: seq<Word>)
    requires |block| == 64 && |w| == 80 && IsSchedule(w, block) && t < 80
    ensures Steps(block, v, t + 1) == Step(Steps(block, v, t), t, w[t])
  {
    assert IsW(w, block, t);
  }

  function LoopF(t: nat, b: Word, c: Word, d: Word): (r: Word)
    ensures r == F(t, b, c, d)
  {
    if t < 20 then Choose(b, c, d) else if t < 40 then Parity(b, c, d)
    else if t < 60 then Majority(b, c, d) else Parity(b, c, d)
  }

  /** One turn of any of the four loops is one step of section 7. */
  lemma TurnIsStep(block: seq<Byte>, v: Buffer, t: nat, w: seq<Word>, x: Buffer)
    requires |block| == 64 && |w| == 80 && IsSchedule(w, block) && t < 80 && x == Steps(block, v, t)
    ensures Steps(block, v, t + 1) ==
      Buffer(Turn(LoopF(t, x.b, x.c, x.d), x.a, x.e, w[t], K(t)), x.a, CircularShift(30, x.b), x.c, x.d)
  {
    NextStep(block, v, t, w);
    StepByShift(x, t, w[t]);
  }

  /** All of m has been hashed except for a last part, which waits in the block. */
  ghost predicate Buffered(m: seq<Byte>, h: Buffer, part: seq<Byte>) {
    && |part| <= |m| && (|m| - |part|) % 64 == 0
    && h == Blocks(m[..|m| - |part|]) && part == m[|m| - |part|..]
  }

  lemma BufferedPush(m: seq<Byte>, h: Buffer, part: seq<Byte>, x: Byte)
    requires Buffered(m, h, part)
    ensures Buffered(m + [x], h, part + [x])
  {
    var n := |m| - |part|;
    assert (m + [x])[..n] == m[..n] && (m + [x])[n..] == m[n..] + [x];
  }

  lemma BufferedFull(m: seq<Byte>, h: Buffer, part: seq<Byte>)
    requires Buffered(m, h, part) && |part| == 64
    ensures Buffered(m, Compress(h, part), [])
  {
    var n := |m| - 64;
    assert m == m[..n] + part && m[..|m| - 0] == m;
    BlocksExtend(m[..n], part);
  }

  // Both cases of the padding.

  /** A padded message is its full blocks, and one or two more. */
  lemma PaddedLast(m: seq<Byte>, n: nat, zeros: seq<Byte>, length: seq<Byte>)
    requires n <= |m|
    ensures m + [0x80] + zeros + length == m[..n] + (m[n..] + [0x80] + zeros + length)
  {
    assert m == m[..n] + m[n..];
  }

  lemma InTwo(front: seq<Byte>, part: seq<Byte>, zeros: seq<Byte>, more: seq<Byte>, length: seq<Byte>)
    ensures front + (part + (zeros + more) + length) == front + (part + zeros) + (more + length)
  {
  }

  lemma PadInOneBlock(m: seq<Byte>, h: Buffer, part: seq<Byte>, length: seq<Byte>)
    requires Buffered(m, h, part) && |part| <= 55 && |length| == 8
    ensures Compress(h, part + [0x80] + Zeros(55 - |part|) + length) == Blocks(PadWith(m, length))
  {
    var n := |m| - |part|;
    assert |m| % 64 == |part| && PadZeros(|m|) == 55 - |part|;
    PaddedLast(m, n, Zeros(55 - |part|), length);
    BlocksExtend(m[..n], part + [0x80] + Zeros(55 - |part|) + length);
  }

  lemma PadInTwoBlocks(m: seq<Byte>, h: Buffer, part: seq<Byte>, length: seq<Byte>)
    requires Buffered(m, h, part) && 55 < |part| < 64 && |length| == 8
    ensures Compress(Compress(h, part + [0x80] + Zeros(63 - |part|)), Zeros(56) + length) == Blocks(PadWith(m, length))
  {
    var n := |m| - |part|;
    var first, last := part + [0x80] + Zeros(63 - |part|), Zeros(56) + length;
    assert |m| % 64 == |part| && PadZeros(|m|) == 119 - |part|;
    PaddedLast(m, n, Zeros(119 - |part|), length);
    assert Zeros(63 - |part|) + Zeros(56) == Zeros(119 - |part|);
    InTwo(m[..n], part + [0x80], Zeros(63 - |part|), Zeros(56), length);
    BlocksExtend(m[..n], first);
    BlocksExtend(m[..n] + first, last);
  }

  class SHA1 {
    const h: array<Word>               // H
    const block: array<Byte>           // Message_Block
    var index: nat                     // Message_Block_Index
    var low: nat                       // Length_Low
    var high: nat                      // Length_High
    var computed: bool
    var corrupted: bool
    ghost var message: seq<Byte>       // what has been input since the last reset

    ghost function Registers(): Buffer
      requires h.Length == 5
      reads h
    {
      Buffer(h[0], h[1], h[2], h[3], h[4])
    }

    ghost predicate Valid()
      reads this, h, block
    {
      && h.Length == 5 && block.Length == 64 && index < 64
      && low < WORD_RANGE && high < WORD_RANGE
      && (!corrupted ==> 8 * |message| < MAX_BITS)
      && (!corrupted && !computed ==>
           high * WORD_RANGE + low == 8 * |message| && Buffered(message, Registers(), block[..index]))
      && (!corrupted && computed ==> Registers() == Blocks(Pad(message)))
    }

    /** The first 16 words of the sequence are the block. */
    method LoadWords(w: array<Word>)
      requires block.Length == 64 && w.Length == 80
      modifies w
      ensures IsSchedule(w[..16], block[..])
    {
      var t := 0;
      while t < 16
        invariant 0 <= t <= 16 && forall j :: 0 <= j < t ==> w[j] == WordOf(block[4 * j], block[4 * j + 1], block[4 * j + 2], block[4 * j + 3])
      {
        w[t] := PackWord(block[t * 4], block[t * 4 + 1], block[t * 4 + 2], block[t * 4 + 3]);
        t := t + 1;
      }
      FirstWords(w[..16], block[..]);
    }

    /** The other 64 words. */
    method ExpandWords(w: array<Word>, ghost bytes: seq<Byte>)
      requires |bytes| == 64 && w.Length == 80 && IsSchedule(w[..16], bytes)
      modifies w
      ensures IsSchedule(w[..], bytes)
    {
      var t := 16;
      while t < 80
        invariant 16 <= t <= 80 && IsSchedule(w[..t], bytes)
      {
        ghost var before := w[..t];
        var next := NextWord(w, t);
        ScheduleExtends(before, bytes);
        w[t] := next;
        assert w[..t + 1] == before + [next];
        t := t + 1;
      }
      assert w[..] == w[..80];
    }

    /** The four loops over the word sequence. */
    method Turns(w: seq<Word>, ghost bytes: seq<Byte>, h0: Word, h1: Word, h2: Word, h3: Word, h4: Word)
      returns (a: Word, b: Word, c: Word, d: Word, e: Word)
      requires |bytes| == 64 && |w| == 80 && IsSchedule(w, bytes)
      ensures Buffer(a, b, c, d, e) == Steps(bytes, Buffer(h0, h1, h2, h3, h4), 80)
    {
      ghost var v := Buffer(h0, h1, h2, h3, h4);
      var temp: Word;
      a, b, c, d, e := h0, h1, h2, h3, h4;
      var t := 0;
      while t < 20
        invariant 0 <= t <= 20 && Buffer(a, b, c, d, e) == Steps(bytes, v, t)
      {
        temp := Turn(Choose(b, c, d), a, e, w[t], 0x5A827999);
        TurnIsStep(bytes, v, t, w, Buffer(a, b, c, d, e));
        e := d;
        d := c;
        c := CircularShift(30, b);
        b := a;
        a := temp;
        t := t + 1;
      }
      while t < 40
        invariant 20 <= t <= 40 && Buffer(a, b, c, d, e) == Steps(bytes, v, t)
      {
        temp := Turn(Parity(b, c, d), a, e, w[t], 0x6ED9EBA1);
        TurnIsStep(bytes, v, t, w, Buffer(a, b, c, d, e));
        e := d;
        d := c;
        c := CircularShift(30, b);
        b := a;
        a := temp;
        t := t + 1;
      }
      while t < 60
        invariant 40 <= t <= 60 && Buffer(a, b, c, d, e) == Steps(bytes, v, t)
      {
        temp := Turn(Majority(b, c, d), a, e, w[t], 0x8F1BBCDC);
        TurnIsStep(bytes, v, t, w, Buffer(a, b, c, d, e));
        e := d;
        d := c;
        c := CircularShift(30, b);
        b := a;
        a := temp;
        t := t + 1;
      }
      while t < 80
        invariant 60 <= t <= 80 && Buffer(a, b, c, d, e) == Steps(bytes, v, t)
      {
        temp := Turn(Parity(b, c, d), a, e, w[t], 0xCA62C1D6);
        TurnIsStep(bytes, v, t, w, Buffer(a, b, c, d, e));
        e := d;
        d := c;
        c := CircularShift(30, b);
        b := a;
        a := temp;
        t := t + 1;
      }
    }

    method ProcessMessageBlock()
      requires h.Length == 5 && block.Length == 64
      modifies this`index, h
      ensures Registers() == Compress(old(Registers()), block[..]) && index == 0
    {
      var w := new Word[80];
      LoadWords(w);
      ExpandWords(w, block[..]);
      var a, b, c, d, e := Turns(w[..], block[..], h[0], h[1], h[2], h[3], h[4]);
      h[0] := Mask(Plus(h[0], a));
      h[1] := Mask(Plus(h[1], b));
      h[2] := Mask(Plus(h[2], c));
      h[3] := Mask(Plus(h[3], d));
      h[4] := Mask(Plus(h[4], e));
      index := 0;
    }

    constructor ()
      ensures Valid() && message == [] && !computed && !corrupted && fresh(h) && fresh(block)
    {
      h := new Word[5];
      block := new Byte[64];
      index, low, high, computed, corrupted, message := 0, 0, 0, false, true, [];
      new;
      Reset();
    }

    method Reset()
      requires h.Length == 5 && block.Length == 64
      modifies this, h
      ensures Valid() && message == [] && !computed && !corrupted
    {
      low, high, index := 0, 0, 0;
      h[0], h[1], h[2], h[3], h[4] := 0x67452301, 0xEFCDAB89, 0x98BADCFE, 0x10325476, 0xC3D2E1F0;
      computed, corrupted := false, false;
      message := [];
    }

    /** Add eight bits to the two-word length. */
    method CountByte(ghost n: nat)
      requires low < WORD_RANGE && high < WORD_RANGE && high * WORD_RANGE + low == 8 * n && !corrupted
      modifies this`low, this`high, this`corrupted
      ensures low < WORD_RANGE && high < WORD_RANGE
      ensures corrupted <==> 8 * (n + 1) >= MAX_BITS
      ensures !corrupted ==> high * WORD_RANGE + low == 8 * (n + 1)
    {
      low := (low + 8) % WORD_RANGE;
      if low == 0 {
        high := (high + 1) % WORD_RANGE;
        if high == 0 {
          corrupted := true;
        }
      }
    }

    /** One round of the loop of Input. */
    method InputByte(x: Byte)
      requires Valid() && !computed && !corrupted
      modifies this, h, block
      ensures Valid() && !computed && message == old(message) + [x]
      ensures corrupted <==> 8 * |message| >= MAX_BITS
    {
      BufferedPush(message, Registers(), block[..index], x);
      ghost var part := block[..index];
      block[index] := ByteMask(x);
      CountByte(|message|);
      index, message := index + 1, message + [x];
      assert block[..index] == part + [x];
      if index == 64 {
        BufferedFull(message, Registers(), block[..]);
        ProcessMessageBlock();
      }
    }

    method Input(bytes: seq<Byte>)
      requires Valid() && |bytes| < WORD_RANGE
      modifies this, h, block
      ensures Valid() && computed == old(computed)
      ensures bytes == [] ==> message == old(message) && corrupted == old(corrupted)
      ensures bytes != [] && (old(computed) || old(corrupted)) ==> corrupted
      ensures bytes != [] && !old(computed) && !old(corrupted) ==>
        && (corrupted <==> 8 * |old(message) + bytes| >= MAX_BITS)
        && (!corrupted ==> message == old(message) + bytes)
    {
      if bytes == [] {
        return;
      }
      if computed || corrupted {
        corrupted := true;
        return;
      }
      var i := 0;
      while i < |bytes| && !corrupted
        invariant 0 <= i <= |bytes| && Valid() && !computed
        invariant message == old(message) + bytes[..i]
        invariant corrupted <==> 8 * |message| >= MAX_BITS
      {
        InputByte(bytes[i]);
        i := i + 1;
      }
      assert i == |bytes| ==> bytes[..i] == bytes;
    }

    method ZeroTo(end: nat)
      requires block.Length == 64 && index <= end <= 64
      modifies this`index, block
      ensures index == end
      ensures block[..end] == old(block[..index]) + Zeros(end - old(index))
    {
      while index < end
        invariant old(index) <= index <= end
        invariant forall i :: 0 <= i < old(index) ==> block[i] == old(block[i])
        invariant forall i :: old(index) <= i < index ==> block[i] == 0
      {
        block[index] := 0;
        index := index + 1;
      }
    }

    method PutByte(x: Byte)
      requires block.Length == 64 && index < 64
      modifies this`index, block
      ensures index == old(index) + 1 && block[..index] == old(block[..index]) + [x]
    {
      block[index] := x;
      index := index + 1;
    }

    /** The message length goes into the last eight bytes. */
    method PutLength(ghost bits: nat)
      requires block.Length == 64 && index == 56
      requires low < WORD_RANGE && high < WORD_RANGE && high * WORD_RANGE + low == bits
      modifies block
      ensures block[..] == old(block[..56]) + LengthBytes(bits)
    {
      assert bits / WORD_RANGE == high && bits % WORD_RANGE == low;
      block[56] := ByteOf(high / 0x100_0000);
      block[57] := ByteOf(high / 0x1_0000);
      block[58] := ByteOf(high / 0x100);
      block[59] := ByteOf(high);
      block[60] := ByteOf(low / 0x100_0000);
      block[61] := ByteOf(low / 0x1_0000);
      block[62] := ByteOf(low / 0x100);
      block[63] := ByteOf(low);
      assert block[..56] == old(block[..56]);
    }

    method FillFirst()
      requires Valid() && !computed && !corrupted && index > 55
      modifies this`index, h, block
      ensures index == 56
      ensures Compress(Registers(), block[..56] + LengthBytes(8 * |message|)) == Blocks(Pad(message))
    {
      PadInTwoBlocks(message, Registers(), block[..index], LengthBytes(8 * |message|));
      CloseBlock();
    }

    /** No room for the length: the block is filled up and processed, and another one begun. */
    method CloseBlock()
      requires h.Length == 5 && block.Length == 64 && index < 64
      modifies this`index, h, block
      ensures index == 56 && block[..56] == Zeros(56)
      ensures Registers() == Compress(old(Registers()), old(block[..index]) + [0x80] + Zeros(63 - old(index)))
    {
      PutByte(0x80);
      ZeroTo(64);
      assert block[..64] == block[..];
      ProcessMessageBlock();
      ZeroTo(56);
      assert block[..56] == Zeros(56);
    }

    method FillOnly()
      requires Valid() && !computed && !corrupted && index <= 55
      modifies this`index, h, block
      ensures index == 56
      ensures Compress(Registers(), block[..56] + LengthBytes(8 * |message|)) == Blocks(Pad(message))
    {
      ghost var part := block[..index];
      PadInOneBlock(message, Registers(), part, LengthBytes(8 * |message|));
      PutByte(0x80);
      ZeroTo(56);
      assert block[..56] == part + [0x80] + Zeros(55 - |part|);
    }

    method PadMessage()
      requires Valid() && !computed && !corrupted
      modifies this`index, h, block
      ensures Registers() == Blocks(Pad(message)) && index == 0
    {
      if index > 55 {
        FillFirst();
      } else {
        FillOnly();
      }
      PutLength(8 * |message|);
      ProcessMessageBlock();
    }

    /** The digest of everything input since the last reset, the same however often it is asked
        for; false once the object is corrupted. */
    method Result() returns (ok: bool, digest: seq<Word>)
      requires Valid()
      modifies this, h, block
      ensures Valid() && message == old(message) && corrupted == old(corrupted)
      ensures ok <==> !corrupted
      ensures ok ==> computed && digest == Digest(message)
    {
      if corrupted {
        return false, [];
      }
      if !computed {
        PadMessage();
        computed := true;
      }
      return true, [h[0], h[1], h[2], h[3], h[4]];
    }
  }

  function Flatten(pieces: seq<seq<Byte>>): seq<Byte> {
    if pieces == [] then [] else Flatten(pieces[..|pieces| - 1]) + pieces[|pieces| - 1]
  }

  /** However a message is split into calls of Input, the digest is that of section 7 for the
      whole message, and a second Result gives it again. */
  method HashInPieces(pieces: seq<seq<Byte>>) returns (ok: bool, digest: seq<Word>, again: seq<Word>)
    requires forall i :: 0 <= i < |pieces| ==> |pieces[i]| < WORD_RANGE
    ensures ok <==> 8 * |Flatten(pieces)| < MAX_BITS
    ensures ok ==> digest == Digest(Flatten(pieces)) && again == digest
  {
    var sha := new SHA1();
    var i := 0;
    while i < |pieces|
      invariant 0 <= i <= |pieces| && sha.Valid() && !sha.computed
      invariant fresh(sha) && fresh(sha.h) && fresh(sha.block)
      invariant sha.corrupted <==> 8 * |Flatten(pieces[..i])| >= MAX_BITS
      invariant !sha.corrupted ==> sha.message == Flatten(pieces[..i])
    {
      sha.Input(pieces[i]);
      assert pieces[..i + 1][..i] == pieces[..i];
      i := i + 1;
    }
    assert pieces[..i] == pieces;
    ok, digest := sha.Result();
    var ok', second := sha.Result();
    again := second;
  }
}
