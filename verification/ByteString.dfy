/** Bytes, network byte order (net/Net.h) and the growing string both protocols write into
    (Type.h:255-490). */
module ByteString {
  import opened Sequences

  type Byte = b: int | 0 <= b < 256

  function Zeros(n: nat): (r: seq<Byte>)
    ensures |r| == n && forall i :: 0 <= i < n ==> r[i] == 0
  {
    seq(n, _ => 0)
  }

  // Network byte order.

  function Be16(v: nat): (r: seq<Byte>)
    ensures |r| == 2
  {
    [v / 256 % 256, v % 256]
  }

  function Be32(v: nat): (r: seq<Byte>)
    ensures |r| == 4
  {
    Be16(v / 65536) + Be16(v)
  }

  /** The most significant byte first. */
  lemma Be32Spelled(v: nat)
    ensures Be32(v) == [v / 0x1000000 % 256, v / 0x10000 % 256, v / 0x100 % 256, v % 256]
    ensures Be16(v) == [v / 0x100 % 256, v % 256]
  {
    assert v / 65536 / 256 == v / 16777216;
  }

  function Read16(s: seq<Byte>): (v: nat)
    requires |s| >= 2
    ensures v < 65536
  {
    s[0] as int * 256 + s[1]
  }

  function Read32(s: seq<Byte>): (v: nat)
    requires |s| >= 4
    ensures v < 4294967296
  {
    Read16(s) * 65536 + Read16(s[2..])
  }

  lemma Read16Be16(v: nat, rest: seq<Byte>)
    ensures Read16(Be16(v) + rest) == v % 65536
  {
    Bytes16(v);
  }

  lemma Bytes16(v: nat)
    ensures v / 256 % 256 * 256 + v % 256 == v % 65536
  {
    var high := v / 256;
    Remainder(high / 256, high % 256 * 256 + v % 256, 65536);
    assert v == high / 256 * 65536 + (high % 256 * 256 + v % 256);
  }

  lemma Remainder(q: nat, r: nat, m: nat)
    requires r < m && (m == 65536 || m == 4294967296)
    ensures (q * m + r) % m == r
  {
  }

  lemma Halves(v: nat)
    ensures v / 65536 % 65536 * 65536 + v % 65536 == v % 4294967296
  {
    var high, low := v / 65536, v % 65536;
    Remainder(high / 65536, high % 65536 * 65536 + low, 4294967296);
    assert v == high / 65536 * 4294967296 + (high % 65536 * 65536 + low);
  }

  lemma Read32Parts(high: seq<Byte>, low: seq<Byte>)
    requires |high| == 2 && |low| >= 2
    ensures Read32(high + low) == Read16(high + low) * 65536 + Read16(low)
  {
    Tail(high, low);
  }

  lemma Read32Be32(v: nat, rest: seq<Byte>)
    ensures Read32(Be32(v) + rest) == v % 4294967296
  {
    var high, low := Be16(v / 65536), Be16(v) + rest;
    Read16Be16(v / 65536, low);
    Read16Be16(v, rest);
    assert Be32(v) + rest == high + low;
    Read32Parts(high, low);
    Halves(v);
  }

  /** memcpy (and memset) of some bytes to a place in a buffer. */
  method CopyAt(a: array<Byte>, at: nat, d: seq<Byte>)
    requires at + |d| <= a.Length
    modifies a
    ensures forall j :: 0 <= j < a.Length && !(at <= j < at + |d|) ==> a[j] == old(a[j])
    ensures forall j :: 0 <= j < |d| ==> a[at + j] == d[j]
  {
    var i := 0;
    while i < |d|
      invariant 0 <= i <= |d|
      invariant forall j :: 0 <= j < a.Length && !(at <= j < at + i) ==> a[j] == old(a[j])
      invariant forall j :: 0 <= j < i ==> a[at + j] == d[j]
    {
      a[at + i] := d[i];
      i := i + 1;
    }
  }

  lemma CopiedBehind(a: seq<Byte>, at: nat, before: seq<Byte>, d: seq<Byte>)
    requires at + |d| <= |a| && |before| == at
    requires forall j :: 0 <= j < at ==> a[j] == before[j]
    requires forall j :: 0 <= j < |d| ==> a[at + j] == d[j]
    ensures a[..at + |d|] == before + d
  {
  }

  /** eco::String: a zero-terminated buffer that grows by doubling. */
  class String {
    var data: array?<Byte>
    var size: nat
    var capacity: nat

    ghost predicate Valid()
      reads this
    {
      && size <= capacity
      && (data == null ==> capacity == 0)
      && (data != null ==> data.Length == capacity + 1)
    }

    ghost function Contents(): seq<Byte>
      requires Valid()
      reads this, data
    {
      if data == null then [] else data[..size]
    }

    constructor ()
      ensures Valid() && Contents() == [] && data == null
    {
      data, size, capacity := null, 0, 0;
    }

    method Reserve(c: nat)
      requires Valid()
      modifies this
      ensures Valid() && Contents() == old(Contents()) && capacity >= c && size == old(size)
      ensures capacity == if old(capacity) < c then (if old(capacity) * 2 < c then c else old(capacity) * 2) else old(capacity)
      ensures data == old(data) || fresh(data)
      ensures c > 0 ==> data != null
    {
      if capacity < c {
        var newSize := capacity * 2;
        if newSize < c {
          newSize := c;
        }
        var newData := new Byte[newSize + 1];
        var i := 0;
        while i < size
          invariant 0 <= i <= size && newData[..i] == Contents()[..i]
          modifies newData
        {
          newData[i] := data[i];
          i := i + 1;
        }
        newData[size] := 0;
        data, capacity := newData, newSize;
      }
    }

    /** A larger string keeps its bytes; the bytes added are whatever the buffer held. */
    method Resize(s: nat)
      requires Valid()
      modifies this, data
      ensures Valid() && size == s
      ensures data == old(data) || fresh(data)
      ensures if s <= old(size) then Contents() == old(Contents())[..s] else old(Contents()) == Contents()[..old(size)]
    {
      Reserve(s);
      size := s;
      if data != null {
        data[size] := 0;
      }
    }

    method Clear()
      requires Valid()
      modifies this, data
      ensures Valid() && Contents() == [] && data == old(data)
    {
      size := 0;
      if data != null {
        data[0] := 0;
      }
    }

    /** Append n copies of one byte.  A string without a buffer cannot append nothing: the
        terminator has nowhere to go. */
    method Fill(n: nat, c: Byte)
      requires Valid() && (data != null || n > 0)
      modifies this, data
      ensures Valid() && Contents() == old(Contents()) + seq(n, _ => c) && data != null
      ensures data == old(data) || fresh(data)
    {
      Append(seq(n, _ => c));
    }

    method Append(d: seq<Byte>)
      requires Valid() && (data != null || d != [])
      modifies this, data
      ensures Valid() && Contents() == old(Contents()) + d && data != null
      ensures data == old(data) || fresh(data)
    {
      Reserve(size + |d|);
      ghost var before := Contents();
      CopyAt(data, size, d);
      CopiedBehind(data[..], size, before, d);
      size := size + |d|;
      data[size] := 0;
    }

    method Put(pos: nat, c: Byte)
      requires Valid() && pos < size
      modifies data
      ensures Valid() && Contents() == old(Contents())[pos := c]
    {
      data[pos] := c;
    }

    /** hton at a position, 16 bits. */
    method Put16(pos: nat, v: nat)
      requires Valid() && pos + 2 <= size
      modifies data
      ensures Valid() && Contents() == old(Contents())[..pos] + Be16(v) + old(Contents())[pos + 2..]
    {
      data[pos] := v / 256 % 256;
      data[pos + 1] := v % 256;
    }

    /** hton at a position, 32 bits. */
    method Put32(pos: nat, v: nat)
      requires Valid() && pos + 4 <= size
      modifies data
      ensures Valid() && Contents() == old(Contents())[..pos] + Be32(v) + old(Contents())[pos + 4..]
    {
      ghost var before := Contents();
      Put16(pos, v / 65536);
      Put16(pos + 2, v);
      assert Contents() == before[..pos] + Be32(v) + before[pos + 4..];
    }

    /** hton at a position, 64 bits: both halves go to the same four bytes, so only the low half
        is written and the next four bytes stay what they were. */
    method Put64(pos: nat, v: nat)
      requires Valid() && pos + 8 <= size
      modifies data
      ensures Valid() && Contents() == old(Contents())[..pos] + Be32(v % 4294967296) + old(Contents())[pos + 4..]
    {
      ghost var before := Contents();
      Put32(pos, v / 4294967296);
      Put32(pos, v % 4294967296);
      assert Contents() == before[..pos] + Be32(v % 4294967296) + before[pos + 4..];
    }

    method AppendHton16(v: nat)
      requires Valid()
      modifies this, data
      ensures Valid() && Contents() == old(Contents()) + Be16(v) && data != null
      ensures data == old(data) || fresh(data)
    {
      var pos := size;
      Resize(pos + 2);
      Put16(pos, v);
    }

    method AppendHton32(v: nat)
      requires Valid()
      modifies this, data
      ensures Valid() && Contents() == old(Contents()) + Be32(v) && data != null
      ensures data == old(data) || fresh(data)
    {
      var pos := size;
      Resize(pos + 4);
      Put32(pos, v);
    }

    /** The four bytes after the low half are whatever the buffer held. */
    method AppendHton64(v: nat) returns (ghost junk: seq<Byte>)
      requires Valid()
      modifies this, data
      ensures Valid() && data != null && |junk| == 4
      ensures Contents() == old(Contents()) + Be32(v % 4294967296) + junk
      ensures data == old(data) || fresh(data)
    {
      ghost var before := Contents();
      var pos := size;
      Resize(pos + 8);
      junk := Contents()[pos + 4..];
      Put64(pos, v);
      assert Contents() == before + Be32(v % 4294967296) + junk;
    }
  }
}
