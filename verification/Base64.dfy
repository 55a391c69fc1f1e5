/** base64_encode and base64_decode (codec/base64.cpp) against section 4 of RFC 4648.  Bytes are the
    integers 0 to 255; masks and shifts are written as remainders and quotients.
 */
module Base64 {
  import opened Sequences
  import ByteString

  type Byte = ByteString.Byte
  type Sextet = v: int | 0 <= v < 64

  const UPPER := "ABCDEFGHIJKLMNOPQRSTUVWXYZ"
  const LOWER := "abcdefghijklmnopqrstuvwxyz"
  const REST := "0123456789+/"
  const ALPHABET: string := UPPER + LOWER + REST

  // Section 4 of RFC 4648.

  /** Table 1. */
  function CharOf(v: Sextet): char {
    if v < 26 then 'A' + v as char
    else if v < 52 then 'a' + (v - 26) as char
    else if v < 62 then '0' + (v - 52) as char
    else if v == 62 then '+' else '/'
  }

  function ValueOf(c: char): (v: int)
    ensures -1 <= v < 64
  {
    if 'A' <= c <= 'Z' then (c - 'A') as int
    else if 'a' <= c <= 'z' then (c - 'a') as int + 26
    else if '0' <= c <= '9' then (c - '0') as int + 52
    else if c == '+' then 62 else if c == '/' then 63 else -1
  }

  lemma CharRoundTrip(v: Sextet)
    ensures ValueOf(CharOf(v)) == v && CharOf(v) != '='
  {
  }

  lemma ValueRoundTrip(c: char)
    ensures ValueOf(c) >= 0 ==> CharOf(ValueOf(c)) == c
  {
  }

  lemma AlphabetIsTable1(v: Sextet)
    ensures |ALPHABET| == 64 && ALPHABET[v] == CharOf(v)
  {
    assert |UPPER| == 26 && |LOWER| == 26 && |REST| == 12;
    assert ALPHABET[v] == if v < 26 then UPPER[v] else if v < 52 then LOWER[v - 26] else REST[v - 52];
  }

  /** A 24-bit group as four 6-bit groups. */
  function Group(a: Byte, b: Byte, c: Byte): (r: seq<Sextet>)
    ensures |r| == 4
  {
    var n := 65536 * a + 256 * b + c;
    [n / 64 / 64 / 64, n / 64 / 64 % 64, n / 64 % 64, n % 64]
  }

  function Chars(v: seq<Sextet>): (r: string)
    ensures |r| == |v|
  {
    seq(|v|, i requires 0 <= i < |v| => CharOf(v[i]))
  }

  /** A final quantum of 8 or 16 bits is filled with zero bits, and padded to four characters. */
  function Encode(x: seq<Byte>): string {
    if x == [] then ""
    else if |x| == 1 then Chars(Group(x[0], 0, 0)[..2]) + "=="
    else if |x| == 2 then Chars(Group(x[0], x[1], 0)[..3]) + "="
    else Chars(Group(x[0], x[1], x[2])) + Encode(x[3..])
  }

  /** The values of the characters before the first one outside the alphabet. */
  function Values(s: string): (v: seq<Sextet>)
    ensures |v| <= |s|
  {
    if s == "" || ValueOf(s[0]) < 0 then [] else [ValueOf(s[0])] + Values(s[1..])
  }

  function Pack(p: Sextet, q: Sextet, r: Sextet, t: Sextet): (n: int)
    ensures 0 <= n < 16777216
  {
    ((p as int * 64 + q) * 64 + r) * 64 + t
  }

  /** Four 6-bit groups as three bytes; an incomplete last group gives the bytes it fills. */
  function Bytes(v: seq<Sextet>): seq<Byte> {
    if |v| >= 4 then
      var n := Pack(v[0], v[1], v[2], v[3]);
      [n / 256 / 256, n / 256 % 256, n % 256] + Bytes(v[4..])
    else if |v| == 3 then [v[0] as int * 4 + v[1] / 16, v[1] as int % 16 * 16 + v[2] / 4]
    else if |v| == 2 then [v[0] as int * 4 + v[1] / 16]
    else []
  }

  function Decode(s: string): seq<Byte> {
    Bytes(Values(s))
  }

  lemma {:induction false} EncodedLength(x: seq<Byte>)
    ensures |Encode(x)| == 4 * ((|x| + 2) / 3)
  {
    if |x| > 2 {
      EncodedLength(x[3..]);
      ThirdMore(|x| - 3);
    }
  }

  lemma ThirdMore(n: nat)
    ensures (n + 3 + 2) / 3 == (n + 2) / 3 + 1
  {
  }

  lemma {:induction false} ValuesOfChars(v: seq<Sextet>, rest: string)
    ensures Values(Chars(v) + rest) == v + Values(rest)
  {
    if v == [] {
      assert Chars(v) + rest == rest;
    } else {
      CharRoundTrip(v[0]);
      assert (Chars(v) + rest)[1..] == Chars(v[1..]) + rest;
      ValuesOfChars(v[1..], rest);
    }
  }

  lemma Quotient(q: int, r: int, m: int)
    requires 0 <= r < m && (m == 64 || m == 256)
    ensures (q * m + r) / m == q && (q * m + r) % m == r
  {
  }

  lemma PackDigits(p: Sextet, q: Sextet, r: Sextet, t: Sextet, n: int)
    requires n == Pack(p, q, r, t)
    ensures n / 64 / 64 / 64 == p && n / 64 / 64 % 64 == q && n / 64 % 64 == r && n % 64 == t
  {
    Quotient((p as int * 64 + q) * 64 + r, t, 64);
    Quotient(p as int * 64 + q, r, 64);
    Quotient(p, q, 64);
  }

  lemma BytesDigits(a: Byte, b: Byte, c: Byte, n: int)
    requires n == 65536 * a + 256 * b + c
    ensures n / 256 / 256 == a && n / 256 % 256 == b && n % 256 == c
  {
    Quotient(256 * a + b, c, 256);
    Quotient(a, b, 256);
  }

  /** The group's parts by the masks and shifts of the code, and back. */
  lemma GroupParts(a: Byte, b: Byte, c: Byte)
    ensures Group(a, b, c) == [a / 4, a % 4 * 16 + b / 16, b % 16 * 4 + c / 64, c % 64]
    ensures Pack(a / 4, a % 4 * 16 + b / 16, b % 16 * 4 + c / 64, c % 64) == 65536 * a + 256 * b + c
  {
    PackParts(a / 4, a % 4, b / 16, b % 16, c / 64, c % 64);
    PackDigits(a / 4, a % 4 * 16 + b / 16, b % 16 * 4 + c / 64, c % 64, 65536 * a + 256 * b + c);
  }

  lemma PackParts(a1: int, a0: int, b1: int, b0: int, c1: int, c0: int)
    requires 0 <= a1 < 64 && 0 <= a0 < 4 && 0 <= b1 < 16 && 0 <= b0 < 16 && 0 <= c1 < 4 && 0 <= c0 < 64
    ensures Pack(a1, a0 * 16 + b1, b0 * 4 + c1, c0) == 65536 * (4 * a1 + a0) + 256 * (16 * b1 + b0) + (64 * c1 + c0)
  {
  }

  lemma GroupRoundTrip(a: Byte, b: Byte, c: Byte, rest: seq<Sextet>)
    ensures Bytes(Group(a, b, c) + rest) == [a, b, c] + Bytes(rest)
    ensures c == 0 ==> Bytes(Group(a, b, c)[..3]) == [a, b]
    ensures b == 0 && c == 0 ==> Bytes(Group(a, b, c)[..2]) == [a]
  {
    GroupParts(a, b, c);
    BytesDigits(a, b, c, 65536 * a + 256 * b + c);
    Tail(Group(a, b, c), rest);
    FirstBytes(a, b, c);
  }

  lemma FirstBytes(a: Byte, b: Byte, c: Byte)
    ensures (a / 4) * 4 + (a % 4 * 16 + b / 16) / 16 == a
    ensures (a % 4 * 16 + b / 16) % 16 * 16 + (b % 16 * 4 + c / 64) / 4 == b
  {
  }

  /** Decoding what was encoded gives every byte string back. */
  lemma {:induction false} RoundTrip(x: seq<Byte>)
    ensures Decode(Encode(x)) == x
  {
    if x == [] {
    } else if |x| == 1 {
      OneByte(x[0]);
    } else if |x| == 2 {
      TwoBytes(x[0], x[1]);
    } else {
      var g := Group(x[0], x[1], x[2]);
      ValuesOfChars(g, Encode(x[3..]));
      GroupRoundTrip(x[0], x[1], x[2], Values(Encode(x[3..])));
      RoundTrip(x[3..]);
    }
  }

  lemma OneByte(a: Byte)
    ensures Decode(Encode([a])) == [a]
  {
    var g := Group(a, 0, 0);
    ValuesOfChars(g[..2], "==");
    assert Values("==") == [] && g[..2] + [] == g[..2];
    GroupRoundTrip(a, 0, 0, []);
  }

  lemma TwoBytes(a: Byte, b: Byte)
    ensures Decode(Encode([a, b])) == [a, b]
  {
    var g := Group(a, b, 0);
    ValuesOfChars(g[..3], "=");
    assert Values("=") == [] && g[..3] + [] == g[..3];
    GroupRoundTrip(a, b, 0, []);
  }

  /** How many bytes the last group lacks. */
  function Missing(n: nat): nat {
    (3 - n % 3) % 3
  }

  lemma MissingRepeats(n: nat)
    requires n >= 3
    ensures Missing(n - 3) == Missing(n)
  {
    assert (n - 3) % 3 == n % 3;
  }

  function Equals(n: nat): string {
    seq(n, _ => '=')
  }

  lemma PaddedChars(v: seq<Sextet>, n: nat)
    ensures Chars(v) + Equals(n) == Chars(Values(Chars(v) + Equals(n))) + Equals(n)
  {
    ValuesOfChars(v, Equals(n));
    assert Values(Equals(n)) == [] && v + [] == v;
  }

  lemma PrependedChars(v: seq<Sextet>, s: string, n: nat)
    requires s == Chars(Values(s)) + Equals(n)
    ensures Chars(v) + s == Chars(Values(Chars(v) + s)) + Equals(n)
  {
    ValuesOfChars(v, s);
    assert Chars(v + Values(s)) == Chars(v) + Chars(Values(s));
  }

  /** Characters of the alphabet, then as many "=" as the last group lacks bytes. */
  lemma {:induction false} Padding(x: seq<Byte>)
    ensures Encode(x) == Chars(Values(Encode(x))) + Equals(Missing(|x|))
  {
    if |x| == 1 {
      assert "==" == Equals(2);
      PaddedChars(Group(x[0], 0, 0)[..2], 2);
    } else if |x| == 2 {
      assert "=" == Equals(1);
      PaddedChars(Group(x[0], x[1], 0)[..3], 1);
    } else if |x| > 2 {
      Padding(x[3..]);
      MissingRepeats(|x|);
      PrependedChars(Group(x[0], x[1], x[2]), Encode(x[3..]), Missing(|x|));
    }
  }

  // The code.

  /** char_array_3 into char_array_4. */
  method Split(a: array<Byte>, b: array<Sextet>)
    requires a.Length == 3 && b.Length == 4
    modifies b
    ensures b[..] == Group(a[0], a[1], a[2])
  {
    GroupParts(a[0], a[1], a[2]);
    b[0] := a[0] / 4;
    b[1] := a[0] % 4 * 16 + a[1] / 16;
    b[2] := a[1] % 16 * 4 + a[2] / 64;
    b[3] := a[2] % 64;
  }

  method AppendChars(ret: string, b: array<Sextet>, n: nat) returns (r: string)
    requires n <= b.Length
    ensures r == ret + Chars(b[..n])
  {
    r := ret;
    var j := 0;
    while j < n
      invariant 0 <= j <= n && r == ret + Chars(b[..j])
    {
      AlphabetIsTable1(b[j]);
      r := r + [ALPHABET[b[j]]];
      j := j + 1;
    }
  }

  /** What is done, and what is left of x: a part group and the rest. */
  ghost predicate Encoding(done: string, part: seq<Byte>, rest: seq<Byte>, x: seq<Byte>) {
    done + Encode(part + rest) == Encode(x)
  }

  lemma EncodingGroup(done: string, a: seq<Byte>, rest: seq<Byte>, x: seq<Byte>)
    requires |a| == 3 && Encoding(done, a, rest, x)
    ensures Encoding(done + Chars(Group(a[0], a[1], a[2])), [], rest, x)
  {
    Tail(a, rest);
    assert [] + rest == rest;
    Regroup(done, Chars(Group(a[0], a[1], a[2])), Encode(rest));
  }

  lemma EncodingTake(done: string, part: seq<Byte>, all: seq<Byte>, pos: nat, x: seq<Byte>)
    requires pos < |all| && Encoding(done, part, all[pos..], x)
    ensures Encoding(done, part + [all[pos]], all[pos + 1..], x)
  {
    TakeOne(part, all, pos);
  }

  lemma TakeOne<T>(part: seq<T>, all: seq<T>, pos: nat)
    requires pos < |all|
    ensures part + all[pos..] == part + [all[pos]] + all[pos + 1..]
  {
  }

  method Base64Encode(bytes: seq<Byte>) returns (ret: string)
    ensures ret == Encode(bytes)
  {
    ret := "";
    var i, pos := 0, 0;
    var a, b := new Byte[3], new Sextet[4];
    ghost var part: seq<Byte> := [];
    assert part + bytes[0..] == bytes && [] + Encode(bytes) == Encode(bytes);
    while pos < |bytes|
      invariant 0 <= i < 3 && 0 <= pos <= |bytes| && part == a[..i]
      invariant Encoding(ret, part, bytes[pos..], bytes)
    {
      EncodingTake(ret, part, bytes, pos, bytes);
      a[i] := bytes[pos];
      part := part + [bytes[pos]];
      i, pos := i + 1, pos + 1;
      if i == 3 {
        EncodingGroup(ret, part, bytes[pos..], bytes);
        ret := EncodeGroup(ret, a, b, part);
        part, i := [], 0;
      }
    }
    assert part + bytes[pos..] == part;
    if i != 0 {
      ret := EncodeLast(ret, a, b, i);
    } else {
      assert ret + Encode([]) == ret;
    }
  }

  method EncodeGroup(done: string, a: array<Byte>, b: array<Sextet>, ghost part: seq<Byte>) returns (ret: string)
    requires a.Length == 3 && b.Length == 4 && part == a[..3]
    modifies b
    ensures ret == done + Chars(Group(part[0], part[1], part[2]))
  {
    Split(a, b);
    ret := AppendChars(done, b, 4);
    assert b[..4] == b[..];
  }

  /** The one or two bytes left over. */
  method EncodeLast(done: string, a: array<Byte>, b: array<Sextet>, i: nat) returns (ret: string)
    requires a.Length == 3 && b.Length == 4 && 0 < i < 3
    modifies a, b
    ensures ret == done + Encode(old(a[..i]))
  {
    ghost var x := a[..i];
    var j := i;
    while j < 3
      invariant i <= j <= 3 && a[..i] == x && forall m :: i <= m < j ==> a[m] == 0
      modifies a
    {
      a[j] := 0;
      j := j + 1;
    }
    Split(a, b);
    ret := AppendChars(done, b, i + 1);
    var n := i;
    while n < 3
      invariant i <= n <= 3 && ret == done + Chars(b[..i + 1]) + Equals(n - i)
    {
      ret := ret + "=";
      n := n + 1;
    }
    assert Equals(1) == "=" && Equals(2) == "==";
    assert done + Chars(b[..i + 1]) + Equals(3 - i) == done + (Chars(b[..i + 1]) + Equals(3 - i));
  }

  predicate IsAlnum(c: char) {
    '0' <= c <= '9' || 'A' <= c <= 'Z' || 'a' <= c <= 'z'
  }

  /** is_base64 */
  predicate IsBase64(c: char) {
    IsAlnum(c) || c == '+' || c == '/'
  }

  /** base64_chars.find, cast to an unsigned char: npos becomes 255. */
  method Find(c: Byte) returns (r: Byte)
    ensures r == if ValueOf(c as char) >= 0 then ValueOf(c as char) else 255
  {
    var k := 0;
    while k < 64
      invariant 0 <= k <= 64
      invariant forall j: Sextet :: 0 <= j < k ==> CharOf(j) != c as char
    {
      AlphabetIsTable1(k);
      CharRoundTrip(k);
      if ALPHABET[k] as int == c {
        return k;
      }
      k := k + 1;
    }
    ValueRoundTrip(c as char);
    return 255;
  }

  // The three expressions for char_array_3, cut to eight bits.

  function First(p: int, q: int): Byte {
    (p * 4 + q / 16 % 4) % 256
  }

  function Second(q: int, r: int): Byte {
    (q % 16 * 16 + r / 4 % 16) % 256
  }

  function Third(r: int, t: int): Byte {
    (r % 4 * 64 + t) % 256
  }

  /** On sextets nothing is cut off. */
  lemma NothingCut(p: Sextet, q: Sextet, r: Sextet, t: Sextet)
    ensures First(p, q) == p as int * 4 + q / 16
    ensures Second(q, r) == q as int % 16 * 16 + r / 4
    ensures Third(r, t) == r as int % 4 * 64 + t
  {
  }

  /** char_array_4 into char_array_3. */
  method Join(b: array<Byte>, a: array<Byte>)
    requires a.Length == 3 && b.Length == 4 && a != b
    modifies a
    ensures a[..] == [First(b[0], b[1]), Second(b[1], b[2]), Third(b[2], b[3])]
  {
    a[0] := First(b[0], b[1]);
    a[1] := Second(b[1], b[2]);
    a[2] := Third(b[2], b[3]);
  }

  /** What Join computes from four sextets is the next three bytes. */
  lemma JoinIsBytes(v: seq<Sextet>, rest: seq<Sextet>)
    requires |v| == 4
    ensures Bytes(v + rest) == [First(v[0], v[1]), Second(v[1], v[2]), Third(v[2], v[3])] + Bytes(rest)
  {
    NothingCut(v[0], v[1], v[2], v[3]);
    BytesDigits(First(v[0], v[1]), Second(v[1], v[2]), Third(v[2], v[3]), Pack(v[0], v[1], v[2], v[3]));
    assert (v + rest)[4..] == rest;
  }

  /** From two or three sextets Join computes one or two bytes, whatever the others are. */
  lemma JoinIsLastBytes(v: seq<Sextet>)
    requires 0 < |v| < 4
    ensures |v| == 2 ==> Bytes(v) == [First(v[0], v[1])]
    ensures |v| == 3 ==> Bytes(v) == [First(v[0], v[1]), Second(v[1], v[2])]
  {
    if |v| > 1 {
      NothingCut(v[0], v[1], if |v| == 3 then v[2] else 0, 0);
    }
  }

  /** The first characters in char_array_4 have the values v. */
  ghost predicate Holds(b: seq<Byte>, v: seq<Sextet>) {
    |v| <= |b| && forall j :: 0 <= j < |v| ==> ValueOf(b[j] as char) == v[j]
  }

  method Store(b: array<Byte>, i: nat, c: char, ghost v: seq<Sextet>) returns (ghost r: seq<Sextet>)
    requires i == |v| < b.Length && Holds(b[..], v) && c as int < 256 && ValueOf(c) >= 0
    modifies b
    ensures r == v + [ValueOf(c)] && Holds(b[..], r)
  {
    b[i] := c as int;
    r := v + [ValueOf(c)];
  }

  method FindAll(b: array<Byte>, ghost v: seq<Sextet>)
    requires b.Length == 4 && |v| <= 4
    requires Holds(b[..], v)
    modifies b
    ensures forall j :: 0 <= j < |v| ==> b[j] == v[j]
  {
    var j := 0;
    while j < 4
      invariant 0 <= j <= 4
      invariant forall k :: 0 <= k < |v| ==> if k < j then b[k] == v[k] else ValueOf(b[k] as char) == v[k]
    {
      var f := Find(b[j]);
      b[j] := f;
      j := j + 1;
    }
  }

  method AppendBytes(ret: seq<Byte>, a: array<Byte>, n: nat) returns (r: seq<Byte>)
    requires n <= a.Length
    ensures r == ret + a[..n]
  {
    r := ret;
    var j := 0;
    while j < n
      invariant 0 <= j <= n && r == ret + a[..j]
    {
      r := r + [a[j]];
      j := j + 1;
    }
  }

  /** Decode a full group. */
  method DecodeGroup(done: seq<Byte>, b: array<Byte>, a: array<Byte>, ghost v: seq<Sextet>, ghost rest: seq<Sextet>)
    returns (ret: seq<Byte>)
    requires a.Length == 3 && b.Length == 4 && a != b && |v| == 4
    requires Holds(b[..], v)
    modifies a, b
    ensures ret + Bytes(rest) == done + Bytes(v + rest)
  {
    FindAll(b, v);
    Join(b, a);
    JoinIsBytes(v, rest);
    ret := AppendBytes(done, a, 3);
    assert a[..3] == a[..] == [First(v[0], v[1]), Second(v[1], v[2]), Third(v[2], v[3])];
    Regroup(done, a[..3], Bytes(rest));
  }

  /** Decode what is left: i characters fill i - 1 bytes. */
  method DecodeLast(done: seq<Byte>, b: array<Byte>, a: array<Byte>, i: nat, ghost v: seq<Sextet>)
    returns (ret: seq<Byte>)
    requires a.Length == 3 && b.Length == 4 && a != b && 0 < i < 4 && |v| == i
    requires Holds(b[..], v)
    modifies a, b
    ensures ret == done + Bytes(v)
  {
    var j := i;
    while j < 4
      invariant i <= j <= 4 && forall k :: 0 <= k < i ==> b[k] == old(b[k])
      modifies b
    {
      b[j] := 0;
      j := j + 1;
    }
    FindAll(b, v);
    Join(b, a);
    JoinIsLastBytes(v);
    ret := AppendBytes(done, a, i - 1);
    assert a[..i - 1] == a[..][..i - 1];
  }

  method Base64Decode(s: string) returns (ret: seq<Byte>)
    requires forall c :: c in s ==> c as int < 256
    ensures ret == Decode(s)
  {
    ret := [];
    var i, pos := 0, 0;
    var a, b := new Byte[3], new Byte[4];
    ghost var v: seq<Sextet> := [];
    DecodingStarts(s);
    while pos < |s| && s[pos] != '=' && IsBase64(s[pos])
      invariant 0 <= i < 4 && 0 <= pos <= |s| && |v| == i
      invariant Holds(b[..], v)
      invariant Decoding(ret, v, s, pos)
    {
      ValuesNext(v, s, pos);
      v := Store(b, i, s[pos], v);
      i, pos := i + 1, pos + 1;
      if i == 4 {
        ret := DecodeGroup(ret, b, a, v, Values(s[pos..]));
        v, i := [], 0;
        assert v + Values(s[pos..]) == Values(s[pos..]);
      }
    }
    DecodingEnds(ret, v, s, pos);
    if i != 0 {
      ret := DecodeLast(ret, b, a, i, v);
    } else {
      assert ret + Bytes([]) == ret;
    }
  }

  /** What is done, and what is left: the values of a part group and of the rest. */
  ghost predicate Decoding(done: seq<Byte>, v: seq<Sextet>, s: string, pos: nat)
    requires pos <= |s|
  {
    done + Bytes(v + Values(s[pos..])) == Decode(s)
  }

  lemma DecodingStarts(s: string)
    ensures Decoding([], [], s, 0)
  {
    assert s[0..] == s && [] + Values(s) == Values(s);
  }

  lemma DecodingEnds(done: seq<Byte>, v: seq<Sextet>, s: string, pos: nat)
    requires pos <= |s| && Decoding(done, v, s, pos)
    requires pos < |s| ==> s[pos] == '=' || !IsBase64(s[pos])
    ensures done + Bytes(v) == Decode(s)
  {
    assert Values(s[pos..]) == [];
    assert v + [] == v;
  }

  lemma ValuesNext(v: seq<Sextet>, s: string, pos: nat)
    requires pos < |s| && ValueOf(s[pos]) >= 0
    ensures v + Values(s[pos..]) == v + [ValueOf(s[pos])] + Values(s[pos + 1..])
  {
    assert s[pos..][1..] == s[pos + 1..];
  }
}
