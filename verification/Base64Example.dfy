/** The examples of section 10 of RFC 4648. */
module Base64Example {
  import opened Base64

  /** The examples, and one for the last two characters of the table. */
  lemma Examples()
    ensures Encode([0x66]) == "Zg==" && Encode([0x66, 0x6F]) == "Zm8=" && Encode([0x66, 0x6F, 0x6F]) == "Zm9v"
    ensures Encode([0x66, 0x6F, 0x6F, 0x62, 0x61, 0x72]) == "Zm9vYmFy"
    ensures Encode([0xFB, 0xFF]) == "+/8="
  {
    GroupExample(0x66, 0, 0, 25, 32, 0, 0);
    GroupExample(0x66, 0x6F, 0, 25, 38, 60, 0);
    GroupExample(0x66, 0x6F, 0x6F, 25, 38, 61, 47);
    GroupExample(0x62, 0x61, 0x72, 24, 38, 5, 50);
    GroupExample(0xFB, 0xFF, 0, 62, 63, 60, 0);
    EncodeThree(0x66, 0x6F, 0x6F, []);
    EncodeThree(0x62, 0x61, 0x72, []);
    EncodeThree(0x66, 0x6F, 0x6F, [0x62, 0x61, 0x72]);
  }

  lemma GroupExample(a: Byte, b: Byte, c: Byte, p: Sextet, q: Sextet, r: Sextet, t: Sextet)
    requires 65536 * a + 256 * b + c == ((p as int * 64 + q) * 64 + r) * 64 + t
    ensures Group(a, b, c) == [p, q, r, t]
    ensures Chars(Group(a, b, c)) == [CharOf(p), CharOf(q), CharOf(r), CharOf(t)]
    ensures Chars(Group(a, b, c)[..3]) == [CharOf(p), CharOf(q), CharOf(r)]
    ensures Chars(Group(a, b, c)[..2]) == [CharOf(p), CharOf(q)]
  {
    PackDigits(p, q, r, t, Pack(p, q, r, t));
  }

  lemma EncodeThree(a: Byte, b: Byte, c: Byte, rest: seq<Byte>)
    ensures Encode([a, b, c] + rest) == Chars(Group(a, b, c)) + Encode(rest)
  {
    assert ([a, b, c] + rest)[3..] == rest;
  }

  /** Decoding stops at the first character that is not in the table. */
  lemma {:induction false} ValuesStop(s: string)
    ensures |Values(s)| <= |s| && forall i :: 0 <= i < |Values(s)| ==> CharOf(Values(s)[i]) == s[i]
    ensures |Values(s)| < |s| ==> forall v: Sextet :: CharOf(v) != s[|Values(s)|]
  {
    if s != "" {
      if ValueOf(s[0]) >= 0 {
        ValueRoundTrip(s[0]);
        ValuesStop(s[1..]);
      } else {
        forall v: Sextet
          ensures CharOf(v) != s[0]
        {
          CharRoundTrip(v);
        }
      }
    }
  }
}
