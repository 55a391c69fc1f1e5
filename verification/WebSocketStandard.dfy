/** The frame of sections 5.2 and 5.3 of RFC 6455. */
module WebSocketStandard {
  import opened ByteString
  import opened Masking

  const OPCODE_BINARY: nat := 2
  const OPCODE_CLOSE: nat := 8

  function Be64(n: nat): (r: seq<Byte>)
    ensures |r| == 8
  {
    Be32(n / 4294967296) + Be32(n)
  }

  /** Mask bit and payload length: 7 bits, or 126 and 16 bits, or 127 and 64 bits. */
  function Length(masked: bool, n: nat): (r: seq<Byte>)
    ensures |r| == if n < 126 then 1 else if n <= 65535 then 3 else 9
  {
    var bit := if masked then 128 else 0;
    if n < 126 then [bit + n]
    else if n <= 65535 then [bit + 126] + Be16(n)
    else [bit + 127] + Be64(n)
  }

  ghost predicate IsKey(key: seq<Byte>) { |key| == 0 || |key| == 4 }

  /** The payload as it is sent; no key means no masking. */
  function Sent(key: seq<Byte>, payload: seq<Byte>): (r: seq<Byte>)
    requires IsKey(key)
    ensures |r| == |payload|
  {
    if key == [] then payload else Masked(key, payload)
  }

  function First(fin: bool, opcode: nat): Byte
    requires opcode < 16
  {
    if fin then 128 + opcode else opcode
  }

  function Frame(fin: bool, opcode: nat, key: seq<Byte>, payload: seq<Byte>): seq<Byte>
    requires IsKey(key) && opcode < 16
  {
    [First(fin, opcode)] + Length(key != [], |payload|) + (key + Sent(key, payload))
  }

  // The examples of section 5.7.

  const HELLO: seq<Byte> := [0x48, 0x65, 0x6C, 0x6C, 0x6F]

  lemma UnmaskedHello()
    ensures Frame(true, 1, [], HELLO) == [0x81, 0x05] + HELLO
  {
    assert [] + HELLO == HELLO;
  }

  lemma MaskedHello(key: seq<Byte>, sent: seq<Byte>)
    requires key == [0x37, 0xFA, 0x21, 0x3D] && sent == [0x7F, 0x9F, 0x4D, 0x51, 0x58]
    ensures Frame(true, 1, key, HELLO) == [0x81, 0x85] + (key + sent)
  {
    XorHello();
    MaskedOctets(key, HELLO, sent);
    FrameOfFive(key, HELLO, sent);
  }

  lemma XorHello()
    ensures Xor(0x48, 0x37) == 0x7F && Xor(0x65, 0xFA) == 0x9F && Xor(0x6C, 0x21) == 0x4D
    ensures Xor(0x6C, 0x3D) == 0x51 && Xor(0x6F, 0x37) == 0x58
  {
  }

  lemma MaskedOctets(key: seq<Byte>, s: seq<Byte>, sent: seq<Byte>)
    requires |key| == 4 && |s| == |sent| == 5
    requires sent[0] == Xor(s[0], key[0]) && sent[1] == Xor(s[1], key[1]) && sent[2] == Xor(s[2], key[2])
    requires sent[3] == Xor(s[3], key[3]) && sent[4] == Xor(s[4], key[0])
    ensures Masked(key, s) == sent
  {
  }

  lemma FrameOfFive(key: seq<Byte>, s: seq<Byte>, sent: seq<Byte>)
    requires |key| == 4 && |s| == 5 && Masked(key, s) == sent
    ensures Frame(true, 1, key, s) == [0x81, 0x85] + (key + sent)
  {
  }

  lemma FirstFragment()
    ensures Frame(false, 1, [], HELLO[..3]) == [0x01, 0x03, 0x48, 0x65, 0x6C]
  {
    assert [] + HELLO[..3] == HELLO[..3];
  }

  lemma Close()
    ensures Frame(true, OPCODE_CLOSE, [], []) == [0x88, 0x00]
  {
  }

  lemma Medium(payload: seq<Byte>)
    requires |payload| == 256
    ensures Frame(true, OPCODE_BINARY, [], payload) == [0x82, 0x7E, 0x01, 0x00] + payload
  {
    assert [] + payload == payload;
    assert Length(false, 256) == [0x7E, 0x01, 0x00];
  }

  lemma Long(payload: seq<Byte>)
    requires |payload| == 65536
    ensures Frame(true, OPCODE_BINARY, [], payload) == [0x82, 0x7F, 0, 0, 0, 0, 0, 1, 0, 0] + payload
  {
    assert [] + payload == payload;
    Be32Spelled(65536);
    assert Length(false, 65536) == [0x7F, 0, 0, 0, 0, 0, 1, 0, 0];
  }
}
