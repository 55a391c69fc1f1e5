/** WebSocketProtocolHead, WebSocketProtocolHeadEx and WebSocketProtocol
    (net/protocol/WebSocketProtocol.h). */
module WebSocket {
  import opened Sequences
  import opened ByteString
  import opened Masking
  import opened WebSocketStandard
  import opened MessageFields
  import opened Framing

  const KEY: seq<Byte> := [0x23, 0x32, 0x5E, 0x31]

  // Reading a frame.

  datatype Head = Bad | Head(fin: bool, frame: nat, payloadLen: nat, mask: bool, end: nat)

  function PayloadLenSize(len7: nat): nat {
    if len7 == 126 then 2 else if len7 == 127 then 8 else 0
  }

  /** decode_head: the bytes at hand may be the first four of a frame, or all of it. */
  function DecodeHead(s: seq<Byte>): (r: Head)
    requires |s| >= 2
    ensures r.Head? ==> 2 <= r.end <= |s| && r.payloadLen < 4294967296 && r.frame < 16
  {
    var len7 := s[1] % 128;
    var end := PayloadLenSize(len7) + 2;
    if |s| < end then Bad
    else if len7 == 127 && Read32(s[2..]) > 0 then Bad
    else
      var len := if len7 == 126 then Read16(s[2..]) else if len7 == 127 then Read32(s[6..]) else len7;
      Head(s[0] >= 128, s[0] % 16, len, s[1] >= 128, end)
  }

  /** decode_data_size: what follows the first four bytes, in 32-bit arithmetic. */
  function DecodeDataSize(s: seq<Byte>): Option<nat> {
    if |s| < 2 then None
    else
      match DecodeHead(s)
      case Bad => None
      case Head(_, frame, len, mask, _) =>
        if frame == OPCODE_CLOSE then None
        else
          var size := (len + if mask then 4 else 0) % 4294967296;
          Some(if len < 126 then (size - 2) % 4294967296 else size)
  }

  /** Whether a frame can be read from a stream at all. */
  ghost predicate Readable(opcode: nat, key: seq<Byte>, payload: seq<Byte>) {
    && opcode != OPCODE_CLOSE
    && |payload| <= 65535
    && (key == [] ==> |payload| >= 2)
  }

  lemma HeadOfShort(fin: bool, opcode: nat, key: seq<Byte>, n: nat, rest: seq<Byte>)
    requires IsKey(key) && opcode < 16 && n < 126
    ensures DecodeHead([First(fin, opcode)] + Length(key != [], n) + rest) == Head(fin, opcode, n, key != [], 2)
  {
  }

  lemma HeadOfMedium(fin: bool, opcode: nat, key: seq<Byte>, n: nat, rest: seq<Byte>)
    requires IsKey(key) && opcode < 16 && 126 <= n <= 65535
    ensures DecodeHead([First(fin, opcode)] + Length(key != [], n) + rest) == Head(fin, opcode, n, key != [], 4)
  {
    var h := [First(fin, opcode), if key != [] then 254 else 126];
    Read16Be16(n, rest);
    assert [First(fin, opcode)] + Length(key != [], n) == h + Be16(n);
    Regroup(h, Be16(n), rest);
    Tail(h, Be16(n) + rest);
  }

  /** Of a frame whose length takes 64 bits, the first four bytes are not enough. */
  lemma LongIsBadHead(s: seq<Byte>)
    requires |s| == HEAD_SIZE && s[1] % 128 == 127
    ensures DecodeHead(s) == Bad && DecodeDataSize(s) == None
  {
  }

  lemma ShortSize(fin: bool, opcode: nat, key: seq<Byte>, n: nat, s: seq<Byte>)
    requires IsKey(key) && opcode < 16 && n < 126 && |s| >= 2
    requires s[..2] == [First(fin, opcode)] + Length(key != [], n)
    ensures opcode == OPCODE_CLOSE ==> DecodeDataSize(s) == None
    ensures opcode != OPCODE_CLOSE ==> DecodeDataSize(s) == Some((|key| + n - 2) % 4294967296)
  {
    HeadOfShort(fin, opcode, key, n, s[2..]);
    Split(s, 2);
  }

  lemma MediumSize(fin: bool, opcode: nat, key: seq<Byte>, n: nat, s: seq<Byte>)
    requires IsKey(key) && opcode < 16 && 126 <= n <= 65535
    requires s == [First(fin, opcode)] + Length(key != [], n)
    ensures DecodeDataSize(s) == if opcode == OPCODE_CLOSE then None else Some(|key| + n)
  {
    HeadOfMedium(fin, opcode, key, n, []);
    assert s + [] == s;
  }

  lemma FrameStarts(fin: bool, opcode: nat, key: seq<Byte>, payload: seq<Byte>)
    requires IsKey(key) && opcode < 16
    ensures var f, h := Frame(fin, opcode, key, payload), [First(fin, opcode)] + Length(key != [], |payload|);
      |f| == |h| + |key| + |payload| && f[..|h|] == h
  {
  }

  lemma FirstOfFirst(f: seq<Byte>, k: nat, n: nat)
    requires k <= n <= |f|
    ensures f[..n][..k] == f[..k]
  {
  }

  lemma ShortDelimited(fin: bool, opcode: nat, key: seq<Byte>, payload: seq<Byte>)
    requires IsKey(key) && opcode < 16 && |payload| < 126
    ensures Delimited(DecodeDataSize, Frame(fin, opcode, key, payload)) <==> Readable(opcode, key, payload)
  {
    var f := Frame(fin, opcode, key, payload);
    FrameStarts(fin, opcode, key, payload);
    if |f| >= HEAD_SIZE {
      FirstOfFirst(f, 2, HEAD_SIZE);
      ShortSize(fin, opcode, key, |payload|, f[..HEAD_SIZE]);
    }
  }

  lemma MediumDelimited(fin: bool, opcode: nat, key: seq<Byte>, payload: seq<Byte>)
    requires IsKey(key) && opcode < 16 && 126 <= |payload| <= 65535
    ensures Delimited(DecodeDataSize, Frame(fin, opcode, key, payload)) <==> Readable(opcode, key, payload)
  {
    FrameStarts(fin, opcode, key, payload);
    MediumSize(fin, opcode, key, |payload|, [First(fin, opcode)] + Length(key != [], |payload|));
  }

  /** decode_data_size meets RFC 6455 exactly on the readable frames: a close frame ends the
      stream, a payload above 65535 bytes is refused, an unmasked payload below two bytes makes
      the 32-bit size wrap around. */
  lemma DelimitedIffReadable(fin: bool, opcode: nat, key: seq<Byte>, payload: seq<Byte>)
    requires IsKey(key) && opcode < 16
    ensures Delimited(DecodeDataSize, Frame(fin, opcode, key, payload)) <==> Readable(opcode, key, payload)
  {
    if |payload| < 126 {
      ShortDelimited(fin, opcode, key, payload);
    } else if |payload| <= 65535 {
      MediumDelimited(fin, opcode, key, payload);
    } else {
      var f := Frame(fin, opcode, key, payload);
      assert f[..HEAD_SIZE][1] == if key != [] then 255 else 127;
      LongIsBadHead(f[..HEAD_SIZE]);
    }
  }

  // Writing a frame.

  function Key(mask: bool): seq<Byte> { if mask then KEY else [] }

  /** The length field as encode_mask writes it: of a 64-bit length only the low half is written,
      and in the place of the high half. */
  function LengthWritten(masked: bool, n: nat): (r: seq<Byte>)
    ensures |r| == if n < 126 then 1 else if n <= 65535 then 3 else 9
  {
    if n <= 65535 then Length(masked, n)
    else [if masked then 255 else 127] + (Be32(n % 4294967296) + [0, 0, 0, 0])
  }

  function Written(mask: bool, body: seq<Byte>): seq<Byte> {
    [First(true, OPCODE_BINARY)] + LengthWritten(mask, |body|) + (Key(mask) + Sent(Key(mask), body))
  }

  /** A short masked message starts with 0x82, mask bit and length, and the key "#2^1". */
  lemma MaskedStart(body: seq<Byte>)
    requires |body| < 126
    ensures Written(true, body)[..6] == [0x82, 0x80 + |body|, 0x23, 0x32, 0x5E, 0x31]
  {
  }

  lemma HighHalf(n: nat)
    requires 65535 < n < 4294967296
    ensures Be32(n)[0] != 0 || Be32(n)[1] != 0
    ensures Be32(n / 4294967296)[0] == 0 && Be32(n / 4294967296)[1] == 0
  {
    var high := n / 65536;
    assert high == high / 256 * 256 + high % 256;
  }

  lemma LongIsNotFrame(mask: bool, body: seq<Byte>)
    requires 65535 < |body| < 4294967296
    ensures Written(mask, body) != Frame(true, OPCODE_BINARY, Key(mask), body)
  {
    var n := |body|;
    HighHalf(n);
    var w := Written(mask, body);
    var f := Frame(true, OPCODE_BINARY, Key(mask), body);
    assert w[2] == Be32(n)[0] && w[3] == Be32(n)[1];
    assert f[2] == Be32(n / 4294967296)[0] && f[3] == Be32(n / 4294967296)[1];
  }

  lemma LongIsRefused(mask: bool, body: seq<Byte>)
    requires 65535 < |body|
    ensures !Delimited(DecodeDataSize, Written(mask, body))
  {
    var w := Written(mask, body);
    assert w[..HEAD_SIZE][1] == if mask then 255 else 127;
    LongIsBadHead(w[..HEAD_SIZE]);
  }

  /** What encode_mask leaves from "start" on is a frame of RFC 6455 exactly when the payload fits
      16 bits; a longer one no peer using this code can read. */
  lemma WrittenIsFrameIff(mask: bool, body: seq<Byte>)
    requires |body| < 4294967296
    ensures Written(mask, body) == Frame(true, OPCODE_BINARY, Key(mask), body) <==> |body| <= 65535
    ensures |body| >= 2 ==> (Delimited(DecodeDataSize, Written(mask, body)) <==> |body| <= 65535)
  {
    if |body| <= 65535 {
      DelimitedIffReadable(true, OPCODE_BINARY, Key(mask), body);
    } else {
      LongIsNotFrame(mask, body);
      LongIsRefused(mask, body);
    }
  }

  /** The space pre_encode_append leaves in front of the body. */
  function Blank(mask: bool): (r: seq<Byte>)
    ensures |r| == 10 + |Key(mask)|
  {
    [First(true, OPCODE_BINARY), 0] + Zeros(8) + Zeros(|Key(mask)|)
  }

  method PreEncodeAppend(bytes: String, category: nat)
    requires bytes.Valid() && bytes.Contents() == []
    modifies bytes, bytes.data
    ensures bytes.Valid() && bytes.data != null && bytes.Contents() == Blank(HasEncrypted(category))
    ensures bytes.data == old(bytes.data) || fresh(bytes.data)
  {
    bytes.Fill(2, 0);
    bytes.Put(0, OPCODE_BINARY);
    bytes.Put(0, 128 + OPCODE_BINARY);
    assert bytes.Contents() == [First(true, OPCODE_BINARY), 0];
    bytes.Fill(8, 0);
    if HasEncrypted(category) {
      bytes.Fill(4, 0);
    }
  }

  method PreEncodeAppendEx(bytes: String, version: nat, category: nat)
    requires bytes.Valid() && bytes.Contents() == []
    modifies bytes, bytes.data
    ensures bytes.Valid() && bytes.data != null
    ensures bytes.Contents() == Blank(HasEncrypted(category)) + [version % 256, category % 256]
    ensures bytes.data == old(bytes.data) || fresh(bytes.data)
  {
    PreEncodeAppend(bytes, category);
    ghost var blank := bytes.Contents();
    bytes.Fill(1, version % 256);
    bytes.Fill(1, category % 256);
    assert bytes.Contents() == blank + [version % 256, category % 256];
  }

  /** mask_data: every byte from "start" on, in place. */
  method MaskData(bytes: String, start: nat, key: seq<Byte>)
    requires bytes.Valid() && start <= bytes.size && |key| == 4
    modifies bytes.data
    ensures bytes.Valid()
    ensures bytes.Contents() == old(bytes.Contents())[..start] + Masked(key, old(bytes.Contents())[start..])
  {
    ghost var before := bytes.Contents();
    var size := bytes.size - start;
    var i := 0;
    while i < size
      invariant 0 <= i <= size
      invariant bytes.Valid()
      invariant bytes.data != null ==>
        && (forall j :: 0 <= j < start + i ==> bytes.data[j] == if j < start then before[j] else Xor(before[j], key[(j - start) % 4]))
        && (forall j :: start + i <= j < bytes.size ==> bytes.data[j] == before[j])
      modifies bytes.data
    {
      bytes.data[start + i] := Xor(bytes.data[start + i], key[i % 4]);
      i := i + 1;
    }
    assert bytes.Contents() == before[..start] + Masked(key, before[start..]);
  }

  lemma ShortPlaced(c: seq<Byte>, n: nat)
    requires |c| >= 10 && c[..10] == Blank(false) && n < 126
    ensures c[8 := c[0]][9 := n][8..10] == [First(true, OPCODE_BINARY)] + LengthWritten(false, n)
    ensures c[8 := c[0]][9 := n][10..] == c[10..]
  {
    assert c[0] == c[..10][0];
  }

  lemma MediumPlaced(c: seq<Byte>, n: nat)
    requires |c| >= 10 && c[..10] == Blank(false) && 126 <= n <= 65535
    ensures var d := c[6 := c[0]][7 := 126]; var e := d[..8] + Be16(n) + d[10..];
      e[6..10] == [First(true, OPCODE_BINARY)] + LengthWritten(false, n) && e[10..] == c[10..]
  {
    assert c[0] == c[..10][0];
  }

  lemma LongPlaced(c: seq<Byte>, n: nat)
    requires |c| >= 10 && c[..10] == Blank(false) && n > 65535
    ensures var d := c[1 := 127]; var e := d[..2] + Be32(n % 4294967296) + d[6..];
      e[0..10] == [First(true, OPCODE_BINARY)] + LengthWritten(false, n) && e[10..] == c[10..]
  {
    var d := c[1 := 127];
    var e := d[..2] + Be32(n % 4294967296) + d[6..];
    assert d[6..10] == c[..10][6..] == [0, 0, 0, 0];
    assert c[0] == c[..10][0];
    assert e[0..10] == d[..2] + Be32(n % 4294967296) + d[6..10];
  }

  /** The part of encode_mask that places the head right before the body. */
  method PlaceLength(bytes: String, n: nat) returns (start: nat)
    requires bytes.Valid() && bytes.size >= 10 && bytes.Contents()[..10] == Blank(false)
    modifies bytes.data
    ensures bytes.Valid()
    ensures start == if n < 126 then 8 else if n <= 65535 then 6 else 0
    ensures bytes.Contents()[start..10] == [First(true, OPCODE_BINARY)] + LengthWritten(false, n)
    ensures bytes.Contents()[10..] == old(bytes.Contents())[10..]
  {
    ghost var before := bytes.Contents();
    if n < 126 {
      ShortPlaced(before, n);
      start := 8;
      bytes.Put(start, bytes.data[0]);
      bytes.Put(start + 1, n);
    } else if n <= 65535 {
      MediumPlaced(before, n);
      start := 6;
      bytes.Put(start, bytes.data[0]);
      bytes.Put(start + 1, 126);
      bytes.Put16(start + 2, n);
    } else {
      LongPlaced(before, n);
      start := 0;
      bytes.Put(start + 1, 127);
      bytes.Put64(start + 2, n);
    }
  }

  ghost function MaskPlaced(c: seq<Byte>, start: nat): seq<Byte>
    requires start <= 8 && |c| >= 14 && c[start + 1] < 128
  {
    c[start + 1 := c[start + 1] + 128][..10] + KEY + Masked(KEY, c[14..])
  }

  /** The part of encode_mask that sets the mask bit, places the key and masks the body. */
  method PlaceMask(bytes: String, start: nat)
    requires bytes.Valid() && start <= 8 && bytes.size >= 14 && bytes.Contents()[start + 1] < 128
    modifies bytes.data
    ensures bytes.Valid()
    ensures bytes.Contents() == MaskPlaced(old(bytes.Contents()), start)
  {
    ghost var c := bytes.Contents();
    var b := bytes.data[start + 1];
    bytes.Put(start + 1, if b < 128 then b + 128 else b);
    bytes.Put(10, KEY[0]);
    bytes.Put(11, KEY[1]);
    bytes.Put(12, KEY[2]);
    bytes.Put(13, KEY[3]);
    ghost var d := bytes.Contents();
    assert d[..14] == c[start + 1 := c[start + 1] + 128][..10] + KEY;
    assert d[14..] == c[14..];
    MaskData(bytes, 14, KEY);
  }

  lemma MaskBit(h: seq<Byte>, n: nat)
    requires h == [First(true, OPCODE_BINARY)] + LengthWritten(false, n)
    ensures h[1] < 128
    ensures h[1 := h[1] + 128] == [First(true, OPCODE_BINARY)] + LengthWritten(true, n)
  {
  }

  lemma MaskedInPlace(c: seq<Byte>, start: nat, h: seq<Byte>, masked: seq<Byte>)
    requires start <= 8 && |c| >= 10 && c[start..10] == h && h[1] < 128
    ensures c[start + 1] == h[1]
    ensures (c[start + 1 := h[1] + 128][..10] + KEY + masked)[start..] == h[1 := h[1] + 128] + (KEY + masked)
  {
  }

  lemma MaskedResult(c: seq<Byte>, start: nat, body: seq<Byte>)
    requires start <= 8 && |c| == 14 + |body| && c[14..] == body
    requires c[start..10] == [First(true, OPCODE_BINARY)] + LengthWritten(false, |body|)
    ensures c[start + 1] < 128
    ensures |MaskPlaced(c, start)| >= start && MaskPlaced(c, start)[start..] == Written(true, body)
  {
    MaskBit(c[start..10], |body|);
    MaskedInPlace(c, start, c[start..10], Masked(KEY, body));
  }

  lemma UnmaskedResult(c: seq<Byte>, start: nat, body: seq<Byte>)
    requires start <= 8 && |c| == 10 + |body| && c[10..] == body
    requires c[start..10] == [First(true, OPCODE_BINARY)] + LengthWritten(false, |body|)
    ensures c[start..] == Written(false, body)
  {
    assert c[start..] == c[start..10] + c[10..];
    assert [] + body == body;
  }

  /** encode_mask: what stands from "start" on is the frame as Written says. */
  method EncodeMask(bytes: String, category: nat, ghost body: seq<Byte>) returns (start: nat)
    requires bytes.Valid() && bytes.Contents() == Blank(HasEncrypted(category)) + body
    modifies bytes.data
    ensures bytes.Valid() && start <= bytes.size
    ensures bytes.Contents()[start..] == Written(HasEncrypted(category), body)
  {
    var mask := HasEncrypted(category);
    BlankThenBody(mask, body);
    var n := bytes.size - if mask then 14 else 10;
    start := PlaceLength(bytes, n);
    ghost var c := bytes.Contents();
    BodyPlace(c, |Key(mask)|, body);
    if mask {
      FinishMasked(bytes, start, body);
    } else {
      UnmaskedResult(c, start, body);
    }
  }

  method FinishMasked(bytes: String, start: nat, ghost body: seq<Byte>)
    requires bytes.Valid() && start <= 8 && bytes.size == 14 + |body| && bytes.Contents()[14..] == body
    requires bytes.Contents()[start..10] == [First(true, OPCODE_BINARY)] + LengthWritten(false, |body|)
    modifies bytes.data
    ensures bytes.Valid() && bytes.Contents()[start..] == Written(true, body)
  {
    MaskedResult(bytes.Contents(), start, body);
    PlaceMask(bytes, start);
  }

  lemma BlankThenBody(mask: bool, body: seq<Byte>)
    ensures var c := Blank(mask) + body;
      c[..10] == Blank(false) && c[10..] == Zeros(|Key(mask)|) + body
  {
    assert Blank(mask) == Blank(false) + Zeros(|Key(mask)|);
  }

  lemma BodyPlace(c: seq<Byte>, n: nat, body: seq<Byte>)
    requires |c| >= 10 && c[10..] == Zeros(n) + body
    ensures |c| == 10 + n + |body| && c[10 + n..] == body
  {
    Tail(Zeros(n), body);
    assert c[10..][n..] == c[10 + n..];
  }

  // Messages.

  const VERSION: nat := 1
  const META_START: nat := 4   // version, category, model, option

  function Fixed(m: Meta, mask: bool): (r: seq<Byte>)
    ensures |r| == META_START
  {
    [VERSION, SetEncrypted(m.category, mask) % 256, m.model % 256, m.option % 256]
  }

  function Body(m: Meta, mask: bool, junk: seq<Byte>, payload: seq<Byte>): (r: seq<Byte>)
    requires |junk| == 4
    ensures |r| == META_START + OptionalSize(m.option, false) + |payload|
  {
    Fixed(m, mask) + (OptionalBytes(m, false, junk) + payload)
  }

  /** Byte by byte, what stands before the optional fields: version 1, the category with its bit 0x10 set
      exactly if the frame is masked, model and option. */
  lemma FixedSpelled(m: Meta, mask: bool)
    ensures var c := SetEncrypted(m.category, mask);
      && Fixed(m, mask) == [1, c % 256, m.model % 256, m.option % 256]
      && (And(c, 0x10) > 0 <==> mask) && c % 0x10 == m.category % 0x10 && c / 0x20 == m.category / 0x20
  {
    FlagBits(SetEncrypted(m.category, mask));
  }

  method AppendFixed(bytes: String, mask: bool, m: Meta)
    requires bytes.Valid() && bytes.Contents() == []
    modifies bytes, bytes.data
    ensures bytes.Valid() && bytes.data != null && bytes.Contents() == Blank(mask) + Fixed(m, mask)
    ensures bytes.data == old(bytes.data) || fresh(bytes.data)
  {
    var category := SetEncrypted(m.category, mask);
    PreEncodeAppendEx(bytes, VERSION, category);
    bytes.Fill(1, m.model % 256);
    bytes.Fill(1, m.option % 256);
    FixedInParts(Blank(mask), m, mask);
  }

  lemma FixedInParts(blank: seq<Byte>, m: Meta, mask: bool)
    ensures blank + [VERSION, SetEncrypted(m.category, mask) % 256]
              + seq(1, _ => m.model % 256) + seq(1, _ => m.option % 256)
         == blank + Fixed(m, mask)
  {
  }

  /** encode; the message object is given by its bytes.  "junk" is what a request of 8 bytes
      sends in place of its high half. */
  method Encode(bytes: String, mask: bool, m: Meta, payload: seq<Byte>) returns (start: nat, ghost junk: seq<Byte>)
    requires bytes.Valid()
    modifies bytes, bytes.data
    ensures bytes.Valid() && start <= bytes.size && |junk| == 4
    ensures bytes.Contents()[start..] == Written(mask, Body(m, mask, junk, payload))
  {
    bytes.Clear();
    bytes.Reserve((if mask then 16 else 12) + 2 + OptionalSize(m.option, false) + |payload|);
    AppendFixed(bytes, mask, m);
    junk := AppendOptional(bytes, m, false);
    bytes.Append(payload);
    Regroup(Blank(mask), Fixed(m, mask), OptionalBytes(m, false, junk));
    Regroup(Blank(mask), Fixed(m, mask) + OptionalBytes(m, false, junk), payload);
    Regroup(Fixed(m, mask), OptionalBytes(m, false, junk), payload);
    start := EncodeMask(bytes, SetEncrypted(m.category, mask), Body(m, mask, junk, payload));
  }

  function Heartbeat(): seq<Byte> { [0, 2, 0xFF, CATEGORY_HEARTBEAT] }

  /** A heartbeat has the heartbeat bit, and is no message. */
  lemma HeartbeatIsHeartbeat()
    ensures Heartbeat() == [0, 2, 0xFF, 0x02]
    ensures And(Heartbeat()[3], 0x02) > 0 && And(Heartbeat()[3], 0x01) == 0
  {
    HeartbeatBits();
    assert Heartbeat()[3] == 0x02;
  }

  method EncodeHeartbeat(bytes: String)
    requires bytes.Valid()
    modifies bytes, bytes.data
    ensures bytes.Valid()
    ensures bytes.Contents() == (old(bytes.Contents()) + [0, 0])[1 := 2] + [0xFF, CATEGORY_HEARTBEAT]
    ensures old(bytes.Contents()) == [] ==> bytes.Contents() == Heartbeat()
  {
    ghost var before := bytes.Contents();
    bytes.Fill(2, 0);
    assert bytes.Contents() == before + [0, 0];
    bytes.Put(1, 2);
    ghost var head := bytes.Contents();
    bytes.Fill(1, 0xFF);
    bytes.Fill(1, CATEGORY_HEARTBEAT);
    assert bytes.Contents() == head + [0xFF, CATEGORY_HEARTBEAT];
  }

  /** The masking key is there whenever the mask bit is set: decode does not look. */
  ghost predicate KeyPresent(s: seq<Byte>)
    requires |s| >= 2
  {
    var h := DecodeHead(s);
    h.Head? && h.mask ==> h.end + 4 <= |s|
  }

  /** The payload of a frame, unmasked. */
  function Payload(s: seq<Byte>): seq<Byte>
    requires |s| >= 2 && DecodeHead(s).Head? && KeyPresent(s)
  {
    var h := DecodeHead(s);
    if h.mask then Masked(s[h.end..h.end + 4], s[h.end + 4..]) else s[h.end..]
  }

  datatype Decoded = NoHead | NoOption | NoMeta(meta: Meta) | Message(meta: Meta, data: seq<Byte>)

  function DecodeBody(body: seq<Byte>, initial: Meta): Decoded {
    if |body| < META_START then NoOption
    else
      var m := initial.(model := Extend(body[2], 65536), option := Extend(body[3], 4294967296));
      var rest := body[META_START..];
      if |rest| < OptionalSize(m.option, false) then NoMeta(m)
      else Message(ReadOptional(rest, m, false), rest[OptionalSize(m.option, false)..])
  }

  function DecodeMessage(s: seq<Byte>, initial: Meta): Decoded
    requires |s| >= 2 && KeyPresent(s)
  {
    if DecodeHead(s) == Bad then NoHead else DecodeBody(Payload(s), initial)
  }

  /** The head part of decode: unmasks in place, and says where the payload starts. */
  method DecodeFrame(bytes: String) returns (ok: bool, end: nat)
    requires bytes.Valid() && bytes.size >= 2 && KeyPresent(bytes.Contents())
    modifies bytes.data
    ensures bytes.Valid() && end <= bytes.size
    ensures ok == DecodeHead(old(bytes.Contents())).Head?
    ensures ok ==> bytes.Contents()[end..] == Payload(old(bytes.Contents()))
  {
    var s := bytes.data[..bytes.size];
    var h := DecodeHead(s);
    if h == Bad {
      return false, 0;
    }
    end := h.end;
    if h.mask {
      var key := s[end..end + 4];
      end := end + 4;
      MaskData(bytes, end, key);
      Tail(s[..end], Masked(key, s[end..]));
    }
    ok := true;
  }

  /** decode: unmasks the frame in place and reads the meta; the data is the rest. */
  method Decode(bytes: String, initial: Meta) returns (r: Decoded)
    requires bytes.Valid() && bytes.size >= 2 && KeyPresent(bytes.Contents())
    modifies bytes.data
    ensures bytes.Valid() && r == DecodeMessage(old(bytes.Contents()), initial)
  {
    var ok, end := DecodeFrame(bytes);
    if !ok {
      return NoHead;
    }
    if bytes.size < end + 4 {
      return NoOption;
    }
    var body := bytes.data[end..bytes.size];
    var m := initial.(model := Extend(body[2], 65536), option := Extend(body[3], 4294967296));
    var metaEnd := end + 4 + OptionalSize(m.option, false);
    if bytes.size < metaEnd {
      return NoMeta(m);
    }
    return Message(ReadOptional(body[4..], m, false), body[4 + OptionalSize(m.option, false)..]);
  }

  /** WebSocketProtocolHead::decode of a message head: version and category. */
  function DecodeMessageHead(s: seq<Byte>): Option<(nat, nat)>
    requires |s| >= 2 && KeyPresent(s)
    requires DecodeHead(s).Head? ==> |Payload(s)| >= 2
  {
    if DecodeHead(s) == Bad then None
    else Some((Extend(Payload(s)[0], 4294967296), Extend(Payload(s)[1], 65536)))
  }

  /** Unmasking undoes masking: the payload of a frame is what was put into it. */
  lemma PayloadOfFrame(fin: bool, opcode: nat, key: seq<Byte>, payload: seq<Byte>)
    requires IsKey(key) && opcode < 16 && |payload| <= 65535
    ensures var f := Frame(fin, opcode, key, payload);
      |f| >= 2 && DecodeHead(f).Head? && KeyPresent(f) && Payload(f) == payload
  {
    var n := |payload|;
    var h, rest := [First(fin, opcode)] + Length(key != [], n), key + Sent(key, payload);
    if n < 126 {
      HeadOfShort(fin, opcode, key, n, rest);
    } else {
      HeadOfMedium(fin, opcode, key, n, rest);
    }
    Tail(h, rest);
    if key != [] {
      KeyAndRest(h, key, Sent(key, payload));
      MaskedTwice(key, payload);
    } else {
      assert rest == payload;
    }
  }

  lemma KeyAndRest(h: seq<Byte>, key: seq<Byte>, rest: seq<Byte>)
    ensures (h + (key + rest))[|h|..|h| + |key|] == key
    ensures (h + (key + rest))[|h| + |key|..] == rest
  {
  }

  lemma BodyRoundTrip(m: Meta, mask: bool, initial: Meta, junk: seq<Byte>, payload: seq<Byte>)
    requires |junk| == 4
    ensures DecodeBody(Body(m, mask, junk, payload), initial) == Message(Received(m, initial, false, junk), payload)
  {
    var optional := OptionalBytes(m, false, junk);
    OptionalRoundTrip(m, initial, false, junk, payload);
    Tail(Fixed(m, mask), optional + payload);
    Tail(optional, payload);
  }

  /** Decoding what encode wrote.  A message whose frame payload does not fit 16 bits is refused. */
  lemma MessageRoundTrip(m: Meta, mask: bool, initial: Meta, junk: seq<Byte>, payload: seq<Byte>)
    requires |junk| == 4 && |Body(m, mask, junk, payload)| < 4294967296
    ensures var body := Body(m, mask, junk, payload); var s := Written(mask, body);
      && |s| >= 2 && KeyPresent(s)
      && DecodeMessage(s, initial) == (if |body| <= 65535 then Message(Received(m, initial, false, junk), payload) else NoHead)
      && (|body| <= 65535 ==> DecodeHead(s).Head? && Payload(s) == body)
  {
    var body := Body(m, mask, junk, payload);
    if |body| <= 65535 {
      PayloadOfFrame(true, OPCODE_BINARY, Key(mask), body);
      BodyRoundTrip(m, mask, initial, junk, payload);
    } else {
      LongIsBad(mask, body);
    }
  }

  lemma LongIsBad(mask: bool, body: seq<Byte>)
    requires 65535 < |body| < 4294967296
    ensures DecodeHead(Written(mask, body)) == Bad
  {
    LongAfterTwo(mask, body);
    HighLengthIsBad(Written(mask, body));
  }

  lemma LongAfterTwo(mask: bool, body: seq<Byte>)
    requires 65535 < |body| < 4294967296
    ensures var w := Written(mask, body);
      |w| >= 6 && w[1] % 128 == 127 && Read32(w[2..]) == |body|
  {
    var n, zeros, rest := |body|, [0, 0, 0, 0], Key(mask) + Sent(Key(mask), body);
    assert n % 4294967296 == n;
    AfterTwo(First(true, OPCODE_BINARY), if mask then 255 else 127, Be32(n), zeros, rest);
    Read32Be32(n, zeros + rest);
  }

  lemma HighLengthIsBad(s: seq<Byte>)
    requires |s| >= 6 && s[1] % 128 == 127 && Read32(s[2..]) > 0
    ensures DecodeHead(s) == Bad
  {
  }

  lemma AfterTwo(a: Byte, b: Byte, c: seq<Byte>, d: seq<Byte>, rest: seq<Byte>)
    ensures ([a] + ([b] + (c + d)) + rest)[1] == b && ([a] + ([b] + (c + d)) + rest)[2..] == c + (d + rest)
  {
  }

  ghost predicate ArrivesWhole(m: Meta, mask: bool, initial: Meta, payload: seq<Byte>, junk: seq<Byte>) {
    |junk| == 4 ==>
      var s := Written(mask, Body(m, mask, junk, payload));
      |s| >= 2 && KeyPresent(s) && DecodeMessage(s, initial) == Message(m.(category := initial.category), payload)
  }

  /** Whatever stale bytes the buffer holds, the message received is the message sent, if and only if
      the frame payload fits 16 bits and every field is carried. */
  lemma RoundTripIff(m: Meta, mask: bool, initial: Meta, payload: seq<Byte>)
    requires m.Typed() && META_START + OptionalSize(m.option, false) + |payload| < 4294967296
    ensures (forall junk :: ArrivesWhole(m, mask, initial, payload, junk))
      <==> (META_START + OptionalSize(m.option, false) + |payload| <= 65535 && Carried(m, initial, false))
  {
    var fits := META_START + OptionalSize(m.option, false) + |payload| <= 65535;
    ReceivedIsSent(m, initial, false);
    forall junk
      ensures ArrivesWhole(m, mask, initial, payload, junk) <==> (|junk| == 4 ==> fits && Arrives(m, initial, false, junk))
    {
      if |junk| == 4 {
        MessageRoundTrip(m, mask, initial, junk, payload);
      }
    }
    assert ArrivesWhole(m, mask, initial, payload, Zeros(4)) ==> fits;
    assert (forall junk :: ArrivesWhole(m, mask, initial, payload, junk)) ==>
      forall junk :: ArrivesWhole(m, mask, initial, payload, junk) ==> Arrives(m, initial, false, junk);
  }

  /** The head of a message on the wire tells its version, and its category with the encrypted
      bit set to whether it is masked. */
  lemma HeadRoundTrip(m: Meta, mask: bool, junk: seq<Byte>, payload: seq<Byte>)
    requires |junk| == 4 && |Body(m, mask, junk, payload)| <= 65535
    ensures var s := Written(mask, Body(m, mask, junk, payload));
      && |s| >= 2 && DecodeHead(s).Head? && KeyPresent(s) && |Payload(s)| >= 2
      && DecodeMessageHead(s) == Some((VERSION, Extend(SetEncrypted(m.category, mask) % 256, 65536)))
  {
    MessageRoundTrip(m, mask, m, junk, payload);
  }

  /** A heartbeat is told from a message by its category, whatever the receiver expects. */
  lemma HeartbeatIsFrame()
    ensures Heartbeat() == Frame(false, 0, [], [0xFF, CATEGORY_HEARTBEAT])
    ensures KeyPresent(Heartbeat()) && DecodeHead(Heartbeat()).Head? && |Payload(Heartbeat())| >= 2
    ensures DecodeMessageHead(Heartbeat()) == Some((4294967295, CATEGORY_HEARTBEAT))
  {
    assert Heartbeat() == Frame(false, 0, [], [0xFF, CATEGORY_HEARTBEAT]);
    PayloadOfFrame(false, 0, [], [0xFF, CATEGORY_HEARTBEAT]);
  }

  // Streams.

  datatype Item = Beat | Data(mask: bool, body: seq<Byte>)

  function Bytes(item: Item): seq<Byte> {
    match item
    case Beat => Heartbeat()
    case Data(mask, body) => Written(mask, body)
  }

  /** Every message written has at least version, category, model and option. */
  ghost predicate Sendable(item: Item) { item.Data? ==> 4 <= |item.body| < 4294967296 }

  ghost predicate Fits(item: Item) { item.Data? ==> |item.body| <= 65535 }

  lemma ItemDelimited(item: Item)
    requires Sendable(item)
    ensures Delimited(DecodeDataSize, Bytes(item)) <==> Fits(item)
  {
    match item
    case Beat =>
      HeartbeatIsFrame();
      DelimitedIffReadable(false, 0, [], [0xFF, CATEGORY_HEARTBEAT]);
    case Data(mask, body) =>
      WrittenIsFrameIff(mask, body);
  }

  /** Frames and heartbeats sent one after another are read back as they were sent, in order,
      whatever follows them. */
  lemma StreamRoundTrip(items: seq<Item>, rest: seq<Byte>)
    requires forall item :: item in items ==> Sendable(item) && Fits(item)
    ensures Read(DecodeDataSize, Concat(SentFor(Bytes, items)) + rest)
         == Reading(SentFor(Bytes, items) + Read(DecodeDataSize, rest).messages, Read(DecodeDataSize, rest).unread)
  {
    forall m | m in SentFor(Bytes, items) ensures Delimited(DecodeDataSize, m) {
      var i :| 0 <= i < |items| && m == Bytes(items[i]);
      ItemDelimited(items[i]);
    }
    ReadConcat(DecodeDataSize, SentFor(Bytes, items), rest);
  }

  lemma LongStops(mask: bool, body: seq<Byte>, rest: seq<Byte>)
    requires |body| > 65535
    ensures Read(DecodeDataSize, Written(mask, body) + rest) == Reading([], Written(mask, body) + rest)
  {
    var stream := Written(mask, body) + rest;
    assert stream[..HEAD_SIZE][1] == if mask then 255 else 127;
    LongIsBadHead(stream[..HEAD_SIZE]);
  }

  /** A frame that does not fit ends the stream for good: nothing from it on is read. */
  lemma StreamStopsAtLong(items: seq<Item>, long: Item, rest: seq<Byte>)
    requires forall item :: item in items ==> Sendable(item) && Fits(item)
    requires Sendable(long) && !Fits(long)
    ensures Read(DecodeDataSize, Concat(SentFor(Bytes, items)) + (Bytes(long) + rest))
         == Reading(SentFor(Bytes, items), Bytes(long) + rest)
  {
    StreamRoundTrip(items, Bytes(long) + rest);
    LongStops(long.mask, long.body, rest);
    assert SentFor(Bytes, items) + [] == SentFor(Bytes, items);
  }

  // What the copied head costs.

  /** Of a frame that can be read, the head survives the copy exactly as its first four bytes say:
      a short one unless its third byte (of the key, or of the payload) is zero and its fourth is
      not, a longer one from 256 bytes on; a continuation that is not final never does. */
  lemma FrameSurvivesIff(fin: bool, opcode: nat, key: seq<Byte>, payload: seq<Byte>)
    requires IsKey(key) && opcode < 16 && Readable(opcode, key, payload)
    ensures var f := Frame(fin, opcode, key, payload); var next := key + Sent(key, payload);
      && |f| >= HEAD_SIZE
      && (HandedOn(f) == f <==>
        (fin || opcode != 0) && (if |payload| < 126 then next[0] != 0 || next[1] == 0 else |payload| >= 256))
  {
    var f, n, next := Frame(fin, opcode, key, payload), |payload|, key + Sent(key, payload);
    var length := Length(key != [], n);
    assert f[0] == First(fin, opcode) && f[1] == length[0];
    if n < 126 {
      assert f[2] == next[0] && f[3] == next[1];
    } else {
      assert f[2] == length[1] == n / 256 && f[3] == length[2] == n % 256;
    }
    SurvivesIff(f);
  }

  lemma WrittenHead(mask: bool, body: seq<Byte>)
    requires META_START <= |body| <= 65535
    ensures var w, n := Written(mask, body), |body|;
      && |w| >= 6 && w[0] == 130
      && (n < 126 ==> w[1] == (if mask then 128 + n else n) && w[2] == if mask then 0x23 else body[0])
      && (n >= 126 ==> w[1] == (if mask then 254 else 126) && w[2] == n / 256)
  {
    var w, next := Written(mask, body), Key(mask) + Sent(Key(mask), body);
    var length := LengthWritten(mask, |body|);
    assert w[1] == length[0];
    assert |body| < 126 ==> w[2] == next[0];
    assert |body| >= 126 ==> w[2] == length[1];
  }

  /** The head of a message handed on tells what its own head told, except a length below 256 that
      takes 16 bits. */
  lemma HandedOnHeadOf(mask: bool, body: seq<Byte>)
    requires META_START <= |body| <= 65535 && body[0] != 0
    ensures var w := Written(mask, body);
      && |w| >= 6
      && (HandedOn(w) == w || (126 <= |body| < 256 && HandedOn(w)[0] == w[0] && HandedOn(w)[1] == w[1] && w[1] % 128 == 126))
  {
    var w := Written(mask, body);
    WrittenHead(mask, body);
    SurvivesIff(w);
    HandedOnHead(w);
    assert HandedOn(w)[..HEAD_SIZE][0] == HandedOn(w)[0] && HandedOn(w)[..HEAD_SIZE][1] == HandedOn(w)[1];
  }

  lemma PayloadOfWritten(mask: bool, body: seq<Byte>)
    requires |body| <= 65535
    ensures var w := Written(mask, body);
      |w| >= 2 && DecodeHead(w).Head? && KeyPresent(w) && Payload(w) == body
  {
    PayloadOfFrame(true, OPCODE_BINARY, Key(mask), body);
  }

  lemma SamePayload(a: seq<Byte>, b: seq<Byte>)
    requires |a| == |b| >= 8 && a[HEAD_SIZE..] == b[HEAD_SIZE..] && a[0] == b[0] && a[1] == b[1]
    requires b[1] % 128 == 126
    ensures DecodeHead(a).Head? && DecodeHead(b).Head? && KeyPresent(a) && KeyPresent(b)
    ensures Payload(a) == Payload(b)
  {
    assert a[4..8] == a[4..][..4] && b[4..8] == b[4..][..4];
    assert a[8..] == a[4..][4..] && b[8..] == b[4..][4..];
  }

  lemma PayloadHandedOn(mask: bool, body: seq<Byte>)
    requires META_START <= |body| <= 65535 && body[0] != 0
    ensures var w := Written(mask, body);
      |w| >= HEAD_SIZE && KeyPresent(HandedOn(w)) && DecodeHead(HandedOn(w)).Head? && Payload(HandedOn(w)) == body
  {
    var w := Written(mask, body);
    PayloadOfWritten(mask, body);
    HandedOnHeadOf(mask, body);
    if HandedOn(w) != w {
      SamePayload(HandedOn(w), w);
    }
  }

  /** Decoding does not look at the length again: the payload arrives whole all the same. */
  lemma HandedOnDecodes(mask: bool, body: seq<Byte>, initial: Meta)
    requires META_START <= |body| <= 65535 && body[0] != 0
    ensures var w := Written(mask, body);
      && |w| >= HEAD_SIZE && KeyPresent(HandedOn(w)) && DecodeHead(HandedOn(w)).Head? && Payload(HandedOn(w)) == body
      && DecodeMessage(HandedOn(w), initial) == DecodeBody(body, initial)
      && DecodeMessageHead(HandedOn(w)) == Some((Extend(body[0], 4294967296), Extend(body[1], 65536)))
  {
    PayloadHandedOn(mask, body);
  }

  /** A heartbeat begins with a zero byte, and is handed on as zeros: neither heartbeat nor message. */
  lemma HeartbeatIsLost()
    ensures HandedOn(Heartbeat()) == [0, 0, 0, 0]
    ensures KeyPresent([0, 0, 0, 0]) && DecodeHead([0, 0, 0, 0]).Head?
    ensures DecodeMessageHead([0, 0, 0, 0]) == Some((0, 0))
  {
    HandedOnHead(Heartbeat());
    assert HandedOn(Heartbeat()) == HandedOn(Heartbeat())[..HEAD_SIZE];
  }

  /** End to end: of messages that fit and heartbeats, sent one after another, the k-th message
      handed on decodes to the k-th message sent. */
  lemma StreamDecodes(items: seq<Item>, rest: seq<Byte>, k: nat, mask: bool, m: Meta, initial: Meta, junk: seq<Byte>, payload: seq<Byte>)
    requires (forall item :: item in items ==> Sendable(item) && Fits(item)) && k < |items| && |junk| == 4
    requires items[k] == Data(mask, Body(m, mask, junk, payload))
    ensures var messages := Read(DecodeDataSize, Concat(SentFor(Bytes, items)) + rest).messages;
      && k < |messages| && |messages[k]| >= HEAD_SIZE && KeyPresent(HandedOn(messages[k]))
      && DecodeMessage(HandedOn(messages[k]), initial) == Message(Received(m, initial, false, junk), payload)
  {
    StreamRoundTrip(items, rest);
    assert items[k] in items;
    var body := Body(m, mask, junk, payload);
    assert body[0] == VERSION;
    HandedOnDecodes(mask, body, initial);
    BodyRoundTrip(m, mask, initial, junk, payload);
  }

  /** A message handed on carries its masking key, so that decode may unmask it, unless its length
      is below two and still written in 16 bits; the standard has every length written in the
      fewest bytes. */
  lemma ReaderGivesKeyIff(stream: seq<Byte>, m: seq<Byte>)
    requires m in Read(DecodeDataSize, stream).messages
    ensures |m| >= HEAD_SIZE
      && (KeyPresent(HandedOn(m)) <==> !(m[0] != 0 && m[1] == 254 && Read16(m[2..]) < 2))
  {
    ReadDelimits(DecodeDataSize, stream, m);
    assert m[..HEAD_SIZE][1] == m[1] && m[..HEAD_SIZE][2] == m[2] && m[..HEAD_SIZE][3] == m[3];
    HandedOnHead(m);
    KeyOfCopy(HandedOn(m), m);
  }

  lemma KeyOfCopy(c: seq<Byte>, m: seq<Byte>)
    requires |c| == |m| && Delimited(DecodeDataSize, m)
    requires c[..HEAD_SIZE] == HandedOn(m)[..HEAD_SIZE]
    ensures KeyPresent(c) <==> !(m[0] != 0 && m[1] == 254 && Read16(m[2..]) < 2)
  {
    HandedOnHead(m);
    assert c[..HEAD_SIZE][0] == c[0] && c[..HEAD_SIZE][1] == c[1];
    assert m[..HEAD_SIZE][1] == m[1] && m[..HEAD_SIZE][2] == m[2] && m[..HEAD_SIZE][3] == m[3];
  }

  /** Such a stream: a length of zero in 16 bits. */
  lemma NoKey(x: Byte, y: Byte)
    ensures var m := [0x82, 0xFE, 0, 0, x, y];
      Read(DecodeDataSize, m).messages == [m] && !KeyPresent(HandedOn(m))
  {
    var m := [0x82, 0xFE, 0, 0, x, y];
    assert m[..HEAD_SIZE] == [0x82, 0xFE, 0, 0];
    assert Read16(m[..HEAD_SIZE][2..]) == 0;
    assert DecodeDataSize(m[..HEAD_SIZE]) == Some(2);
    assert Concat([m]) + [] == m;
    ReadStep(DecodeDataSize, m, []);
    assert m + [] == m;
    HandedOnHead(m);
    KeyOfCopy(HandedOn(m), m);
  }
}
