/** TcpProtocolHead and TcpProtocol (net/protocol/TcpProtocol.h).  No cipher and no checksum is
    ever installed, so neither branch is here. */
module Tcp {
  import opened Sequences
  import opened ByteString
  import opened MessageFields
  import opened Framing

  const VERSION: nat := 1

  /** The four bytes of the head, with the size of what follows in 16 bits. */
  function Head(version: nat, category: nat, size: nat): (r: seq<Byte>)
    ensures |r| == HEAD_SIZE
  {
    [version % 256, category % 256] + Be16(size)
  }

  function Packet(version: nat, category: nat, data: seq<Byte>): (r: seq<Byte>)
    ensures |r| == HEAD_SIZE + |data|
  {
    Head(version, category, |data|) + data
  }

  /** The data of a message: everything behind the head. */
  function Data(m: Meta, junk: seq<Byte>, payload: seq<Byte>): (r: seq<Byte>)
    requires |junk| == 4
    ensures |r| == 2 + OptionalSize(m.option, true) + |payload|
  {
    [m.model % 256, m.option % 256] + (OptionalBytes(m, true, junk) + payload)
  }

  // Writing.

  /** encode_append: the head, its size still to come. */
  method AppendHead(bytes: String, version: nat, category: nat)
    requires bytes.Valid()
    modifies bytes, bytes.data
    ensures bytes.Valid() && bytes.data != null
    ensures bytes.Contents() == (old(bytes.Contents()) + [0, 0, 0, 0])[0 := version % 256][1 := category % 256]
    ensures old(bytes.Contents()) == [] ==> bytes.Contents() == Head(version, category, 0)
    ensures bytes.data == old(bytes.data) || fresh(bytes.data)
  {
    ghost var before := bytes.Contents();
    bytes.Fill(4, 0);
    assert bytes.Contents() == before + [0, 0, 0, 0];
    bytes.Put(0, version % 256);
    bytes.Put(1, category % 256);
    if before == [] {
      assert bytes.Contents() == Head(version, category, 0);
    }
  }

  lemma SizePlaced(version: nat, category: nat, data: seq<Byte>)
    ensures var c := Head(version, category, 0) + data;
      c[..2] + Be16(|data| % 65536) + c[4..] == Packet(version, category, data)
  {
    var n := |data|;
    assert n % 65536 == n / 256 % 256 * 256 + n % 256;
  }

  /** encode_data_size; a size above 16 bits is cut. */
  method EncodeDataSize(bytes: String, ghost version: nat, ghost category: nat, ghost data: seq<Byte>) returns (start: nat)
    requires bytes.Valid() && bytes.Contents() == Head(version, category, 0) + data
    modifies bytes.data
    ensures bytes.Valid() && start == 0 && bytes.Contents() == Packet(version, category, data)
  {
    SizePlaced(version, category, data);
    bytes.Put16(2, (bytes.size - 4) % 65536);
    start := 0;
  }

  method AppendFixed(bytes: String, m: Meta)
    requires bytes.Valid() && bytes.data != null
    modifies bytes, bytes.data
    ensures bytes.Valid() && bytes.data != null
    ensures bytes.Contents() == old(bytes.Contents()) + [m.model % 256, m.option % 256]
    ensures bytes.data == old(bytes.data) || fresh(bytes.data)
  {
    ghost var before := bytes.Contents();
    bytes.Fill(1, m.model % 256);
    bytes.Fill(1, m.option % 256);
    assert bytes.Contents() == before + [m.model % 256, m.option % 256];
  }

  /** encode; the message object is given by its bytes. */
  method Encode(bytes: String, m: Meta, payload: seq<Byte>) returns (start: nat, ghost junk: seq<Byte>)
    requires bytes.Valid()
    modifies bytes, bytes.data
    ensures bytes.Valid() && start == 0 && |junk| == 4
    ensures bytes.Contents() == Packet(VERSION, m.category, Data(m, junk, payload))
  {
    bytes.Clear();
    bytes.Reserve(2 + OptionalSize(m.option, true) + |payload| + 4);
    AppendHead(bytes, VERSION, m.category);
    AppendFixed(bytes, m);
    junk := AppendOptional(bytes, m, true);
    bytes.Append(payload);
    ghost var head := Head(VERSION, m.category, 0);
    ghost var fixed := [m.model % 256, m.option % 256];
    ghost var optional := OptionalBytes(m, true, junk);
    Regroup(head, fixed, optional);
    Regroup(head, fixed + optional, payload);
    Regroup(fixed, optional, payload);
    start := EncodeDataSize(bytes, VERSION, m.category, Data(m, junk, payload));
  }

  /** A heartbeat is a head on its own; its size stays 0. */
  function Heartbeat(): seq<Byte> { Packet(0xFFFFFFFF, CATEGORY_HEARTBEAT, []) }

  method EncodeHeartbeat(bytes: String)
    requires bytes.Valid()
    modifies bytes, bytes.data
    ensures bytes.Valid()
    ensures bytes.Contents() == (old(bytes.Contents()) + [0, 0, 0, 0])[0 := 0xFF][1 := CATEGORY_HEARTBEAT]
    ensures old(bytes.Contents()) == [] ==> bytes.Contents() == Heartbeat()
  {
    AppendHead(bytes, 0xFFFFFFFF, CATEGORY_HEARTBEAT);
  }

  /** Byte by byte, a message as it is sent: version 1, category, two bytes of size, model, option. */
  lemma MessageSpelled(m: Meta, junk: seq<Byte>, payload: seq<Byte>)
    requires |junk| == 4
    ensures var n := 2 + OptionalSize(m.option, true) + |payload|;
      Packet(VERSION, m.category, Data(m, junk, payload)) ==
        [1, m.category % 256, n / 256 % 256, n % 256, m.model % 256, m.option % 256] + (OptionalBytes(m, true, junk) + payload)
  {
  }

  /** A heartbeat has the heartbeat bit, and is no message. */
  lemma HeartbeatIsHeartbeat()
    ensures Heartbeat() == [0xFF, 0x02, 0, 0] && DecodeHead(Heartbeat()) == Some((0xFFFFFFFF, 0x02))
    ensures And(Heartbeat()[1], 0x02) > 0 && And(Heartbeat()[1], 0x01) == 0
  {
    HeartbeatBits();
    assert Heartbeat()[1] == 0x02;
  }

  // Reading.

  function DecodeDataSize(s: seq<Byte>): Option<nat> {
    if |s| < 4 then None else Some(Read16(s[2..]))
  }

  /** TcpProtocolHead::decode: version and category; what is neither a message nor a heartbeat is
      refused. */
  function DecodeHead(s: seq<Byte>): (r: Option<(nat, nat)>)
    requires |s| >= 2
    ensures r.Some? <==> HasMessage(s[1]) || HasHeartbeat(s[1])
  {
    SignKeepsCategory(s[1]);
    var category := Extend(s[1], 65536);
    if !HasMessage(category) && !HasHeartbeat(category) then None
    else Some((Extend(s[0], 4294967296), category))
  }

  lemma SignKeepsCategory(b: Byte)
    ensures HasMessage(Extend(b, 65536)) == HasMessage(b)
    ensures HasHeartbeat(Extend(b, 65536)) == HasHeartbeat(b)
  {
  }

  datatype Decoded = NoOption | NoMeta(meta: Meta) | Message(meta: Meta, data: seq<Byte>)

  function DecodeMessage(s: seq<Byte>, initial: Meta): Decoded {
    if |s| < 6 then NoOption
    else
      var m := initial.(model := Extend(s[4], 65536), option := Extend(s[5], 4294967296));
      if |s| < 6 + OptionalSize(m.option, true) then NoMeta(m)
      else Message(ReadOptional(s[6..], m, true), s[6 + OptionalSize(m.option, true)..])
  }

  // What arrives.

  lemma DataSizeOfPacket(version: nat, category: nat, data: seq<Byte>, rest: seq<Byte>)
    ensures DecodeDataSize((Packet(version, category, data) + rest)[..HEAD_SIZE]) == Some(|data| % 65536)
  {
    var s := Packet(version, category, data) + rest;
    var two: seq<Byte> := [version % 256, category % 256];
    assert s[..HEAD_SIZE] == two + Be16(|data|);
    Tail(two, Be16(|data|));
    Read16Be16(|data|, []);
    assert Be16(|data|) + [] == Be16(|data|);
  }

  lemma DelimitedIffFits(version: nat, category: nat, data: seq<Byte>)
    ensures Delimited(DecodeDataSize, Packet(version, category, data)) <==> |data| <= 65535
  {
    DataSizeOfPacket(version, category, data, []);
    assert Packet(version, category, data) + [] == Packet(version, category, data);
  }

  lemma MessageRoundTrip(m: Meta, initial: Meta, junk: seq<Byte>, payload: seq<Byte>)
    requires |junk| == 4
    ensures DecodeMessage(Packet(VERSION, m.category, Data(m, junk, payload)), initial)
         == Message(Received(m, initial, true, junk), payload)
  {
    var optional := OptionalBytes(m, true, junk);
    DecodeParts(Head(VERSION, m.category, |Data(m, junk, payload)|), m.model % 256, m.option % 256, optional + payload, initial);
    OptionalRoundTrip(m, initial, true, junk, payload);
    Tail(optional, payload);
  }

  lemma DecodeParts(head: seq<Byte>, model: Byte, option: Byte, rest: seq<Byte>, initial: Meta)
    requires |head| == HEAD_SIZE
    ensures var m := initial.(model := Extend(model, 65536), option := Extend(option, 4294967296));
      var n := OptionalSize(m.option, true);
      DecodeMessage(head + ([model, option] + rest), initial)
        == if |rest| < n then NoMeta(m) else Message(ReadOptional(rest, m, true), rest[n..])
  {
    SixAndRest(head, [model, option], rest);
    var n := OptionalSize(Extend(option, 4294967296), true);
    var s := head + ([model, option] + rest);
    if |rest| >= n {
      assert s[6..][n..] == s[6 + n..];
    }
  }

  lemma SixAndRest(head: seq<Byte>, fixed: seq<Byte>, rest: seq<Byte>)
    requires |head| == 4 && |fixed| == 2
    ensures var s := head + (fixed + rest);
      s[4] == fixed[0] && s[5] == fixed[1] && s[6..] == rest
  {
  }

  ghost predicate ArrivesWhole(m: Meta, initial: Meta, payload: seq<Byte>, junk: seq<Byte>) {
    |junk| == 4 ==>
      DecodeMessage(Packet(VERSION, m.category, Data(m, junk, payload)), initial)
        == Message(m.(category := initial.category), payload)
  }

  /** Whatever stale bytes the buffer holds, the message decoded is the message sent, if and only if
      every field is carried. */
  lemma RoundTripIff(m: Meta, initial: Meta, payload: seq<Byte>)
    requires m.Typed()
    ensures (forall junk :: ArrivesWhole(m, initial, payload, junk)) <==> Carried(m, initial, true)
  {
    ReceivedIsSent(m, initial, true);
    forall junk
      ensures ArrivesWhole(m, initial, payload, junk) <==> Arrives(m, initial, true, junk)
    {
      if |junk| == 4 {
        MessageRoundTrip(m, initial, junk, payload);
      }
    }
    assert (forall junk :: ArrivesWhole(m, initial, payload, junk)) ==>
      forall junk :: ArrivesWhole(m, initial, payload, junk) ==> Arrives(m, initial, true, junk);
  }

  /** The head tells a message from a heartbeat by the low bits of the category sent. */
  lemma HeadRoundTrip(version: nat, category: nat, data: seq<Byte>)
    ensures DecodeHead(Packet(version, category, data))
         == if HasMessage(category) || HasHeartbeat(category)
            then Some((Extend(version % 256, 4294967296), Extend(category % 256, 65536)))
            else None
  {
    var s := Packet(version, category, data);
    assert s[0] == version % 256 && s[1] == category % 256;
    LowBits(category);
  }

  lemma LowBits(category: nat)
    ensures HasMessage(category % 256) == HasMessage(category)
    ensures HasHeartbeat(category % 256) == HasHeartbeat(category)
  {
    var q, b := category / 256, category % 256;
    assert category / 2 == q * 128 + b / 2;
  }

  // Streams.

  datatype Item = Beat | Parcel(category: nat, data: seq<Byte>)

  function Bytes(item: Item): seq<Byte> {
    match item
    case Beat => Heartbeat()
    case Parcel(category, data) => Packet(VERSION, category, data)
  }

  ghost predicate Fits(item: Item) { item.Parcel? ==> |item.data| <= 65535 }

  lemma ItemDelimited(item: Item)
    ensures Delimited(DecodeDataSize, Bytes(item)) <==> Fits(item)
  {
    match item
    case Beat => DelimitedIffFits(0xFFFFFFFF, CATEGORY_HEARTBEAT, []);
    case Parcel(category, data) => DelimitedIffFits(VERSION, category, data);
  }

  /** Messages and heartbeats sent one after another are read back as they were sent, in order,
      whatever follows them. */
  lemma StreamRoundTrip(items: seq<Item>, rest: seq<Byte>)
    requires forall item :: item in items ==> Fits(item)
    ensures Read(DecodeDataSize, Concat(SentFor(Bytes, items)) + rest)
         == Reading(SentFor(Bytes, items) + Read(DecodeDataSize, rest).messages, Read(DecodeDataSize, rest).unread)
  {
    forall m | m in SentFor(Bytes, items) ensures Delimited(DecodeDataSize, m) {
      var i :| 0 <= i < |items| && m == Bytes(items[i]);
      ItemDelimited(items[i]);
    }
    ReadConcat(DecodeDataSize, SentFor(Bytes, items), rest);
  }

  /** A message that does not fit is cut to its size modulo 2^16, and what is left over is taken
      for the next head. */
  lemma LongIsCut(long: Item, rest: seq<Byte>)
    requires !Fits(long)
    ensures var n := HEAD_SIZE + |long.data| % 65536;
      && n < |Bytes(long)|
      && Complete(DecodeDataSize, Bytes(long) + rest) == Some(n)
      && Read(DecodeDataSize, Bytes(long) + rest).messages[0] == Bytes(long)[..n]
  {
    DataSizeOfPacket(VERSION, long.category, long.data, rest);
    var n := HEAD_SIZE + |long.data| % 65536;
    assert (Bytes(long) + rest)[..n] == Bytes(long)[..n];
  }

  // What the copied head costs.

  /** The size in the head survives unless its high byte is zero and its low byte is not. */
  lemma PacketSurvivesIff(version: nat, category: nat, data: seq<Byte>)
    requires version % 256 != 0 && |data| <= 65535
    ensures HandedOn(Packet(version, category, data)) == Packet(version, category, data)
      <==> |data| == 0 || (|data| >= 256 && category % 256 != 0)
  {
    var p, n := Packet(version, category, data), |data|;
    assert p[0] == version % 256 && p[1] == category % 256 && p[2] == n / 256 && p[3] == n % 256;
    assert n == n / 256 * 256 + n % 256;
    SurvivesIff(p);
  }

  /** But nothing that decodes looks at the size again: version, category and message arrive. */
  lemma HandedOnDecodes(version: nat, category: nat, data: seq<Byte>, initial: Meta)
    requires version % 256 != 0
    ensures var p := Packet(version, category, data);
      && DecodeHead(HandedOn(p)) == DecodeHead(p)
      && DecodeMessage(HandedOn(p), initial) == DecodeMessage(p, initial)
  {
    var p := Packet(version, category, data);
    assert p[0] == version % 256;
    HandedOnHead(p);
    SameAfterHead(HandedOn(p), p);
  }

  lemma SameAfterHead(a: seq<Byte>, b: seq<Byte>)
    requires |a| == |b| >= HEAD_SIZE && a[HEAD_SIZE..] == b[HEAD_SIZE..]
    ensures forall i :: HEAD_SIZE <= i < |a| ==> a[i] == b[i]
    ensures forall i :: HEAD_SIZE <= i <= |a| ==> a[i..] == b[i..]
  {
    forall i | HEAD_SIZE <= i < |a|
      ensures a[i] == b[i]
    {
      assert a[HEAD_SIZE..][i - HEAD_SIZE] == b[HEAD_SIZE..][i - HEAD_SIZE];
    }
  }

  /** End to end: of messages that fit, sent one after another, the k-th message handed on decodes
      to the k-th message sent. */
  lemma StreamDecodes(items: seq<Item>, rest: seq<Byte>, k: nat, m: Meta, initial: Meta, junk: seq<Byte>, payload: seq<Byte>)
    requires (forall item :: item in items ==> Fits(item)) && k < |items| && |junk| == 4
    requires items[k] == Parcel(m.category, Data(m, junk, payload))
    ensures var messages := Read(DecodeDataSize, Concat(SentFor(Bytes, items)) + rest).messages;
      && k < |messages| && |messages[k]| >= HEAD_SIZE
      && DecodeMessage(HandedOn(messages[k]), initial) == Message(Received(m, initial, true, junk), payload)
  {
    StreamRoundTrip(items, rest);
    HandedOnDecodes(VERSION, m.category, Data(m, junk, payload), initial);
    MessageRoundTrip(m, initial, junk, payload);
  }
}
