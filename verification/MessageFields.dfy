/** The message meta both protocols carry (net/protocol/Protocol.h, net/protocol/ProtocolHead.h):
    model, option, and the optional fields the option announces.  A char is signed, as on the
    platform the library is written for, so a byte from 128 up is read back sign-extended.
 */
module MessageFields {
  import opened Sequences
  import opened ByteString

  const CATEGORY_HEARTBEAT: nat := 0x02

  // eco::has for the single bits used on the wire.

  predicate HasMessage(category: nat) { category % 2 == 1 }
  predicate HasHeartbeat(category: nat) { category / 2 % 2 == 1 }
  predicate HasEncrypted(category: nat) { category / 16 % 2 == 1 }

  predicate HasType(option: nat) { option / 2 % 2 == 1 }
  predicate HasReq4(option: nat) { option / 4 % 2 == 1 }
  predicate HasReq8(option: nat) { option / 8 % 2 == 1 }
  predicate HasSess(option: nat) { option / 16 % 2 == 1 }

  /** The bits two numbers have in common, the "&" of the source. */
  function And(a: nat, b: nat): nat {
    if a == 0 || b == 0 then 0 else 2 * And(a / 2, b / 2) + (if a % 2 == 1 && b % 2 == 1 then 1 else 0)
  }

  lemma {:induction false} AndBit(v: nat, k: nat)
    ensures k == 0 ==> (And(v, 1) > 0 <==> v % 2 == 1)
    ensures k > 0 ==> (And(v, 2 * k) > 0 <==> And(v / 2, k) > 0)
  {
    assert And(v / 2, 0) == 0 && And(0, k) == 0;
  }

  /** Which bit each flag is: message 0x01, heartbeat 0x02 and encrypted 0x10 of the category
      (net/protocol/ProtocolHead.h:43-51), type 0x02, request 0x04 and 0x08 and session 0x10 of the
      option (net/protocol/Protocol.h:76-89). */
  lemma FlagBits(v: nat)
    ensures (And(v, 0x01) > 0 <==> HasMessage(v)) && (And(v, 0x02) > 0 <==> HasHeartbeat(v))
    ensures And(v, 0x10) > 0 <==> HasEncrypted(v)
    ensures (And(v, 0x02) > 0 <==> HasType(v)) && (And(v, 0x04) > 0 <==> HasReq4(v))
    ensures (And(v, 0x08) > 0 <==> HasReq8(v)) && (And(v, 0x10) > 0 <==> HasSess(v))
  {
    BitAt(v, 1);
    BitAt(v, 2);
    BitAt(v, 3);
    BitAt(v, 4);
    AndBit(v, 0);
  }

  lemma BitAt(v: nat, k: nat)
    requires 1 <= k <= 4
    ensures k == 1 ==> (And(v, 2) > 0 <==> v / 2 % 2 == 1)
    ensures k == 2 ==> (And(v, 4) > 0 <==> v / 4 % 2 == 1)
    ensures k == 3 ==> (And(v, 8) > 0 <==> v / 8 % 2 == 1)
    ensures k == 4 ==> (And(v, 16) > 0 <==> v / 16 % 2 == 1)
  {
    if k == 1 {
      AndBit(v, 1);
      AndBit(v / 2, 0);
    } else {
      BitAt(v / 2, k - 1);
      AndBit(v, if k == 2 then 2 else if k == 3 then 4 else 8);
      assert v / 2 / 2 == v / 4 && v / 2 / 4 == v / 8 && v / 2 / 8 == v / 16;
    }
  }

  lemma HeartbeatBits()
    ensures And(0x02, 0x02) == 2 && And(0x02, 0x01) == 0
  {
    assert And(1, 1) == 1 && And(1, 0) == 0;
  }

  /** eco::set of the encrypted bit. */
  function SetEncrypted(category: nat, on: bool): (r: nat)
    ensures HasEncrypted(r) == on
    ensures r % 16 == category % 16 && r / 32 == category / 32
  {
    if on == HasEncrypted(category) then category else if on then category + 16 else category - 16
  }

  /** A signed char converted to an unsigned integer of the given range. */
  function Extend(b: Byte, range: nat): (r: nat)
    requires range >= 256
    ensures r < range
  {
    if b < 128 then b else range - 256 + b
  }

  datatype Meta = Meta(
    category: nat,      // uint16
    model: nat,         // uint16
    option: nat,        // uint32
    sessionId: nat,     // uint32
    messageType: nat,   // uint32
    requestData: nat)   // uint64
  {
    ghost predicate Typed() {
      && category < 65536 && model < 65536 && option < 4294967296
      && sessionId < 4294967296 && messageType < 4294967296 && requestData < 18446744073709551616
    }
  }

  // The optional fields on the wire.  Only TcpProtocol sends a session id.

  function SessionSize(option: nat, session: bool): nat { if session && HasSess(option) then 4 else 0 }
  function TypeSize(option: nat): nat { if HasType(option) then 2 else 0 }
  function RequestSize(option: nat): nat { if HasReq4(option) then 4 else if HasReq8(option) then 8 else 0 }

  function OptionalSize(option: nat, session: bool): nat {
    SessionSize(option, session) + TypeSize(option) + RequestSize(option)
  }

  function SessionBytes(m: Meta, session: bool): (r: seq<Byte>)
    ensures |r| == SessionSize(m.option, session)
  {
    if session && HasSess(m.option) then Be32(m.sessionId) else []
  }

  function TypeBytes(m: Meta): (r: seq<Byte>)
    ensures |r| == TypeSize(m.option)
  {
    if HasType(m.option) then Be16(m.messageType) else []
  }

  /** An 8-byte request goes out as its low half and four bytes of whatever the buffer held. */
  function RequestBytes(m: Meta, junk: seq<Byte>): (r: seq<Byte>)
    requires |junk| == 4
    ensures |r| == RequestSize(m.option)
  {
    if HasReq4(m.option) then Be32(m.requestData)
    else if HasReq8(m.option) then Be32(m.requestData % 4294967296) + junk
    else []
  }

  function OptionalBytes(m: Meta, session: bool, junk: seq<Byte>): (r: seq<Byte>)
    requires |junk| == 4
    ensures |r| == OptionalSize(m.option, session)
  {
    SessionBytes(m, session) + (TypeBytes(m) + RequestBytes(m, junk))
  }

  /** Byte by byte, what the option announces: its bit 0x10 the session id, 0x02 the type, 0x04 four
      bytes of request data, 0x08 without it eight, of which four are not written. */
  lemma OptionalSpelled(m: Meta, session: bool, junk: seq<Byte>)
    requires |junk| == 4
    ensures var o, id, t, r, l := m.option, m.sessionId, m.messageType, m.requestData, m.requestData % 0x1_0000_0000;
      OptionalBytes(m, session, junk) ==
        (if session && And(o, 0x10) > 0
          then [id / 0x1000000 % 256, id / 0x10000 % 256, id / 0x100 % 256, id % 256] else [])
        + (if And(o, 0x02) > 0 then [t / 0x100 % 256, t % 256] else [])
        + (if And(o, 0x04) > 0
            then [r / 0x1000000 % 256, r / 0x10000 % 256, r / 0x100 % 256, r % 256]
          else if And(o, 0x08) > 0
            then [l / 0x1000000 % 256, l / 0x10000 % 256, l / 0x100 % 256, l % 256] + junk
          else [])
  {
    FlagBits(m.option);
    Be32Spelled(m.sessionId);
    Be32Spelled(m.requestData);
    Be32Spelled(m.requestData % 0x1_0000_0000);
    Be32Spelled(m.messageType);
    Regroup(SessionBytes(m, session), TypeBytes(m), RequestBytes(m, junk));
  }

  /** For instance, a message of type 5 and nothing else. */
  lemma OptionalForInstance(m: Meta, junk: seq<Byte>)
    requires m.option == 0x02 && m.messageType == 5 && |junk| == 4
    ensures OptionalBytes(m, true, junk) == [0, 5]
  {
    assert SessionBytes(m, true) == [] && RequestBytes(m, junk) == [] && TypeBytes(m) == [0, 5];
  }

  method AppendSession(bytes: String, m: Meta, session: bool)
    requires bytes.Valid() && bytes.data != null
    modifies bytes, bytes.data
    ensures bytes.Valid() && bytes.data != null
    ensures bytes.Contents() == old(bytes.Contents()) + SessionBytes(m, session)
    ensures bytes.data == old(bytes.data) || fresh(bytes.data)
  {
    if session && HasSess(m.option) {
      bytes.AppendHton32(m.sessionId);
    }
  }

  method AppendType(bytes: String, m: Meta)
    requires bytes.Valid() && bytes.data != null
    modifies bytes, bytes.data
    ensures bytes.Valid() && bytes.data != null
    ensures bytes.Contents() == old(bytes.Contents()) + TypeBytes(m)
    ensures bytes.data == old(bytes.data) || fresh(bytes.data)
  {
    if HasType(m.option) {
      bytes.AppendHton16(m.messageType);
    }
  }

  method AppendRequest(bytes: String, m: Meta) returns (ghost junk: seq<Byte>)
    requires bytes.Valid() && bytes.data != null
    modifies bytes, bytes.data
    ensures bytes.Valid() && bytes.data != null && |junk| == 4
    ensures bytes.Contents() == old(bytes.Contents()) + RequestBytes(m, junk)
    ensures bytes.data == old(bytes.data) || fresh(bytes.data)
  {
    junk := [0, 0, 0, 0];
    ghost var before := bytes.Contents();
    if HasReq4(m.option) {
      bytes.AppendHton32(m.requestData);
    } else if HasReq8(m.option) {
      junk := bytes.AppendHton64(m.requestData);
      Regroup(before, Be32(m.requestData % 4294967296), junk);
    }
  }

  /** The part of both encode functions that appends the optional fields. */
  method AppendOptional(bytes: String, m: Meta, session: bool) returns (ghost junk: seq<Byte>)
    requires bytes.Valid() && bytes.data != null
    modifies bytes, bytes.data
    ensures bytes.Valid() && bytes.data != null && |junk| == 4
    ensures bytes.Contents() == old(bytes.Contents()) + OptionalBytes(m, session, junk)
    ensures bytes.data == old(bytes.data) || fresh(bytes.data)
  {
    ghost var before := bytes.Contents();
    AppendSession(bytes, m, session);
    AppendType(bytes, m);
    junk := AppendRequest(bytes, m);
    Regroup(before, SessionBytes(m, session), TypeBytes(m));
    Regroup(before, SessionBytes(m, session) + TypeBytes(m), RequestBytes(m, junk));
    Regroup(SessionBytes(m, session), TypeBytes(m), RequestBytes(m, junk));
  }

  // The part of both decode functions that reads the optional fields.

  function ReadSession(bytes: seq<Byte>, m: Meta, session: bool): (r: Meta)
    requires |bytes| >= SessionSize(m.option, session)
    ensures r.option == m.option
  {
    if session && HasSess(m.option) then m.(sessionId := Read32(bytes)) else m
  }

  function ReadType(bytes: seq<Byte>, m: Meta): (r: Meta)
    requires |bytes| >= TypeSize(m.option)
    ensures r.option == m.option
  {
    if HasType(m.option) then m.(messageType := Read16(bytes)) else m
  }

  function ReadRequest(bytes: seq<Byte>, m: Meta): (r: Meta)
    requires |bytes| >= RequestSize(m.option)
  {
    if HasReq4(m.option) then m.(requestData := Read32(bytes))
    else if HasReq8(m.option) then m.(requestData := Read32(bytes) * 4294967296 + Read32(bytes[4..]))
    else m
  }

  /** Model and option are already in m. */
  function ReadOptional(bytes: seq<Byte>, m: Meta, session: bool): Meta
    requires |bytes| >= OptionalSize(m.option, session)
  {
    var afterSession := bytes[SessionSize(m.option, session)..];
    var afterType := afterSession[TypeSize(m.option)..];
    ReadRequest(afterType, ReadType(afterSession, ReadSession(bytes, m, session)))
  }

  // What a receiver whose meta was "initial" ends up with when "m" is sent.

  function ReceivedSession(m: Meta, initial: Meta, session: bool): nat {
    if session && HasSess(m.option) then m.sessionId % 4294967296 else initial.sessionId
  }

  function ReceivedType(m: Meta, initial: Meta): nat {
    if HasType(m.option) then m.messageType % 65536 else initial.messageType
  }

  function ReceivedRequest(m: Meta, initial: Meta, junk: seq<Byte>): nat
    requires |junk| == 4
  {
    if HasReq4(m.option) then m.requestData % 4294967296
    else if HasReq8(m.option) then m.requestData % 4294967296 * 4294967296 + Read32(junk)
    else initial.requestData
  }

  function ReceivedModel(m: Meta): nat { Extend(m.model % 256, 65536) }
  function ReceivedOption(m: Meta): nat { Extend(m.option % 256, 4294967296) }

  function Received(m: Meta, initial: Meta, session: bool, junk: seq<Byte>): Meta
    requires |junk| == 4
  {
    Meta(initial.category, ReceivedModel(m), ReceivedOption(m), ReceivedSession(m, initial, session),
         ReceivedType(m, initial), ReceivedRequest(m, initial, junk))
  }

  /** Cutting the option to a byte and sign-extending it keeps the low flags. */
  lemma FlagsSurvive(m: Meta)
    ensures HasType(ReceivedOption(m)) == HasType(m.option)
    ensures HasReq4(ReceivedOption(m)) == HasReq4(m.option)
    ensures HasReq8(ReceivedOption(m)) == HasReq8(m.option)
    ensures HasSess(ReceivedOption(m)) == HasSess(m.option)
  {
    var q, b := m.option / 256, m.option % 256;
    BitsOfSum(q, b);
    BitsOfSum(16777215, b);
  }

  lemma BitsOfSum(q: nat, b: nat)
    ensures HasType(q * 256 + b) == HasType(b) && HasReq4(q * 256 + b) == HasReq4(b)
    ensures HasReq8(q * 256 + b) == HasReq8(b) && HasSess(q * 256 + b) == HasSess(b)
  {
    Even(q * 64, b / 2);
    Even(q * 32, b / 4);
    Even(q * 16, b / 8);
    Even(q * 8, b / 16);
  }

  lemma Even(k: nat, b: nat)
    ensures (k * 2 + b) % 2 == b % 2
  {
  }

  lemma SessionRoundTrip(m: Meta, start: Meta, session: bool, rest: seq<Byte>)
    requires HasSess(start.option) == HasSess(m.option)
    ensures ReadSession(SessionBytes(m, session) + rest, start, session)
         == start.(sessionId := ReceivedSession(m, start, session))
  {
    Read32Be32(m.sessionId, rest);
  }

  lemma TypeRoundTrip(m: Meta, start: Meta, rest: seq<Byte>)
    requires HasType(start.option) == HasType(m.option)
    ensures ReadType(TypeBytes(m) + rest, start) == start.(messageType := ReceivedType(m, start))
  {
    Read16Be16(m.messageType, rest);
  }

  lemma RequestRoundTrip(m: Meta, start: Meta, junk: seq<Byte>, rest: seq<Byte>)
    requires |junk| == 4
    requires HasReq4(start.option) == HasReq4(m.option) && HasReq8(start.option) == HasReq8(m.option)
    ensures ReadRequest(RequestBytes(m, junk) + rest, start)
         == start.(requestData := ReceivedRequest(m, start, junk))
  {
    if HasReq4(m.option) {
      Read32Be32(m.requestData, rest);
    } else if HasReq8(m.option) {
      var low := m.requestData % 4294967296;
      Regroup(Be32(low), junk, rest);
      Read32Be32(low, junk + rest);
      Tail(Be32(low), junk + rest);
      Read32Prefix(junk, rest);
    }
  }

  lemma Read32Prefix(a: seq<Byte>, rest: seq<Byte>)
    requires |a| == 4
    ensures Read32(a + rest) == Read32(a)
  {
  }

  lemma OptionalRoundTrip(m: Meta, initial: Meta, session: bool, junk: seq<Byte>, rest: seq<Byte>)
    requires |junk| == 4
    ensures OptionalSize(ReceivedOption(m), session) == OptionalSize(m.option, session)
    ensures ReadOptional(OptionalBytes(m, session, junk) + rest,
                         initial.(model := ReceivedModel(m), option := ReceivedOption(m)), session)
         == Received(m, initial, session, junk)
  {
    FlagsSurvive(m);
    var start := initial.(model := ReceivedModel(m), option := ReceivedOption(m));
    var s, t, r := SessionBytes(m, session), TypeBytes(m), RequestBytes(m, junk);
    Regroup(s, t + r, rest);
    Regroup(t, r, rest);
    Tail(s, t + (r + rest));
    Tail(t, r + rest);
    SessionRoundTrip(m, start, session, t + (r + rest));
    var m1 := start.(sessionId := ReceivedSession(m, start, session));
    TypeRoundTrip(m, m1, r + rest);
    RequestRoundTrip(m, m1.(messageType := ReceivedType(m, m1)), junk, rest);
  }

  /** Exactly when everything sent arrives: model and option fit a signed char, the type 16 bits,
      the request data 32, and it is not sent in 8 bytes; a field that is not sent must be what the
      receiver already has. */
  ghost predicate Carried(m: Meta, initial: Meta, session: bool) {
    && (m.model < 128 || m.model >= 65408)
    && (m.option < 128 || m.option >= 4294967168)
    && (if session && HasSess(m.option) then true else m.sessionId == initial.sessionId)
    && (if HasType(m.option) then m.messageType < 65536 else m.messageType == initial.messageType)
    && (if HasReq4(m.option) then m.requestData < 4294967296
        else !HasReq8(m.option) && m.requestData == initial.requestData)
  }

  ghost predicate Arrives(m: Meta, initial: Meta, session: bool, junk: seq<Byte>) {
    |junk| == 4 ==> Received(m, initial, session, junk) == m.(category := initial.category)
  }

  /** Whatever stale bytes the buffer holds, what was sent is what is received, if and only if
      every field is carried. */
  lemma ReceivedIsSent(m: Meta, initial: Meta, session: bool)
    requires m.Typed()
    ensures (forall junk :: Arrives(m, initial, session, junk)) <==> Carried(m, initial, session)
  {
    ExtendIffFits(m.model, 65536);
    ExtendIffFits(m.option, 4294967296);
    if HasType(m.option) {
      ModIffBelow(m.messageType, 65536);
    }
    if HasReq4(m.option) {
      ModIffBelow(m.requestData, 4294967296);
      assert Arrives(m, initial, session, Zeros(4)) ==> Carried(m, initial, session);
    } else if HasReq8(m.option) {
      JunkShows(m, initial, session);
    } else {
      assert Arrives(m, initial, session, Zeros(4)) ==> Carried(m, initial, session);
    }
  }

  /** The high half of 8-byte request data is lost: two buffers give two results. */
  lemma JunkShows(m: Meta, initial: Meta, session: bool)
    requires HasReq8(m.option) && !HasReq4(m.option)
    ensures !(Arrives(m, initial, session, Zeros(4)) && Arrives(m, initial, session, [0, 0, 0, 1]))
  {
    assert Read32(Zeros(4)) == 0;
    assert Read32([0, 0, 0, 1]) == 1;
  }

  lemma ExtendIffFits(v: nat, range: nat)
    requires v < range && (range == 65536 || range == 4294967296)
    ensures Extend(v % 256, range) == v <==> v < 128 || v >= range - 128
  {
  }

  lemma ModIffBelow(v: nat, range: nat)
    requires range > 0
    ensures v % range == v <==> v < range
  {
  }
}
