/** The stream reader of a peer (prj/src/net/TcpPeer.cpp:130-201): read the four bytes of a
    protocol head, ask the head how many bytes follow, read those, hand the message on, repeat.
    The head is asked as it was read, but what is handed on has a copy of it made by strncpy. */
module Framing {
  import opened Sequences
  import opened ByteString

  const HEAD_SIZE: nat := 4

  type DataSize = seq<Byte> -> Option<nat>

  /** The size of the message a stream starts with, once all of it is there.  A size that does not
      fit 32 bits with its head cannot be allocated: nothing is read from there on. */
  function Complete(dataSize: DataSize, stream: seq<Byte>): (r: Option<nat>)
    ensures r.Some? ==> HEAD_SIZE <= r.value <= |stream|
  {
    if |stream| < HEAD_SIZE then None
    else
      match dataSize(stream[..HEAD_SIZE])
      case None => None
      case Some(n) =>
        if HEAD_SIZE + n >= 4294967296 || |stream| < HEAD_SIZE + n then None else Some(HEAD_SIZE + n)
  }

  datatype Reading = Reading(messages: seq<seq<Byte>>, unread: seq<Byte>)

  /** The messages taken off the stream, and what is left unread: an incomplete message, or one
      whose head is refused (the peer then closes). */
  function Read(dataSize: DataSize, stream: seq<Byte>): Reading
    decreases |stream|
  {
    match Complete(dataSize, stream)
    case None => Reading([], stream)
    case Some(n) =>
      var rest := Read(dataSize, stream[n..]);
      Reading([stream[..n]] + rest.messages, rest.unread)
  }

  function Concat(messages: seq<seq<Byte>>): seq<Byte> {
    if messages == [] then [] else messages[0] + Concat(messages[1..])
  }

  lemma ConcatFirst(m: seq<Byte>, messages: seq<seq<Byte>>)
    ensures Concat([m] + messages) == m + Concat(messages)
  {
    FirstOf(m, messages);
  }

  /** What is sent for a list of items. */
  function SentFor<T>(bytes: T -> seq<Byte>, items: seq<T>): (r: seq<seq<Byte>>)
    ensures |r| == |items| && forall i :: 0 <= i < |items| ==> r[i] == bytes(items[i])
  {
    seq(|items|, i requires 0 <= i < |items| => bytes(items[i]))
  }

  /** The head of the message announces its size. */
  ghost predicate Delimited(dataSize: DataSize, message: seq<Byte>) {
    HEAD_SIZE <= |message| < 4294967296 && dataSize(message[..HEAD_SIZE]) == Some(|message| - HEAD_SIZE)
  }

  lemma ReadStep(dataSize: DataSize, m: seq<Byte>, tail: seq<Byte>)
    requires Delimited(dataSize, m)
    ensures Complete(dataSize, m + tail) == Some(|m|)
    ensures Read(dataSize, m + tail) == Reading([m] + Read(dataSize, tail).messages, Read(dataSize, tail).unread)
  {
    var stream := m + tail;
    assert stream[..HEAD_SIZE] == m[..HEAD_SIZE];
    assert stream[..|m|] == m && stream[|m|..] == tail;
  }

  lemma {:induction false} ReadConcat(dataSize: DataSize, messages: seq<seq<Byte>>, rest: seq<Byte>)
    requires forall m :: m in messages ==> Delimited(dataSize, m)
    ensures Read(dataSize, Concat(messages) + rest)
         == Reading(messages + Read(dataSize, rest).messages, Read(dataSize, rest).unread)
  {
    var later := Read(dataSize, rest).messages;
    if messages == [] {
      assert Concat(messages) + rest == rest;
      assert messages + later == later;
    } else {
      var m, tail := messages[0], Concat(messages[1..]) + rest;
      assert m in messages;
      Regroup(m, Concat(messages[1..]), rest);
      ReadStep(dataSize, m, tail);
      ReadConcat(dataSize, messages[1..], rest);
      FirstAndRest(messages);
      Regroup([m], messages[1..], later);
    }
  }

  lemma CompleteIsDelimited(dataSize: DataSize, stream: seq<Byte>)
    requires Complete(dataSize, stream).Some?
    ensures Delimited(dataSize, stream[..Complete(dataSize, stream).value])
  {
    assert stream[..Complete(dataSize, stream).value][..HEAD_SIZE] == stream[..HEAD_SIZE];
  }

  /** Bytes may arrive in any pieces: what is taken early is what would be taken late. */
  lemma {:induction false} ReadInPieces(dataSize: DataSize, first: seq<Byte>, second: seq<Byte>)
    ensures var a := Read(dataSize, first); var b := Read(dataSize, a.unread + second);
      Read(dataSize, first + second) == Reading(a.messages + b.messages, b.unread)
    decreases |first|
  {
    match Complete(dataSize, first)
    case None =>
      var b := Read(dataSize, first + second);
      assert [] + b.messages == b.messages;
    case Some(n) =>
      CompleteIsDelimited(dataSize, first);
      var m, tail := first[..n], first[n..];
      assert first == m + tail;
      Regroup(m, tail, second);
      ReadStep(dataSize, m, tail + second);
      ReadInPieces(dataSize, tail, second);
      var a := Read(dataSize, tail);
      var b := Read(dataSize, a.unread + second);
      Regroup([m], a.messages, b.messages);
  }

  /** Reading never invents, drops or reorders a byte ... */
  lemma {:induction false} ReadKeepsBytes(dataSize: DataSize, stream: seq<Byte>)
    ensures Concat(Read(dataSize, stream).messages) + Read(dataSize, stream).unread == stream
    decreases |stream|
  {
    match Complete(dataSize, stream)
    case None =>
    case Some(n) =>
      var m, r := stream[..n], Read(dataSize, stream[n..]);
      ReadKeepsBytes(dataSize, stream[n..]);
      ConcatFirst(m, r.messages);
      Regroup(m, Concat(r.messages), r.unread);
      Split(stream, n);
  }

  /** ... and takes delimited messages only. */
  lemma {:induction false} ReadDelimits(dataSize: DataSize, stream: seq<Byte>, m: seq<Byte>)
    requires m in Read(dataSize, stream).messages
    ensures Delimited(dataSize, m)
    decreases |stream|
  {
    var n := Complete(dataSize, stream).value;
    if m == stream[..n] {
      CompleteIsDelimited(dataSize, stream);
    } else {
      ReadDelimits(dataSize, stream[n..], m);
    }
  }

  // What is handed on.

  /** strncpy of a whole buffer: up to the first zero byte, zeros from there on. */
  function Copied(head: seq<Byte>): (r: seq<Byte>)
    ensures |r| == |head|
  {
    if head == [] then []
    else if head[0] == 0 then Zeros(|head|)
    else [head[0]] + Copied(head[1..])
  }

  /** Nothing but zero bytes follows a zero byte. */
  ghost predicate ZerosLast(head: seq<Byte>) {
    forall i, j :: 0 <= i < j < |head| ==> ZeroThenZero(head, i, j)
  }

  ghost predicate ZeroThenZero(head: seq<Byte>, i: nat, j: nat)
    requires i < j < |head|
  {
    head[i] == 0 ==> head[j] == 0
  }

  lemma ZerosLastRest(head: seq<Byte>)
    requires head != [] && head[0] != 0
    ensures ZerosLast(head) <==> ZerosLast(head[1..])
  {
    var rest := head[1..];
    if ZerosLast(head) {
      forall i, j | 0 <= i < j < |rest|
        ensures ZeroThenZero(rest, i, j)
      {
        assert ZeroThenZero(head, i + 1, j + 1);
      }
    }
    if ZerosLast(rest) {
      forall i, j | 0 <= i < j < |head|
        ensures ZeroThenZero(head, i, j)
      {
        assert i > 0 ==> ZeroThenZero(rest, i - 1, j - 1);
      }
    }
  }

  /** The copy is the head if and only if nothing but zero bytes follows a zero byte. */
  lemma {:induction false} CopiedIff(head: seq<Byte>)
    ensures Copied(head) == head <==> ZerosLast(head)
  {
    if head != [] {
      var rest := head[1..];
      if head[0] != 0 {
        CopiedIff(rest);
        ZerosLastRest(head);
        FirstOf(head[0], Copied(rest));
        FirstAndRest(head);
      } else if ZerosLast(head) {
        forall j | 0 <= j < |head|
          ensures head[j] == Zeros(|head|)[j]
        {
          assert j > 0 ==> ZeroThenZero(head, 0, j);
        }
        assert Zeros(|head|) == head;
      } else {
        assert ZerosLast(Zeros(|head|));
      }
    }
  }

  lemma CopiedFour(a: Byte, b: Byte, c: Byte, d: Byte)
    ensures Copied([a, b, c, d]) ==
      if a == 0 then [0, 0, 0, 0] else if b == 0 then [a, 0, 0, 0] else if c == 0 then [a, b, 0, 0] else [a, b, c, d]
  {
    assert Zeros(4) == [0, 0, 0, 0] && Zeros(3) == [0, 0, 0] && Zeros(2) == [0, 0] && Zeros(1) == [0];
    assert [d][1..] == [] && Copied([d]) == [d];
    assert [c, d][1..] == [d] && Copied([c, d]) == if c == 0 then [0, 0] else [c, d];
    assert [b, c, d][1..] == [c, d] && Copied([b, c, d]) == if b == 0 then [0, 0, 0] else [b] + Copied([c, d]);
    assert [a, b, c, d][1..] == [b, c, d];
  }

  /** The message on_read gets. */
  function HandedOn(message: seq<Byte>): (r: seq<Byte>)
    requires |message| >= HEAD_SIZE
    ensures |r| == |message| && r[HEAD_SIZE..] == message[HEAD_SIZE..]
  {
    Copied(message[..HEAD_SIZE]) + message[HEAD_SIZE..]
  }

  lemma HandedOnHead(m: seq<Byte>)
    requires |m| >= HEAD_SIZE
    ensures HandedOn(m)[..HEAD_SIZE] ==
      if m[0] == 0 then [0, 0, 0, 0] else if m[1] == 0 then [m[0], 0, 0, 0]
      else if m[2] == 0 then [m[0], m[1], 0, 0] else m[..HEAD_SIZE]
  {
    assert m[..HEAD_SIZE] == [m[0], m[1], m[2], m[3]];
    CopiedFour(m[0], m[1], m[2], m[3]);
  }

  /** A message arrives as it was sent if and only if its head is copied whole. */
  lemma SurvivesIff(m: seq<Byte>)
    requires |m| >= HEAD_SIZE
    ensures HandedOn(m) == m <==>
      (m[0] == 0 ==> m[1] == 0 && m[2] == 0 && m[3] == 0) && (m[1] == 0 ==> m[2] == 0 && m[3] == 0) && (m[2] == 0 ==> m[3] == 0)
  {
    HandedOnHead(m);
    Split(m, HEAD_SIZE);
    assert HandedOn(m) == HandedOn(m)[..HEAD_SIZE] + m[HEAD_SIZE..];
    assert m[..HEAD_SIZE] == [m[0], m[1], m[2], m[3]];
    assert HandedOn(m) == m ==> HandedOn(m)[..HEAD_SIZE] == m[..HEAD_SIZE];
  }
}
