/** The buffer recycler between the threads that log and the thread that writes
    (prj/src/log/Queue.h, with FixBuffer of Type.h).  Every method of Queue is one stretch under
    the mutex: up to a wait, or from a wake-up on.  A pack has one owner at any time (a pointer
    container, or the writer), so the queue holds packs by value; what a pack does in memory is
    the class FixBuffer.
 */
module LogQueue {
  import opened Sequences

  const PACK_SIZE: nat := 8192

  /** FixBuffer::capacity: the last place is for the terminator. */
  const CAPACITY: nat := PACK_SIZE - 1

  type Text = seq<char>

  datatype Pack = Pack(bytes: Text) {
    ghost predicate Valid() { |bytes| <= CAPACITY }

    function Avail(): int { CAPACITY - |bytes| }

    predicate IsFull() { Avail() == 0 }

    /** What of a text fits. */
    function Fitting(text: Text): Text {
      if Avail() >= |text| then text else if Avail() >= 0 then text[..Avail()] else []
    }

    /** What does not fit is dropped. */
    function Append(text: Text): Pack {
      Pack(bytes + Fitting(text))
    }
  }

  class FixBuffer {
    const data: array<char>
    var size: nat

    ghost predicate Valid()
      reads this
    {
      data.Length == PACK_SIZE && size <= CAPACITY
    }

    ghost function View(): Pack
      requires Valid()
      reads this, data
    {
      Pack(data[..size])
    }

    constructor ()
      ensures Valid() && View() == Pack([]) && fresh(data)
    {
      data := new char[PACK_SIZE];
      new;
      Clear();
    }

    method Append(text: Text) returns (n: nat)
      requires Valid()
      modifies this, data
      ensures Valid() && View() == old(View()).Append(text)
      ensures n == |View().bytes| - |old(View()).bytes|
    {
      var avail := CAPACITY - size;
      n := if avail > |text| then |text| else avail;
      ghost var before := View().bytes;
      if n > 0 {
        var i := 0;
        while i < n
          invariant 0 <= i <= n && data[..size] == before && data[size..size + i] == text[..i]
          modifies data
        {
          data[size + i] := text[i];
          i := i + 1;
        }
        size := size + n;
        data[size] := '\0';
      }
    }

    method Clear()
      requires data.Length == PACK_SIZE
      modifies this, data
      ensures Valid() && View() == Pack([])
    {
      size := 0;
      data[size] := '\0';
    }
  }

  // Texts, and the bytes they make up.

  function Join(texts: seq<Text>): Text {
    if texts == [] then [] else Join(texts[..|texts| - 1]) + texts[|texts| - 1]
  }

  lemma JoinPush(texts: seq<Text>, t: Text)
    ensures Join(texts + [t]) == Join(texts) + t
  {
    assert (texts + [t])[..|texts|] == texts;
  }

  lemma {:induction false} JoinAppend(a: seq<Text>, b: seq<Text>)
    ensures Join(a + b) == Join(a) + Join(b)
  {
    if b == [] {
      assert a + b == a;
    } else {
      var b1, t := b[..|b| - 1], b[|b| - 1];
      JoinAppend(a, b1);
      assert a + b == (a + b1) + [t];
      JoinPush(a + b1, t);
    }
  }

  function Flat(packs: seq<seq<Text>>): seq<Text> {
    if packs == [] then [] else Flat(packs[..|packs| - 1]) + packs[|packs| - 1]
  }

  lemma FlatPush(packs: seq<seq<Text>>, texts: seq<Text>)
    ensures Flat(packs + [texts]) == Flat(packs) + texts
  {
    assert (packs + [texts])[..|packs|] == packs;
  }

  lemma {:induction false} FlatPop(packs: seq<seq<Text>>)
    requires packs != []
    ensures Flat(packs) == packs[0] + Flat(packs[1..])
  {
    var last := packs[|packs| - 1];
    if |packs| == 1 {
      assert Flat(packs[..0]) == [];
    } else {
      var init := packs[..|packs| - 1];
      FlatPop(init);
      assert packs[1..] == init[1..] + [last];
      FlatPush(init[1..], last);
      Regroup(packs[0], Flat(init[1..]), last);
    }
  }

  /** Of each text the first bytes are kept. */
  ghost predicate CutFrom(kept: seq<Text>, posted: seq<Text>) {
    |kept| == |posted| && forall i :: 0 <= i < |kept| ==> CutAt(kept, posted, i)
  }

  ghost predicate CutAt(kept: seq<Text>, posted: seq<Text>, i: nat)
    requires i < |kept| == |posted|
  {
    kept[i] <= posted[i]
  }

  lemma CutPush(kept: seq<Text>, posted: seq<Text>, text: Text, fits: Text)
    requires CutFrom(kept, posted) && fits <= text
    ensures CutFrom(kept + [fits], posted + [text])
  {
    forall i | 0 <= i < |kept| + 1
      ensures CutAt(kept + [fits], posted + [text], i)
    {
      assert i < |kept| ==> CutAt(kept, posted, i);
    }
  }

  ghost predicate FitsPack(text: Text) { |text| <= CAPACITY }

  ghost predicate Holds(p: Pack, texts: seq<Text>) {
    p.Valid() && p.bytes == Join(texts)
  }

  ghost predicate HoldsAt(packs: seq<Pack>, texts: seq<seq<Text>>, i: nat)
    requires i < |packs| == |texts|
  {
    Holds(packs[i], texts[i])
  }

  ghost predicate EmptyAt(avail: seq<Pack>, i: nat)
    requires i < |avail|
  {
    avail[i] == Pack([])
  }

  /** Each pack to be logged holds whole texts, in order; of the packs available only the last is
      being filled. */
  ghost predicate PacksOk(avail: seq<Pack>, logging: seq<Pack>, held: Option<Pack>,
                          handed: seq<seq<Text>>, queued: seq<seq<Text>>, current: seq<Text>) {
    && |queued| == |logging|
    && (forall i :: 0 <= i < |logging| ==> HoldsAt(logging, queued, i))
    && (forall i :: 0 <= i < |avail| - 1 ==> EmptyAt(avail, i))
    && (if avail == [] then current == [] else Holds(avail[|avail| - 1], current))
    && (held.Some? ==> handed != [] && Holds(held.value, handed[|handed| - 1]))
  }

  ghost predicate InOrder(kept: seq<Text>, handed: seq<seq<Text>>, queued: seq<seq<Text>>, current: seq<Text>) {
    kept == Flat(handed) + Flat(queued) + current
  }

  /** The packs available and the packs to be logged. */
  datatype Packs = Packs(avail: seq<Pack>, logging: seq<Pack>) {
    /** With room for n bytes in the pack being filled, if there is one. */
    function WithRoom(n: nat): Packs {
      if avail != [] && avail[|avail| - 1].Avail() < n then
        Packs(avail[..|avail| - 1], logging + [avail[|avail| - 1]])
      else this
    }

    /** With a text added to the pack being filled, or to a new one. */
    function With(text: Text): Packs {
      var filled := Back().Append(text);
      var others := if avail == [] then [] else avail[..|avail| - 1];
      if filled.IsFull() && filled.bytes != [] then Packs(others, logging + [filled]) else Packs(others + [filled], logging)
    }

    /** The pack being filled, or a new one. */
    function Back(): Pack {
      if avail == [] then Pack([]) else avail[|avail| - 1]
    }
  }

  /** While a text fits, it joins the pack being filled, and no other pack is begun. */
  lemma FillsFirst(p: Packs, text: Text)
    requires p.avail != []
    ensures var last := |p.avail| - 1;
      p.Back().Avail() > |text| ==>
        p.WithRoom(|text|).With(text) == Packs(p.avail[..last] + [Pack(p.Back().bytes + text)], p.logging)
  {
  }

  // The steps, on values.

  lemma PacksMoved(avail: seq<Pack>, logging: seq<Pack>, held: Option<Pack>,
                   handed: seq<seq<Text>>, queued: seq<seq<Text>>, current: seq<Text>)
    requires PacksOk(avail, logging, held, handed, queued, current) && avail != []
    ensures var n := |avail| - 1; PacksOk(avail[..n], logging + [avail[n]], held, handed, queued + [current], [])
  {
    var n := |avail| - 1;
    forall i | 0 <= i < |logging| + 1
      ensures HoldsAt(logging + [avail[n]], queued + [current], i)
    {
      assert i < |logging| ==> HoldsAt(logging, queued, i);
    }
    forall i | 0 <= i < n
      ensures EmptyAt(avail[..n], i)
    {
      assert EmptyAt(avail, i);
    }
    assert Join([]) == [];
    assert n > 0 ==> EmptyAt(avail, n - 1);
  }

  lemma PacksFilled(avail: seq<Pack>, logging: seq<Pack>, held: Option<Pack>,
                    handed: seq<seq<Text>>, queued: seq<seq<Text>>, current: seq<Text>, text: Text, fits: Text)
    requires PacksOk(avail, logging, held, handed, queued, current) && avail != []
    requires fits == avail[|avail| - 1].Fitting(text)
    ensures var n := |avail| - 1;
      PacksOk(avail[n := avail[n].Append(text)], logging, held, handed, queued, current + [fits])
  {
    var n := |avail| - 1;
    var filled := avail[n := avail[n].Append(text)];
    JoinPush(current, fits);
    forall i | 0 <= i < n
      ensures EmptyAt(filled, i)
    {
      assert EmptyAt(avail, i);
    }
  }

  lemma PacksTaken(avail: seq<Pack>, logging: seq<Pack>,
                   handed: seq<seq<Text>>, queued: seq<seq<Text>>, current: seq<Text>)
    requires PacksOk(avail, logging, None, handed, queued, current) && logging != []
    ensures PacksOk(avail, logging[1..], Some(logging[0]), handed + [queued[0]], queued[1..], current)
    ensures logging[0].bytes == Join(queued[0])
  {
    assert HoldsAt(logging, queued, 0);
    forall i | 0 <= i < |logging| - 1
      ensures HoldsAt(logging[1..], queued[1..], i)
    {
      assert HoldsAt(logging, queued, i + 1);
    }
  }

  lemma PacksRecycled(avail: seq<Pack>, logging: seq<Pack>, held: Option<Pack>,
                      handed: seq<seq<Text>>, queued: seq<seq<Text>>, current: seq<Text>)
    requires PacksOk(avail, logging, held, handed, queued, current) && avail != []
    ensures var n := |avail| - 1;
      PacksOk(avail[..n] + [Pack([]), avail[n]], logging, None, handed, queued, current)
  {
    var n := |avail| - 1;
    forall i | 0 <= i < n + 1
      ensures EmptyAt(avail[..n] + [Pack([]), avail[n]], i)
    {
      assert i < n ==> EmptyAt(avail, i);
    }
  }

  lemma OrderMoved(kept: seq<Text>, handed: seq<seq<Text>>, queued: seq<seq<Text>>, current: seq<Text>)
    requires InOrder(kept, handed, queued, current)
    ensures InOrder(kept, handed, queued + [current], [])
  {
    FlatPush(queued, current);
    Regroup(Flat(handed), Flat(queued), current);
    assert Flat(handed) + Flat(queued + [current]) + [] == Flat(handed) + Flat(queued + [current]);
  }

  lemma OrderFilled(kept: seq<Text>, handed: seq<seq<Text>>, queued: seq<seq<Text>>, current: seq<Text>, fits: Text)
    requires InOrder(kept, handed, queued, current)
    ensures InOrder(kept + [fits], handed, queued, current + [fits])
  {
    Regroup(Flat(handed) + Flat(queued), current, [fits]);
  }

  lemma OrderTaken(kept: seq<Text>, handed: seq<seq<Text>>, queued: seq<seq<Text>>, current: seq<Text>)
    requires InOrder(kept, handed, queued, current) && queued != []
    ensures InOrder(kept, handed + [queued[0]], queued[1..], current)
  {
    FlatPop(queued);
    FlatPush(handed, queued[0]);
    Regroup(Flat(handed), queued[0], Flat(queued[1..]));
  }

  datatype Posting = TooLarge | Waiting | Done

  datatype Popping = Closed | Asleep | Got(pack: Pack)

  class Queue {
    var avail: seq<Pack>
    var logging: seq<Pack>
    var size: nat
    var closed: bool
    const capacity: nat

    // The texts posted, and what of each is kept; those kept in each pack handed to the writer, in
    // each pack to be logged, and in the pack being filled.
    ghost var posted: seq<Text>
    ghost var kept: seq<Text>
    ghost var handed: seq<seq<Text>>
    ghost var queued: seq<seq<Text>>
    ghost var current: seq<Text>

    ghost var held: Option<Pack>        // the pack the writer is working on
    ghost var pending: seq<Text>        // the texts of the producers that wait
    ghost const single: bool            // whether there is only one producer

    ghost predicate Valid()
      reads this
    {
      && PacksOk(avail, logging, held, handed, queued, current)
      && InOrder(kept, handed, queued, current)
      && CutFrom(kept, posted)
      && size == CAPACITY * (|avail| + |logging| + if held.Some? then 1 else 0)
      && size <= capacity
      && (forall i :: 0 <= i < |pending| ==> FitsPack(pending[i]))
      && (single ==> kept == posted && |pending| <= 1 && (pending != [] ==> current == []))
    }

    constructor (capacity: nat, ghost single: bool)
      ensures Valid() && this.capacity == capacity && this.single == single && !closed
      ensures posted == kept == [] && handed == [] && avail == logging == [] && size == 0
      ensures pending == [] && held == None
    {
      this.capacity, this.single := capacity, single;
      avail, logging, size, closed := [], [], 0, false;
      posted, kept, handed, queued, current := [], [], [], [], [];
      held, pending := None, [];
    }

    method MoveAvail()
      requires Valid()
      modifies this`avail, this`logging, this`queued, this`current
      ensures Valid()
      ensures if old(avail) != [] && old(avail[|avail| - 1]).bytes != []
        then avail == old(avail)[..|old(avail)| - 1] && current == []
          && logging == old(logging) + [old(avail[|avail| - 1])] && queued == old(queued) + [old(current)]
        else avail == old(avail) && logging == old(logging) && queued == old(queued) && current == old(current)
    {
      if avail != [] && |avail[|avail| - 1].bytes| > 0 {
        PacksMoved(avail, logging, held, handed, queued, current);
        OrderMoved(kept, handed, queued, current);
        var last := |avail| - 1;
        logging, avail := logging + [avail[last]], avail[..last];
        queued, current := queued + [current], [];
      }
    }

    /** get_vail: whether there is a pack to fill. */
    method GetAvail() returns (some: bool)
      requires Valid()
      modifies this`avail, this`size
      ensures Valid()
      ensures some <==> old(avail) != [] || old(size) + CAPACITY <= capacity
      ensures some ==> avail == if old(avail) == [] then [Pack([])] else old(avail)
      ensures !some ==> avail == old(avail) && size == old(size)
    {
      if avail != [] {
        return true;
      }
      if size + CAPACITY > capacity {
        return false;
      }
      avail := avail + [Pack([])];
      size := size + CAPACITY;
      return true;
    }

    /** The last part of post: fill, and pass on what is full. */
    method Fill(text: Text)
      requires Valid() && avail != []
      requires single ==> pending == [] && avail[|avail| - 1].Avail() >= |text|
      modifies this`avail, this`logging, this`queued, this`current, this`posted, this`kept
      ensures Valid() && posted == old(posted) + [text]
      ensures kept == old(kept) + [old(avail[|avail| - 1]).Fitting(text)]
      ensures Packs(avail, logging) == Packs(old(avail), old(logging)).With(text)
    {
      var last := |avail| - 1;
      ghost var fits := avail[last].Fitting(text);
      PacksFilled(avail, logging, held, handed, queued, current, text, fits);
      OrderFilled(kept, handed, queued, current, fits);
      CutPush(kept, posted, text, fits);
      avail := avail[last := avail[last].Append(text)];
      current := current + [fits];
      posted, kept := posted + [text], kept + [fits];
      if avail[last].IsFull() {
        MoveAvail();
      }
    }

    /** The first part of post: pass on a pack the text does not fit into. */
    method MakeRoom(n: nat)
      requires Valid() && n <= CAPACITY
      modifies this`avail, this`logging, this`queued, this`current
      ensures Valid() && (avail == [] || avail[|avail| - 1].Avail() >= n)
      ensures Packs(avail, logging) == Packs(old(avail), old(logging)).WithRoom(n)
      ensures avail == [] ==> current == []
    {
      if avail != [] && avail[|avail| - 1].Avail() < n {
        MoveAvail();
      }
    }

    /** post, up to its wait if it has to wait. */
    method Post(text: Text) returns (r: Posting)
      requires Valid() && (single ==> pending == [])
      modifies this`avail, this`logging, this`queued, this`current, this`size, this`posted, this`kept, this`pending
      ensures Valid() && (r == TooLarge <==> |text| > CAPACITY)
      ensures posted == if r == Done then old(posted) + [text] else old(posted)
      ensures kept == if r == Done then old(kept) + [text] else old(kept)
      ensures pending == if r == Waiting then old(pending) + [text] else old(pending)
      ensures var before := Packs(old(avail), old(logging)); var room := before.WithRoom(|text|);
        && (r == Waiting <==> |text| <= CAPACITY && room.avail == [] && old(size) + CAPACITY > capacity)
        && match r
          case TooLarge => Packs(avail, logging) == before
          case Waiting => Packs(avail, logging) == room
          case Done => Packs(avail, logging) == room.With(text)
    {
      if |text| > CAPACITY {
        return TooLarge;
      }
      MakeRoom(|text|);
      r := Place(text);
    }

    /** The rest of post: take a pack and fill it, or wait. */
    method Place(text: Text) returns (r: Posting)
      requires Valid() && |text| <= CAPACITY && (single ==> pending == [])
      requires avail == [] || avail[|avail| - 1].Avail() >= |text|
      requires avail == [] ==> current == []
      modifies this`avail, this`logging, this`queued, this`current, this`size, this`posted, this`kept, this`pending
      ensures Valid() && r != TooLarge
      ensures posted == if r == Done then old(posted) + [text] else old(posted)
      ensures kept == if r == Done then old(kept) + [text] else old(kept)
      ensures pending == if r == Waiting then old(pending) + [text] else old(pending)
      ensures r == Waiting <==> old(avail) == [] && old(size) + CAPACITY > capacity
      ensures match r
        case Done => Packs(avail, logging) == Packs(old(avail), old(logging)).With(text)
        case _ => avail == old(avail) && logging == old(logging)
    {
      var some := GetAvail();
      if !some {
        pending := pending + [text];
        return Waiting;
      }
      Fill(text);
      return Done;
    }

    /** post, from a wake-up of a producer on.  The room is not looked at again: of the text, what
        fits is kept.  That is all of it if no other producer was served in between. */
    method ResumePost(text: Text, ghost k: nat) returns (r: Posting)
      requires Valid() && k < |pending| && pending[k] == text
      modifies this`avail, this`logging, this`queued, this`current, this`size, this`posted, this`kept, this`pending
      ensures Valid() && r != TooLarge
      ensures posted == if r == Done then old(posted) + [text] else old(posted)
      ensures pending == if r == Waiting then old(pending) else old(pending)[..k] + old(pending)[k + 1..]
      ensures r == Waiting <==> old(avail) == [] && old(size) + CAPACITY > capacity
      ensures r == Waiting ==> kept == old(kept) && avail == []
      ensures r == Done ==>
        var packs := Packs(old(avail), old(logging));
        && Packs(avail, logging) == packs.With(text)
        && kept == old(kept) + [packs.Back().Fitting(text)]
        && (packs.Back().Fitting(text) == text <==> packs.Back().Avail() >= |text|)
    {
      var some := GetAvail();
      if !some {
        return Waiting;
      }
      assert FitsPack(pending[k]);
      pending := pending[..k] + pending[k + 1..];
      assert Holds(avail[|avail| - 1], current);
      Fill(text);
      return Done;
    }

    /** recycle_avail: an emptied pack goes in front of the one being filled. */
    method Recycle()
      requires Valid() && held.Some?
      modifies this`avail, this`held
      ensures Valid() && held == None
      ensures avail == if old(avail) == [] then [Pack([])] else
        old(avail)[..|old(avail)| - 1] + [Pack([]), old(avail)[|old(avail)| - 1]]
    {
      if avail == [] {
        avail := [Pack([])];
      } else {
        PacksRecycled(avail, logging, held, handed, queued, current);
        var last := |avail| - 1;
        avail := avail[..last] + [Pack([]), avail[last]];
      }
      held := None;
    }

    /** One round of the loop in pop. */
    method TryPop() returns (r: Popping)
      requires Valid() && held == None
      modifies this`logging, this`queued, this`handed, this`held
      ensures Valid() && posted == old(posted)
      ensures r.Got? <==> old(logging) != []
      ensures r.Got? ==> held == Some(r.pack) && handed == old(handed) + [old(queued[0])] && r.pack.bytes == Join(old(queued[0]))
      ensures r.Got? ==> logging == old(logging)[1..]
      ensures !r.Got? ==> (r == Closed <==> closed)
      ensures !r.Got? ==> held == None && handed == old(handed) && logging == old(logging)
    {
      if logging == [] {
        return if closed then Closed else Asleep;
      }
      PacksTaken(avail, logging, handed, queued, current);
      OrderTaken(kept, handed, queued, current);
      r := Got(logging[0]);
      held := Some(logging[0]);
      logging := logging[1..];
      handed, queued := handed + [queued[0]], queued[1..];
    }

    /** pop, up to its wait if it has to wait; the writer brings back the pack it had. */
    method Pop(pack: Option<Pack>) returns (r: Popping)
      requires Valid() && pack == held
      modifies this`avail, this`logging, this`queued, this`handed, this`held
      ensures Valid() && posted == old(posted)
      ensures r.Got? <==> old(logging) != []
      ensures r.Got? ==> held == Some(r.pack) && handed == old(handed) + [old(queued[0])] && r.pack.bytes == Join(old(queued[0]))
      ensures !r.Got? ==> held == None && handed == old(handed) && logging == []
      ensures |avail| == |old(avail)| + if pack.Some? then 1 else 0
      ensures pack.Some? && old(avail) == [] ==> avail == [Pack([])]
      ensures r.Got? ==> logging == old(logging)[1..]
      ensures !r.Got? ==> (r == Closed <==> closed)
    {
      if pack.Some? {
        Recycle();
      }
      r := TryPop();
    }

    /** pop, from the end of a timed wait on. */
    method ResumePop(notified: bool) returns (r: Popping)
      requires Valid() && held == None
      modifies this`avail, this`logging, this`queued, this`current, this`handed, this`held
      ensures Valid() && posted == old(posted)
      ensures r.Got? <==> old(logging) != [] || (!notified && old(avail) != [] && old(avail[|avail| - 1]).bytes != [])
      ensures r.Got? ==> held == Some(r.pack) && |handed| == |old(handed)| + 1 && r.pack.bytes == Join(handed[|old(handed)|])
      ensures r.Got? ==> handed[..|old(handed)|] == old(handed)
      ensures !r.Got? ==> held == None && handed == old(handed) && logging == []
      ensures !r.Got? && !notified ==> avail == [] || avail[|avail| - 1].bytes == []
      ensures !r.Got? ==> (r == Closed <==> closed)
    {
      if !notified {
        MoveAvail();
      }
      r := TryPop();
    }

    method Close()
      requires Valid()
      modifies this`closed
      ensures Valid() && closed
    {
      closed := true;
    }

    // What the queue is for.

    /** All packs to be logged, as one stretch of bytes. */
    ghost function Bytes(packs: seq<Pack>): Text {
      if packs == [] then [] else Bytes(packs[..|packs| - 1]) + packs[|packs| - 1].bytes
    }

    lemma {:induction false} BytesAreTexts(packs: seq<Pack>, texts: seq<seq<Text>>)
      requires |packs| == |texts| && forall i :: 0 <= i < |packs| ==> HoldsAt(packs, texts, i)
      ensures Bytes(packs) == Join(Flat(texts))
    {
      if packs != [] {
        var n := |packs| - 1;
        forall i | 0 <= i < n
          ensures HoldsAt(packs[..n], texts[..n], i)
        {
          assert HoldsAt(packs, texts, i);
        }
        assert HoldsAt(packs, texts, n);
        BytesAreTexts(packs[..n], texts[..n]);
        JoinAppend(Flat(texts[..n]), texts[n]);
      }
    }

    /** The stream of bytes: what was handed to the writer, the packs to be logged and the pack
        being filled make up exactly what is kept of the texts, in the order of posting; with one
        producer that is all that was posted. */
    lemma StreamPreserved()
      requires Valid()
      ensures Join(kept) == Join(Flat(handed)) + Bytes(logging) + Filling()
      ensures single ==> Join(posted) == Join(kept)
    {
      BytesAreTexts(logging, queued);
      JoinAppend(Flat(handed) + Flat(queued), current);
      JoinAppend(Flat(handed), Flat(queued));
    }

    /** The bytes in the pack being filled. */
    function Filling(): Text
      reads this
    {
      if avail == [] then [] else avail[|avail| - 1].bytes
    }

    /** When the writer is told that the queue is closed, what is missing from the log is the pack
        being filled: nothing is missing if and only if move_avail would not have moved it. */
    lemma MissingAtClose()
      requires Valid() && closed && logging == [] && held == None
      ensures Join(kept) == Join(Flat(handed)) + Filling()
      ensures Join(kept) == Join(Flat(handed)) <==> avail == [] || |avail[|avail| - 1].bytes| == 0
    {
      StreamPreserved();
      var h := Join(Flat(handed));
      assert h + [] == h;
      assert |h + Filling()| == |h| + |Filling()|;
    }
  }

  lemma FirstText(text: Text)
    requires |text| <= CAPACITY
    ensures var p := Packs([], []);
      p.WithRoom(|text|) == p && p.With(text) == if |text| == CAPACITY then Packs([], [Pack(text)]) else Packs([Pack(text)], [])
  {
    assert [] + text == text && [] + [Pack(text)] == [Pack(text)];
  }

  method PostFirst(text: Text, ghost single: bool) returns (queue: Queue)
    requires |text| <= CAPACITY
    ensures fresh(queue) && queue.Valid() && queue.single == single && queue.capacity == queue.size == CAPACITY
    ensures queue.posted == queue.kept == [text] && queue.handed == [] && queue.pending == [] && queue.held == None
    ensures Packs(queue.avail, queue.logging) == if |text| == CAPACITY then Packs([], [Pack(text)]) else Packs([Pack(text)], [])
  {
    queue := new Queue(CAPACITY, single);
    FirstText(text);
    var _ := queue.Post(text);
  }

  /** One text, shorter than a pack, posted before the close: the writer exits without it. */
  method LossAtClose(text: Text) returns (queue: Queue, r: Popping)
    requires 0 < |text| < CAPACITY
    ensures queue.posted == [text] && queue.handed == [] && r == Closed
  {
    queue := PostFirst(text, true);
    queue.Close();
    r := queue.Pop(None);
  }

  /** A producer that waits is served once the writer has brought a pack back: the one it works on,
      or the one it takes next. */
  method TurnComes(queue: Queue, pack: Option<Pack>, text: Text) returns (r: Posting)
    requires queue.Valid() && queue.held == pack && queue.pending != [] && queue.pending[0] == text && queue.capacity >= CAPACITY
    requires queue.avail == [] && queue.size + CAPACITY > queue.capacity
    modifies queue
    ensures queue.Valid() && r == Done && queue.posted == old(queue.posted) + [text]
  {
    var mine := pack;
    if mine == None {
      var taken := queue.Pop(None);
      mine := Some(taken.pack);
    }
    var _ := queue.Pop(mine);
    r := queue.ResumePost(text, 0);
  }

  method PostAndWait(queue: Queue, text: Text)
    requires queue.Valid() && !queue.single && queue.avail == [] && |text| <= CAPACITY
    requires queue.size + CAPACITY > queue.capacity
    modifies queue
    ensures queue.Valid() && queue.pending == old(queue.pending) + [text]
    ensures queue.avail == [] && queue.logging == old(queue.logging) && queue.size == old(queue.size)
    ensures queue.posted == old(queue.posted) && queue.kept == old(queue.kept) && queue.held == old(queue.held)
  {
    var _ := queue.Post(text);
  }

  /** The writer takes the one pack there is to be logged, and brings it back. */
  method TakeAndReturn(queue: Queue)
    requires queue.Valid() && queue.avail == [] && |queue.logging| == 1 && queue.held == None
    modifies queue
    ensures queue.Valid() && queue.avail == [Pack([])] && queue.logging == []
    ensures queue.posted == old(queue.posted) && queue.kept == old(queue.kept) && queue.pending == old(queue.pending)
  {
    var taken := queue.Pop(None);
    var _ := queue.Pop(Some(taken.pack));
  }

  method ServeFirst(queue: Queue, a: Text, b: Text)
    requires queue.Valid() && queue.avail == [Pack([])] && queue.logging == [] && queue.pending == [a, b] && |a| < CAPACITY
    modifies queue
    ensures queue.Valid() && queue.avail == [Pack(a)] && queue.pending == [b]
    ensures queue.posted == old(queue.posted) + [a] && queue.kept == old(queue.kept) + [a]
  {
    assert [] + a == a && [] + [Pack(a)] == [Pack(a)];
    var _ := queue.ResumePost(a, 0);
  }

  method ServeSecond(queue: Queue, a: Text, b: Text)
    requires queue.Valid() && queue.avail == [Pack(a)] && queue.pending == [b]
    requires |a| < CAPACITY && |b| <= CAPACITY && |a| + |b| > CAPACITY
    modifies queue
    ensures queue.posted == old(queue.posted) + [b] && queue.kept == old(queue.kept) + [b[..CAPACITY - |a|]]
  {
    var _ := queue.ResumePost(b, 0);
  }

  method BothWait(full: Text, a: Text, b: Text) returns (queue: Queue)
    requires |full| == CAPACITY && |a| <= CAPACITY && |b| <= CAPACITY
    ensures fresh(queue) && queue.Valid() && queue.held == None && queue.avail == [] && |queue.logging| == 1
    ensures queue.posted == queue.kept == [full] && queue.pending == [a, b]
  {
    queue := PostFirst(full, false);
    PostAndWait(queue, a);
    PostAndWait(queue, b);
    assert queue.pending == [] + [a] + [b] == [a, b];
  }

  /** With two producers a text can be cut: both wait for the one pack there is, and the second is
      served what room the first has left. */
  method SecondIsCut(full: Text, a: Text, b: Text) returns (queue: Queue)
    requires |full| == CAPACITY && |a| < CAPACITY && |b| <= CAPACITY && |a| + |b| > CAPACITY
    ensures queue.posted == [full, a, b] && queue.kept == [full, a, b[..CAPACITY - |a|]]
  {
    queue := BothWait(full, a, b);
    TakeAndReturn(queue);
    ServeFirst(queue, a, b);
    ServeSecond(queue, a, b);
  }
}
