/** The many-to-many graph of topics and subscribers, held in two intrusive lists
    (thread/topic/Subscription.h).  A subscription is a node of its topic's list and of its
    subscriber's list at once.  Each "prev" field holds the address of the pointer that
    points at the node, so erasing a node never asks where in the list it stands.
 */
module SubscriptionGraph {
  import opened TopicList

  /** The pointers a prev field can hold the address of. */
  datatype Cell =
    | NoCell
    | TopicHead(topic: Topic)
    | TopicNext(before: Subscription)
    | SubscriberHead(subscriber: Subscriber)
    | SubscriberNext(before: Subscription)
    | Local(variable: LocalPointer)

  /** A local variable of type "Subscription*" whose address is taken. */
  class LocalPointer {
    var node: Subscription?

    constructor (n: Subscription?)
      ensures node == n
    {
      node := n;
    }
  }

  class Subscription {
    var topic: Topic?
    var topicNext: Subscription?
    var topicPrev: Cell
    var subscriber: Subscriber?
    var subscriberNext: Subscription?
    var subscriberPrev: Cell
    var erasing: seq<LocalPointer>
    // The topic it was made for, and its place in the order in which nodes are made.
    ghost const home: Topic
    ghost const serial: nat

    constructor (t: Topic, s: Subscriber, ghost serial: nat)
      ensures topic == t && subscriber == s && home == t && this.serial == serial
      ensures topicNext == null && subscriberNext == null
      ensures topicPrev == NoCell && subscriberPrev == NoCell && erasing == []
    {
      topic, topicNext, topicPrev := t, null, NoCell;
      subscriber, subscriberNext, subscriberPrev := s, null, NoCell;
      erasing := [];
      home, this.serial := t, serial;
    }

    /** The node whose next pointer the prev field holds the address of. */
    ghost function Before(): Subscription?
      reads this
    {
      if topicPrev.TopicNext? then topicPrev.before else null
    }

    /** Hung on another node's next pointer, whatever has become of that node. */
    ghost predicate Hung()
      reads this, Before(), topicNext
    {
      && Before() != null && Before() != this && Before().topicNext == this
      && (topicNext != null ==> topicNext != this && topicNext.topicPrev == TopicNext(this))
    }

    /** What it is hung on now is joined to what is hung on it. */
    ghost predicate Bridged()
      reads this, Before(), topicNext
    {
      && Before() != null && Before().topicNext == topicNext
      && (topicNext != null ==> topicNext.topicPrev == topicPrev)
    }

    method EraseSubscriberTopic()
      requires subscriber != null && subscriber.Linked() && this in subscriber.list
      modifies subscriber, subscriber.list`subscriberNext, subscriber.list`subscriberPrev, this`topic
      ensures topic == null
      ensures subscriber.Linked()
      ensures subscriber.list == Without(old(subscriber.list), this)
    {
      ghost var k :| 0 <= k < |subscriber.list| && subscriber.list[k] == this;
      assert subscriber.LinkedAt(k);
      assert k > 0 ==> subscriber.LinkedAt(k - 1);
      assert k + 1 < |subscriber.list| ==> subscriber.LinkedAt(k + 1);
      match subscriberPrev {
        case SubscriberHead(owner) => owner.head := subscriberNext;
        case SubscriberNext(node) => node.subscriberNext := subscriberNext;
        case _ => assert false;
      }
      if subscriberNext != null {
        subscriberNext.subscriberPrev := subscriberPrev;
      }
      topic := null;
      subscriber.list := Without(subscriber.list, this);
      subscriber.LinkedAfterErase(k);
    }

    /** The topic is passed in: erase_subscriber_topic has already cleared the topic field.  A node
        that is not on its list leaves the pointers it is hung between, and nothing else. */
    method EraseTopicSubscriber(ghost t: Topic)
      requires topic == null
      requires if this in t.list then
          Distinct(t.list) && t.First() == At(t.list, 0) && forall i :: 0 <= i < |t.list| ==> t.LinkedAt(i, this)
        else Hung()
      modifies t, t.cursor, this`subscriber, Some(Before())`topicNext, Some(topicNext)`topicPrev
      ensures subscriber == null && t.tail == old(t.tail) && t.cursor == old(t.cursor)
      ensures this in old(t.list) ==> t.Linked() && t.list == Without(old(t.list), this)
      ensures this in old(t.list) && t.cursor != null ==> t.head == old(t.head)
      ensures this !in old(t.list) ==> unchanged(t) && (t.cursor != null ==> unchanged(t.cursor)) && Bridged()
    {
      ghost var listed := this in t.list;
      ghost var k := 0;
      if listed {
        k :| 0 <= k < |t.list| && t.list[k] == this;
        assert t.LinkedAt(k, this);
        assert k > 0 ==> t.LinkedAt(k - 1, this);
        assert k + 1 < |t.list| ==> t.LinkedAt(k + 1, this);
      }
      match topicPrev {
        case TopicHead(owner) => owner.head := topicNext;
        case TopicNext(node) => node.topicNext := topicNext;
        case Local(variable) => variable.node := topicNext;
        case _ => assert false;
      }
      if topicNext != null {
        topicNext.topicPrev := topicPrev;
      }
      subscriber := null;
      if listed {
        t.list := Without(t.list, this);
        t.LinkedAfterErase(k);
      }
    }

    method NullErasing()
      modifies erasing
      ensures forall v :: v in erasing ==> v.node == null
    {
      for i := 0 to |erasing|
        invariant forall j :: 0 <= j < i ==> erasing[j].node == null
      {
        erasing[i].node := null;
      }
    }

    /** Null every local pointer registered on this node, then unlink it from both lists. */
    method Unlink()
      requires subscriber != null && subscriber.Linked() && this in subscriber.list
      requires topic != null && if this in topic.list then topic.Linked() else Hung()
      requires topic.cursor !in erasing
      modifies erasing, topic, topic.cursor, subscriber, this`topic, this`subscriber
      modifies Some(Before())`topicNext, Some(topicNext)`topicPrev
      modifies subscriber.list`subscriberNext, subscriber.list`subscriberPrev
      ensures Gone(this)
      ensures old(topic).tail == old(topic.tail) && old(topic).cursor == old(topic.cursor)
      ensures this in old(topic.list) ==> old(topic).Linked() && old(topic).list == Without(old(topic.list), this)
      ensures this in old(topic.list) && old(topic.cursor) != null ==> old(topic).head == old(topic.head)
      ensures this !in old(topic.list) ==>
        unchanged(old(topic)) && (old(topic.cursor) != null ==> unchanged(old(topic.cursor))) && Bridged()
      ensures old(subscriber).Linked() && old(subscriber).list == Without(old(subscriber.list), this)
    {
      NullErasing();
      ghost var t, s := topic, subscriber;
      WithoutIn(s.list, this);
      EraseSubscriberTopic();
      forall i | this in t.list && 0 <= i < |t.list|
        ensures t.LinkedAt(i, this)
      {
        assert old(t.LinkedAt(i, null));
      }
      label erased:
      assert s.Linked() && this !in s.list;
      EraseTopicSubscriber(t);
      s.LinkedFrame@erased();
    }

    method Unsubscribe(ghost g: Graph)
      requires g.Valid() && this in g.nodes && topic != null && g.cursor !in erasing
      modifies erasing, topic, topic.cursor, subscriber, this`topic, this`subscriber
      modifies Some(Before())`topicNext, Some(topicNext)`topicPrev
      modifies subscriber.list`subscriberNext, subscriber.list`subscriberPrev
      ensures g.Valid() && Gone(this)
      ensures old(topic).list == Without(old(topic.list), this)
      ensures old(subscriber).list == Without(old(subscriber.list), this)
      ensures old(topic).tail == old(topic.tail) && old(topic).cursor == old(topic.cursor)
      ensures old(topic.cursor) != null ==> old(topic).head == old(topic.head)
    {
      Leavable(g);
      UnlinkIn(g);
      g.ValidAfterLeaving(this);
    }

    /** Where it is linked, in terms of the two lists. */
    ghost predicate CanLeave(g: Graph)
      reads *
    {
      && this in g.nodes && topic != null && subscriber != null
      && subscriber.Linked() && this in subscriber.list && (forall n :: n in subscriber.list ==> n in g.nodes)
      && (if this in topic.list then topic.Linked() else Hung())
      && (Before() != null ==> Before() in g.nodes && Before() != this)
      && (topicNext != null ==> topicNext in g.nodes && topicNext != this)
    }

    lemma Leavable(g: Graph)
      requires g.Valid() && this in g.nodes && topic != null
      ensures CanLeave(g) && topic in g.topics && subscriber in g.subscribers
      ensures topic.cursor == null || topic.cursor == g.cursor
    {
      assert g.Placed(this) && g.TopicOk(topic) && g.SubscriberOk(subscriber);
      g.Neighbours(this);
    }

    method UnlinkIn(ghost g: Graph)
      requires CanLeave(g) && topic.cursor !in erasing
      requires g.cursor !in erasing
      modifies erasing, topic, topic.cursor, subscriber, this`topic, this`subscriber
      modifies Some(Before())`topicNext, Some(topicNext)`topicPrev
      modifies subscriber.list`subscriberNext, subscriber.list`subscriberPrev
      ensures Gone(this) && g.Leaves(this)
      ensures old(topic.cursor) != null && this in old(topic.list) ==> old(topic).head == old(topic.head)
    {
      Unlink();
    }

    method AddTopicSubscriber(t: Topic, ghost nodes: set<Subscription>)
      requires t.Linked() && t.cursor == null && this !in t.list
      requires topic == t && topicNext == null
      requires t.list != [] ==>
        t.tail != null && t.tail in nodes && (t.tail in t.list ==> t.tail == t.list[|t.list| - 1])
      requires t.tail != this
      modifies t, this`topicPrev
      modifies nodes`topicNext
      ensures t.Linked() && t.cursor == null && t.tail == this && topicNext == null
      ensures topicPrev == if old(t.list) == [] then TopicHead(t) else TopicNext(old(t.tail))
      ensures old(t.list) != [] ==> old(t.tail).topicNext == this
      ensures forall n :: n in nodes && (old(t.list) == [] || n != old(t.tail)) ==> n.topicNext == old(n.topicNext)
      ensures t.list == if old(t.TailCurrent()) then old(t.list) + [this] else old(t.list)
    {
      if t.head == null {
        t.head := this;
        topicPrev := TopicHead(t);
      } else {
        t.tail.topicNext := this;
        topicPrev := TopicNext(t.tail);
      }
      ghost var current := t.TailCurrent();
      t.tail := this;
      if current {
        t.list := t.list + [this];
      }
      forall i | 0 <= i < |t.list|
        ensures t.LinkedAt(i, null)
      {
        if i < |old(t.list)| {
          assert old(t.LinkedAt(i, null));
          assert t.list[i] in old(t.list);
        }
        if i + 1 < |old(t.list)| && current {
          assert Differ(old(t.list), i, |old(t.list)| - 1);
        }
      }
      forall i, j | 0 <= i < j < |t.list|
        ensures Differ(t.list, i, j)
      {
        if j < |old(t.list)| {
          assert Differ(old(t.list), i, j);
        } else {
          assert t.list[i] in old(t.list);
        }
      }
    }

    method AddSubscriberTopic(s: Subscriber)
      requires s.Linked() && this !in s.list && subscriber == s
      modifies s, this`subscriberNext, this`subscriberPrev
      modifies s.list`subscriberPrev
      ensures s.Linked() && s.list == [this] + old(s.list)
    {
      if s.head != null {
        s.head.subscriberPrev := SubscriberNext(this);
      }
      subscriberNext := s.head;
      subscriberPrev := SubscriberHead(s);
      s.head := this;
      s.list := [this] + s.list;
      forall i | 0 <= i < |s.list|
        ensures s.LinkedAt(i)
      {
        if i > 0 {
          assert old(s.LinkedAt(i - 1));
          assert s.list[i] in old(s.list);
          assert i > 1 ==> Differ(old(s.list), 0, i - 1);
        }
      }
      forall i, j | 0 <= i < j < |s.list|
        ensures Differ(s.list, i, j)
      {
        if i > 0 {
          assert Differ(old(s.list), i - 1, j - 1);
        } else {
          assert s.list[j] in old(s.list);
        }
      }
    }

    method ReserveSubscribe(t: Topic, s: Subscriber, ghost nodes: set<Subscription>)
      requires topic == t && subscriber == s && topicNext == null
      requires t.Linked() && t.cursor == null && this !in t.list && t.tail != this
      requires t.list != [] ==>
        t.tail != null && t.tail in nodes && (t.tail in t.list ==> t.tail == t.list[|t.list| - 1])
      requires s.Linked() && this !in s.list
      modifies t, s, this`topicPrev, this`subscriberNext, this`subscriberPrev
      modifies nodes`topicNext
      modifies s.list`subscriberPrev
      ensures t.Linked() && t.cursor == null && t.tail == this
      ensures topicPrev == if old(t.list) == [] then TopicHead(t) else TopicNext(old(t.tail))
      ensures old(t.list) != [] ==> old(t.tail).topicNext == this
      ensures forall n :: n in nodes && (old(t.list) == [] || n != old(t.tail)) ==> n.topicNext == old(n.topicNext)
      ensures t.list == if old(t.TailCurrent()) then old(t.list) + [this] else old(t.list)
      ensures s.Linked() && s.list == [this] + old(s.list)
      ensures topic == t && subscriber == s && erasing == old(erasing)
    {
      AddTopicSubscriber(t, nodes);
      label added:
      s.LinkedFrame();
      AddSubscriberTopic(s);
      t.LinkedFrame@added();
    }
  }

  ghost predicate WatchedBy(n: Subscription, watchers: set<LocalPointer>)
    reads n
  {
    forall v :: v in n.erasing ==> v in watchers
  }

  /** n has left both lists, and every local pointer registered on it has been nulled. */
  ghost predicate Gone(n: Subscription)
    reads n, n.erasing
  {
    n.topic == null && n.subscriber == null && forall v :: v in n.erasing ==> v.node == null
  }

  ghost function Some(n: Subscription?): set<Subscription> {
    if n == null then {} else {n}
  }

  function At(list: seq<Subscription>, i: int): Subscription? {
    if 0 <= i < |list| then list[i] else null
  }

  function Without(list: seq<Subscription>, n: Subscription): (r: seq<Subscription>)
  {
    if list == [] then []
    else if list[0] == n then list[1..]
    else [list[0]] + Without(list[1..], n)
  }

  ghost predicate Differ(list: seq<Subscription>, i: nat, j: nat)
    requires i < j < |list|
  {
    list[i] != list[j]
  }

  ghost predicate Distinct(list: seq<Subscription>) {
    forall i, j :: 0 <= i < j < |list| ==> Differ(list, i, j)
  }

  lemma {:induction false} WithoutAt(list: seq<Subscription>, k: nat)
    requires k < |list| && Distinct(list)
    ensures Without(list, list[k]) == list[..k] + list[k + 1..]
    ensures Distinct(Without(list, list[k]))
  {
    if k > 0 {
      assert list[1..][k - 1] == list[k];
      assert Differ(list, 0, k);
      forall i, j | 0 <= i < j < |list[1..]| 
        ensures Differ(list[1..], i, j)
      {
        assert Differ(list, i + 1, j + 1);
      }
      WithoutAt(list[1..], k - 1);
      assert list[1..][..k - 1] == list[1..k];
    }
    var r := list[..k] + list[k + 1..];
    forall i, j | 0 <= i < j < |r|
      ensures Differ(r, i, j)
    {
      assert Differ(list, if i < k then i else i + 1, if j < k then j else j + 1);
    }
  }

  lemma WithoutNeighbours(list: seq<Subscription>, k: nat, i: nat)
    requires k < |list| && Distinct(list) && i + 1 < |list|
    ensures var rest, j := Without(list, list[k]), if i < k then i else i + 1;
      && |rest| == |list| - 1 && rest[i] == list[j] && rest[i] in list
      && (i > 0 ==> rest[i - 1] == list[if i - 1 < k then i - 1 else i])
      && At(rest, i + 1) == At(list, if i + 1 < k then i + 1 else i + 2)
  {
    WithoutAt(list, k);
  }

  /** The list without the nodes in "gone", in the same order. */
  function Drop(list: seq<Subscription>, gone: seq<Subscription>): seq<Subscription> {
    if list == [] then []
    else (if list[0] in gone then [] else [list[0]]) + Drop(list[1..], gone)
  }

  lemma {:induction false} DropNone(list: seq<Subscription>)
    ensures Drop(list, []) == list
  {
    if list != [] {
      DropNone(list[1..]);
    }
  }

  lemma {:induction false} DropOneMore(list: seq<Subscription>, gone: seq<Subscription>, n: Subscription)
    requires Distinct(list)
    ensures Drop(list, gone + [n]) == Without(Drop(list, gone), n)
  {
    if list != [] {
      forall i, j | 0 <= i < j < |list[1..]|
        ensures Differ(list[1..], i, j)
      {
        assert Differ(list, i + 1, j + 1);
      }
      DropOneMore(list[1..], gone, n);
      var rest := Drop(list[1..], gone);
      assert ([list[0]] + rest)[1..] == rest && [] + rest == rest;
      if list[0] == n {
        OthersDiffer(list, 0);
        DropIn(list[1..], gone);
        WithoutAbsent(rest, n);
      }
    }
  }

  lemma DropNext(list: seq<Subscription>, all: seq<Subscription>, k: nat)
    requires Distinct(list) && k < |all|
    ensures Drop(list, all[..k + 1]) == Without(Drop(list, all[..k]), all[k])
  {
    assert all[..k + 1] == all[..k] + [all[k]];
    DropOneMore(list, all[..k], all[k]);
  }

  lemma DropsNext<T>(lists: map<T, seq<Subscription>>, all: seq<Subscription>, k: nat)
    requires k < |all| && forall x :: x in lists ==> Distinct(lists[x])
    ensures forall x :: x in lists ==> Without(Drop(lists[x], all[..k]), all[k]) == Drop(lists[x], all[..k + 1])
  {
    forall x | x in lists
      ensures Without(Drop(lists[x], all[..k]), all[k]) == Drop(lists[x], all[..k + 1])
    {
      DropNext(lists[x], all, k);
    }
  }

  lemma {:induction false} DropIn(list: seq<Subscription>, gone: seq<Subscription>)
    ensures forall m :: m in Drop(list, gone) <==> m in list && m !in gone
  {
    if list != [] {
      DropIn(list[1..], gone);
    }
  }

  lemma {:induction false} WithoutIn(list: seq<Subscription>, n: Subscription)
    requires Distinct(list)
    ensures forall m :: m in Without(list, n) <==> m in list && m != n
  {
    if n in list {
      var k :| 0 <= k < |list| && list[k] == n;
      WithoutAt(list, k);
      OthersDiffer(list, k);
      assert list == list[..k] + [n] + list[k + 1..];
    } else {
      WithoutAbsent(list, n);
    }
  }

  lemma WithoutLast(list: seq<Subscription>, n: Subscription)
    requires Distinct(list) && n in list
    ensures |Without(list, n)| == |list| - 1
    ensures list[|list| - 1] != n ==>
      Without(list, n) != [] && Without(list, n)[|list| - 2] == list[|list| - 1]
  {
    var k :| 0 <= k < |list| && list[k] == n;
    WithoutAt(list, k);
  }

  /** The tail, which is the last node if it is on the list at all, stays on it unless it leaves. */
  lemma TailAfter(list: seq<Subscription>, tail: Subscription?, n: Subscription)
    requires Distinct(list) && n in list && (tail in list ==> tail == list[|list| - 1])
    ensures var rest := Without(list, n);
      (rest == [] || tail in rest) <==> (rest == [] || (tail in list && n != list[|list| - 1]))
  {
    WithoutIn(list, n);
    assert list[|list| - 1] in list;
  }

  lemma {:induction false} WithoutAbsent(list: seq<Subscription>, n: Subscription)
    requires n !in list
    ensures Without(list, n) == list
  {
    if list != [] {
      WithoutAbsent(list[1..], n);
    }
  }

  lemma OthersDiffer(list: seq<Subscription>, k: nat)
    requires k < |list| && Distinct(list)
    ensures forall i :: 0 <= i < |list| && i != k ==> list[i] != list[k]
  {
    forall i | 0 <= i < |list| && i != k
      ensures list[i] != list[k]
    {
      assert if i < k then Differ(list, i, k) else Differ(list, k, i);
    }
  }

  class Subscriber {
    var head: Subscription?
    // The nodes of the topic list, in list order.
    ghost var list: seq<Subscription>

    constructor ()
      ensures head == null && list == []
    {
      head, list := null, [];
    }

    /** The list reached from head is exactly "list", and every prev cell holds its node. */
    ghost predicate Linked()
      reads this, list`subscriber, list`subscriberNext, list`subscriberPrev
    {
      && Distinct(list)
      && head == At(list, 0)
      && (forall i :: 0 <= i < |list| ==> LinkedAt(i))
    }

    ghost predicate LinkedAt(i: nat)
      requires i < |list|
      reads this, list`subscriber, list`subscriberNext, list`subscriberPrev
    {
      && list[i].subscriber == this
      && list[i].subscriberNext == At(list, i + 1)
      && list[i].subscriberPrev == (if i == 0 then SubscriberHead(this) else SubscriberNext(list[i - 1]))
    }

    twostate lemma LinkedFrame()
      requires old(Linked()) && unchanged(this)
      requires forall m :: m in list ==>
        unchanged(m`subscriber) && unchanged(m`subscriberNext) && unchanged(m`subscriberPrev)
      ensures Linked()
    {
      forall i | 0 <= i < |list|
        ensures LinkedAt(i)
      {
        assert list[i] in list;
        assert old(LinkedAt(i));
      }
    }

    /** Bridging the gap at position k keeps the list linked. */
    twostate lemma LinkedAfterErase(k: nat)
      requires old(Linked()) && k < |old(list)|
      requires list == Without(old(list), old(list)[k])
      requires head == if k == 0 then At(old(list), 1) else old(head)
      requires forall n {:trigger n.subscriberNext} :: n in old(list) ==>
        n.subscriberNext == if k > 0 && n == old(list)[k - 1] then At(old(list), k + 1) else old(n.subscriberNext)
      requires forall n {:trigger n.subscriberPrev} :: n in old(list) ==>
        n.subscriberPrev ==
          if n == At(old(list), k + 1) then old(list[k].subscriberPrev) else old(n.subscriberPrev)
      requires forall n :: n in old(list) ==> n.subscriber == old(n.subscriber)
      ensures Linked()
    {
      WithoutAt(old(list), k);
      OthersDiffer(old(list), k);
      assert old(LinkedAt(k));
      forall i | 0 <= i < |list|
        ensures LinkedAt(i)
      {
        var j := if i < k then i else i + 1;
        assert old(LinkedAt(j));
        WithoutNeighbours(old(list), k, i);
        OthersDiffer(old(list), j);
      }
    }

    /** The loop shared by has_topic and unsubscribe. */
    method Find(t: Topic) returns (node: Subscription?)
      requires Linked()
      ensures node == null <==> forall n :: n in list ==> n.topic != t
      ensures node != null ==> node in list && node.topic == t
    {
      node := head;
      ghost var i := 0;
      while node != null && node.topic != t
        invariant 0 <= i <= |list| && node == At(list, i)
        invariant forall j :: 0 <= j < i ==> list[j].topic != t
        decreases |list| - i
      {
        assert LinkedAt(i);
        node, i := node.subscriberNext, i + 1;
      }
    }

    method FindLinked(t: Topic, ghost g: Graph) returns (node: Subscription?)
      requires g.Valid() && this in g.subscribers && t in g.topics
      ensures node != null <==> exists n :: n in g.nodes && n.topic == t && n.subscriber == this
      ensures node != null ==> node in list && node.topic == t && node.subscriber == this
    {
      assert g.SubscriberOk(this);
      NodesPlaced(g);
      node := Find(t);
    }

    method HasTopic(t: Topic, ghost g: Graph) returns (found: bool)
      requires g.Valid() && this in g.subscribers && t in g.topics
      ensures found <==> exists n :: n in g.nodes && n.topic == t && n.subscriber == this
    {
      var node := FindLinked(t, g);
      found := node != null;
    }

    lemma NodesPlaced(g: Graph)
      requires g.Valid() && this in g.subscribers
      ensures forall n :: n in list ==>
        n in g.nodes && n.subscriber == this && n.topic != null && n.topic in g.topics && (n in n.topic.list || g.Lost(n))
      ensures forall n :: n in g.nodes && n.subscriber == this ==> n in list
    {
      assert g.SubscriberOk(this);
      forall n | n in list
        ensures n.subscriber == this && g.Placed(n)
      {
        var i :| 0 <= i < |list| && list[i] == n;
        assert LinkedAt(i);
      }
      forall n | n in g.nodes && n.subscriber == this
        ensures n in list
      {
        assert g.Placed(n);
      }
    }

    /** Erase the subscription to t, if there is one; it may be on t's list or not. */
    method Unsubscribe(t: Topic, ghost watchers: set<LocalPointer>, ghost g: Graph)
      returns (done: bool, ghost gone: Subscription?)
      requires g.Valid() && this in g.subscribers && t in g.topics && g.draining == null
      requires forall n :: n in list ==> WatchedBy(n, watchers)
      modifies this, t, list, watchers, g.nodes`topicNext, g.nodes`topicPrev
      ensures g.Valid() && t.tail == old(t.tail)
      ensures done <==> exists n :: n in g.nodes && old(n.topic) == t && old(n.subscriber) == this
      ensures !done ==> list == old(list) && t.list == old(t.list)
      ensures done ==>
        && gone in old(list) && old(gone.topic) == t && old(gone.subscriber) == this && Gone(gone)
        && list == Without(old(list), gone) && t.list == Without(old(t.list), gone)
        && t.View() == if gone in old(t.list) then old(t.View()).Left(gone, t.list) else old(t.View())
    {
      var found := FindLinked(t, g);
      gone := found;
      if found == null {
        return false, null;
      }
      Erase(found, t, watchers, g);
      return true, gone;
    }

    /** The body of unsubscribe once the node is found: register the local pointer on the node,
        take both locks, and unsubscribe the node unless another thread already has. */
    method Erase(n: Subscription, ghost t: Topic, ghost watchers: set<LocalPointer>, ghost g: Graph)
      requires g.Valid() && n in list && this in g.subscribers && n.topic == t && g.draining == null
      requires WatchedBy(n, watchers)
      modifies this, t, n, list`subscriberNext, list`subscriberPrev, watchers, g.nodes`topicNext, g.nodes`topicPrev
      ensures g.Valid() && t.tail == old(t.tail) && Gone(n)
      ensures list == Without(old(list), n) && t.list == Without(old(t.list), n)
      ensures t.View() == if n in old(t.list) then old(t.View()).Left(n, t.list) else old(t.View())
    {
      NodesPlaced(g);
      ghost var before := t.list;
      var node := new LocalPointer(n);
      n.erasing := [node] + n.erasing;
      g.ValidIgnoresErasing();
      g.Neighbours(n);
      assert g.TopicOk(t);
      n.Unsubscribe(g);
      if n in before {
        TailAfter(before, t.tail, n);
      } else {
        WithoutAbsent(before, n);
      }
    }

    /** The first k of "all" are gone from both sides; the list is what is left. */
    ghost predicate Removed(all: seq<Subscription>, k: nat, lists: map<Topic, seq<Subscription>>, g: Graph)
      reads *
    {
      && g.Valid() && this in g.subscribers && k <= |all| && list == all[k..] && head == At(list, 0)
      && (forall i :: 0 <= i < k ==> Gone(all[i]))
      && lists.Keys == g.topics
      && (forall t :: t in lists ==> Distinct(lists[t]) && t.list == Drop(lists[t], all[..k]))
    }

    lemma RemoveStart(lists: map<Topic, seq<Subscription>>, g: Graph)
      requires g.Valid() && this in g.subscribers
      requires lists == map t | t in g.topics :: t.list
      ensures Removed(list, 0, lists, g)
    {
      assert g.SubscriberOk(this);
      forall t | t in lists
        ensures Distinct(lists[t]) && t.list == Drop(lists[t], list[..0])
      {
        assert g.TopicOk(t);
        DropNone(t.list);
      }
    }

    method RemoveNext(ghost first: Subscription, ghost all: seq<Subscription>, ghost k: nat,
                      ghost lists: map<Topic, seq<Subscription>>, ghost g: Graph)
      requires Removed(all, k, lists, g) && k < |all| && first == all[k] && g.draining == null
      modifies this, g.topics, first`topic, first`subscriber, first.erasing
      modifies list`subscriberNext, list`subscriberPrev, g.nodes`topicNext, g.nodes`topicPrev
      ensures Removed(all, k + 1, lists, g)
      ensures forall t :: t in g.topics ==> t.tail == old(t.tail)
    {
      UnsubscribeFirst(first, g);
      DropsNext(lists, all, k);
    }

    /** Unlink every subscription of this subscriber. */
    method UnsubscribeAll(ghost watchers: set<LocalPointer>, ghost g: Graph)
      requires g.Valid() && this in g.subscribers && g.draining == null
      requires forall n :: n in list ==> WatchedBy(n, watchers)
      modifies this, g.topics, watchers
      modifies list`topic, list`subscriber, list`subscriberNext, list`subscriberPrev
      modifies g.nodes`topicNext, g.nodes`topicPrev
      ensures g.Valid() && list == [] && head == null
      ensures forall n :: n in old(list) ==> Gone(n)
      ensures forall t :: t in g.topics ==> t.list == Drop(old(t.list), old(list)) && t.tail == old(t.tail)
    {
      ghost var all, k := list, 0;
      ghost var lists := map t | t in g.topics :: t.list;
      RemoveStart(lists, g);
      while head != null
        invariant Removed(all, k, lists, g)
        invariant forall t :: t in g.topics ==> t.tail == old(t.tail)
        decreases |all| - k
      {
        assert all[k] in all;
        RemoveNext(all[k], all, k, lists, g);
        k := k + 1;
      }
      assert all[..|all|] == all;
    }

    method UnsubscribeFirst(ghost first: Subscription, ghost g: Graph)
      requires g.Valid() && this in g.subscribers && g.draining == null && list != [] && first == list[0]
      modifies this, g.topics, first`topic, first`subscriber, first.erasing
      modifies list`subscriberNext, list`subscriberPrev, g.nodes`topicNext, g.nodes`topicPrev
      ensures g.Valid() && head == At(list, 0) && list == old(list)[1..] && Gone(first) && old(first.topic) != null
      ensures forall t :: t in g.topics ==> t.list == Without(old(t.list), first) && t.tail == old(t.tail)
    {
      assert g.SubscriberOk(this) && list[0] in list;
      NodesPlaced(g);
      g.OnlyOnItsTopic(first);
      g.Neighbours(first);
      head.Unsubscribe(g);
      HeadIsFirst(g);
    }

    lemma HeadIsFirst(g: Graph)
      requires g.Valid() && this in g.subscribers
      ensures head == At(list, 0)
    {
      assert g.SubscriberOk(this);
    }
  }

  class Topic {
    var head: Subscription?
    var tail: Subscription?
    // The nodes of the subscriber list, in list order.
    ghost var list: seq<Subscription>
    // While clear() drains the list, the local variable the list hangs on; null otherwise.
    ghost var cursor: LocalPointer?

    constructor ()
      ensures head == null && tail == null && list == [] && cursor == null
    {
      head, tail, list, cursor := null, null, [], null;
    }

    ghost predicate Linked()
      reads this, cursor, list`topic, list`topicNext, list`topicPrev
    {
      && Distinct(list)
      && First() == At(list, 0)
      && (forall i :: 0 <= i < |list| ==> LinkedAt(i, null))
    }

    ghost predicate LinkedAt(i: nat, leaving: Subscription?)
      requires i < |list|
      reads this, list`topic, list`topicNext, list`topicPrev
    {
      && (list[i].topic == this || list[i] == leaving)
      && list[i].topicNext == At(list, i + 1)
      && list[i].topicPrev ==
           (if i != 0 then TopicNext(list[i - 1])
            else if cursor == null then TopicHead(this) else Local(cursor))
    }

    /** m_tail is not moved back when the last node is erased, so it can be left behind. */
    ghost predicate TailCurrent()
      reads this
    {
      list == [] || tail in list
    }

    ghost function View(): TopicList<Subscription>
      reads this
    {
      TopicList(list, TailCurrent())
    }

    ghost function First(): Subscription?
      reads this, cursor
    {
      if cursor == null then head else cursor.node
    }

    twostate lemma LinkedFrame()
      requires old(Linked()) && unchanged(this) && (cursor != null ==> unchanged(cursor))
      requires forall m :: m in list ==> unchanged(m`topic) && unchanged(m`topicNext) && unchanged(m`topicPrev)
      ensures Linked()
    {
      forall i | 0 <= i < |list|
        ensures LinkedAt(i, null)
      {
        assert list[i] in list;
        assert old(LinkedAt(i, null));
      }
    }

    /** Bridging the gap at position k keeps the list linked. */
    twostate lemma LinkedAfterErase(k: nat)
      requires k < |old(list)| && old(Distinct(list) && First() == At(list, 0))
      requires forall i :: 0 <= i < |old(list)| ==> old(LinkedAt(i, list[k]))
      requires list == Without(old(list), old(list)[k])
      requires cursor == old(cursor)
      requires First() == if k == 0 then At(old(list), 1) else old(First())
      requires forall n {:trigger n.topicNext} :: n in old(list) ==>
        n.topicNext == if k > 0 && n == old(list)[k - 1] then At(old(list), k + 1) else old(n.topicNext)
      requires forall n {:trigger n.topicPrev} :: n in old(list) ==>
        n.topicPrev == if n == At(old(list), k + 1) then old(list[k].topicPrev) else old(n.topicPrev)
      requires forall n :: n in old(list) && n != old(list)[k] ==> n.topic == old(n.topic)
      ensures Linked()
    {
      WithoutAt(old(list), k);
      OthersDiffer(old(list), k);
      assert old(LinkedAt(k, list[k]));
      forall i | 0 <= i < |list|
        ensures LinkedAt(i, null)
      {
        var j := if i < k then i else i + 1;
        assert old(LinkedAt(j, list[k]));
        WithoutNeighbours(old(list), k, i);
        OthersDiffer(old(list), j);
      }
    }

    /** Subscribe s to this topic unless it already is.  A node hung on a tail that has left cannot
        be reached from the head: every node is on its topic's list afterwards exactly when it was
        before and m_tail was on the list. */
    method ReserveSubscribe(s: Subscriber, ghost g: Graph) returns (node: Subscription?)
      requires g.Valid() && this in g.topics && s in g.subscribers && g.draining == null
      modifies this, s, g`nodes, g`count, g.nodes`topicNext, g.nodes`subscriberPrev
      ensures g.Valid()
      ensures node == null <==> exists n :: n in old(g.nodes) && old(n.topic) == this && old(n.subscriber) == s
      ensures node == null ==> unchanged(this) && unchanged(s) && g.nodes == old(g.nodes)
      ensures node != null ==>
        && fresh(node) && g.nodes == old(g.nodes) + {node}
        && node.topic == this && node.subscriber == s && node.erasing == [] && tail == node
        && s.list == [node] + old(s.list)
        && list == (if old(TailCurrent()) then old(list) + [node] else old(list))
        && (g.NoneLost() <==> old(g.NoneLost()) && old(TailCurrent()))
        && View() == old(View()).Reserved(node)
    {
      assert g.TopicOk(this);
      var found := HasSubscriber(s, g);
      if found {
        return null;
      }
      node := Subscribe(s, g);
    }

    method Subscribe(s: Subscriber, ghost g: Graph) returns (node: Subscription)
      requires g.Valid() && this in g.topics && s in g.subscribers && cursor == null
      requires !exists n :: n in g.nodes && n.topic == this && n.subscriber == s
      modifies this, s, g`nodes, g`count, g.nodes`topicNext, g.nodes`subscriberPrev
      ensures g.Valid() && fresh(node) && g.nodes == old(g.nodes) + {node}
      ensures node.topic == this && node.subscriber == s && node.erasing == [] && tail == node
      ensures s.list == [node] + old(s.list)
      ensures list == if old(TailCurrent()) then old(list) + [node] else old(list)
      ensures g.NoneLost() <==> old(g.NoneLost()) && old(TailCurrent())
    {
      node := new Subscription(this, s, g.count);
      Attach(node, s, g);
    }

    method Attach(node: Subscription, s: Subscriber, ghost g: Graph)
      requires g.Valid() && this in g.topics && s in g.subscribers && cursor == null
      requires !exists n :: n in g.nodes && n.topic == this && n.subscriber == s
      requires node !in g.nodes && node.topic == this && node.subscriber == s && node.topicNext == null
      requires node.home == this && node.serial == g.count
      modifies this, s, g`nodes, g`count, g.nodes`topicNext, g.nodes`subscriberPrev
      modifies node`topicPrev, node`subscriberNext, node`subscriberPrev
      ensures g.Valid() && g.nodes == old(g.nodes) + {node} && tail == node
      ensures node.topic == this && node.subscriber == s && node.erasing == old(node.erasing)
      ensures s.list == [node] + old(s.list)
      ensures list == if old(TailCurrent()) then old(list) + [node] else old(list)
      ensures g.NoneLost() <==> old(g.NoneLost()) && old(TailCurrent())
    {
      assert g.TopicOk(this) && g.SubscriberOk(s);
      node.ReserveSubscribe(this, s, g.nodes);
      g.nodes, g.count := g.nodes + {node}, g.count + 1;
      g.ValidAfterReserve(node, this, s);
    }

    method HasSubscriber(s: Subscriber, ghost g: Graph) returns (found: bool)
      requires g.Valid() && this in g.topics && s in g.subscribers
      ensures found <==> exists n :: n in g.nodes && n.topic == this && n.subscriber == s
    {
      found := s.HasTopic(this, g);
    }

    /** Hang the list on a local variable instead of on m_head. */
    method Redirect(node: LocalPointer, ghost g: Graph)
      requires g.Valid() && this in g.topics && g.draining == null && list != [] && node.node == head
      modifies this`cursor, list`topicPrev, g`draining, g`cursor
      ensures g.Valid() && g.draining == this && cursor == node == g.cursor
    {
      assert g.TopicOk(this) && LinkedAt(0, null) && list[0] in list;
      node.node.topicPrev := Local(node);
      cursor, g.draining, g.cursor := node, this, node;
      g.ValidAfterRedirect(this);
    }

    /** One round of the draining loop: the node the local variable points at is unlinked,
        and the local variable moves on to the next node. */
    method DrainOne(node: LocalPointer, ghost first: Subscription, ghost g: Graph)
      requires g.Valid() && this in g.topics && list != [] && first == list[0]
      requires node == cursor == g.cursor && node !in first.erasing
      modifies this, node, g.subscribers, first`topic, first`subscriber
      modifies list`topicNext, list`topicPrev, g.nodes`subscriberNext, g.nodes`subscriberPrev
      modifies first.erasing
      ensures g.Valid() && cursor == node && node.node == At(list, 0)
      ensures list == old(list)[1..]
      ensures Gone(first) && forall n :: n in g.nodes && old(Gone(n)) ==> Gone(n)
      ensures forall s :: s in g.subscribers ==> s.list == Without(old(s.list), first)
    {
      FirstIsHead(g);
      first.Leavable(g);
      g.OnlyOnItsSubscribers(first);
      node.node.Unsubscribe(g);
      assert g.TopicOk(this);
    }

    lemma FirstIsHead(g: Graph)
      requires g.Valid() && this in g.topics && list != []
      ensures Linked() && First() == list[0] && list[0] in g.nodes && list[0].topic == this
      ensures list[0].Before() == null && (list[0].topicNext != null ==> list[0].topicNext in list)
    {
      assert g.TopicOk(this) && LinkedAt(0, null) && list[0] in list;
      assert |list| > 1 ==> list[1] in list;
    }

    /** The first k of "all" are gone from both sides; the list is what is left. */
    ghost predicate Drained(all: seq<Subscription>, k: nat, lists: map<Subscriber, seq<Subscription>>, g: Graph)
      reads *
    {
      && g.Valid() && this in g.topics && k <= |all| && list == all[k..]
      && cursor != null && cursor == g.cursor && cursor.node == At(list, 0)
      && (forall i :: 0 <= i < k ==> Gone(all[i]))
      && lists.Keys == g.subscribers
      && (forall s :: s in lists ==> Distinct(lists[s]) && s.list == Drop(lists[s], all[..k]))
    }

    lemma DrainStart(lists: map<Subscriber, seq<Subscription>>, g: Graph)
      requires g.Valid() && this in g.topics && cursor != null && cursor == g.cursor
      requires lists == map s | s in g.subscribers :: s.list
      ensures Drained(list, 0, lists, g)
    {
      assert g.TopicOk(this);
      forall s | s in lists
        ensures Distinct(lists[s]) && s.list == Drop(lists[s], list[..0])
      {
        assert g.SubscriberOk(s);
        DropNone(s.list);
      }
    }

    method DrainNext(node: LocalPointer, ghost first: Subscription, ghost all: seq<Subscription>, ghost k: nat,
                     ghost lists: map<Subscriber, seq<Subscription>>, ghost g: Graph)
      requires Drained(all, k, lists, g) && k < |all| && first == all[k] && node == cursor && node !in first.erasing
      modifies this, node, g.subscribers, first`topic, first`subscriber
      modifies list`topicNext, list`topicPrev, g.nodes`subscriberNext, g.nodes`subscriberPrev
      modifies first.erasing
      ensures Drained(all, k + 1, lists, g) && node == cursor
    {
      DrainOne(node, first, g);
      DropsNext(lists, all, k);
    }

    /** The draining loop of clear(): it advances because unlinking the first node writes the
        next one into the local variable. */
    method Drain(node: LocalPointer, ghost watchers: set<LocalPointer>, ghost g: Graph)
      requires g.Valid() && this in g.topics && node == cursor == g.cursor
      requires node !in watchers && forall n :: n in list ==> WatchedBy(n, watchers)
      modifies this, node, g.subscribers
      modifies list`topic, list`topicNext, list`topicPrev, list`subscriber
      modifies g.nodes`subscriberNext, g.nodes`subscriberPrev
      modifies watchers
      ensures g.Valid() && list == []
      ensures forall n :: n in old(list) ==> Gone(n)
      ensures forall s :: s in g.subscribers ==> s.list == Drop(old(s.list), old(list))
    {
      ghost var all, k := list, 0;
      ghost var lists := map s | s in g.subscribers :: s.list;
      DrainStart(lists, g);
      while node.node != null
        invariant Drained(all, k, lists, g) && node == cursor
        decreases |all| - k
      {
        assert all[k] in all;
        DrainNext(node, all[k], all, k, lists, g);
        k := k + 1;
      }
      assert all[..|all|] == all;
    }

    /** Unlink every subscription of this topic. */
    method Clear(ghost watchers: set<LocalPointer>, ghost g: Graph)
      requires g.Valid() && this in g.topics && g.draining == null
      requires forall n :: n in list ==> WatchedBy(n, watchers)
      modifies this, g`draining, g`cursor, g.subscribers
      modifies list`topic, list`topicNext, list`topicPrev, list`subscriber
      modifies g.nodes`subscriberNext, g.nodes`subscriberPrev
      modifies watchers
      ensures g.Valid() && g.draining == null
      ensures list == [] && head == null && View() == Empty()
      ensures old(list) != [] ==> tail == null
      ensures forall n :: n in old(list) ==> Gone(n)
      ensures forall s :: s in g.subscribers ==> s.list == Drop(old(s.list), old(list))
    {
      assert g.TopicOk(this);
      if head == null {
        forall s | s in g.subscribers
          ensures s.list == Drop(s.list, [])
        {
          DropNone(s.list);
        }
        return;
      }
      var node := new LocalPointer(head);
      Redirect(node, g);
      Drain(node, watchers, g);
      Release(g);
    }

    method Release(ghost g: Graph)
      requires g.Valid() && g.draining == this && list == []
      modifies this`head, this`tail, this`cursor, g`draining, g`cursor
      ensures g.Valid() && g.draining == null && head == null && tail == null
    {
      head, tail := null, null;
      cursor, g.draining, g.cursor := null, null, null;
      g.ValidAfterRelease(this);
    }
  }

  /** All topics, subscribers and subscriptions ever made. */
  class Graph {
    ghost var topics: set<Topic>
    ghost var subscribers: set<Subscriber>
    ghost var nodes: set<Subscription>
    ghost var count: nat
    // The topic that clear() is draining, and the local variable its list hangs on, if any.
    ghost var draining: Topic?
    ghost var cursor: LocalPointer?

    constructor ()
      ensures Valid() && topics == {} && subscribers == {} && nodes == {} && draining == null
    {
      topics, subscribers, nodes, count, draining, cursor := {}, {}, {}, 0, null, null;
    }

    method AddTopic() returns (t: Topic)
      requires Valid()
      modifies this`topics
      ensures Valid() && fresh(t) && topics == old(topics) + {t}
      ensures t.list == [] && t.tail == null
    {
      t := new Topic();
      topics := topics + {t};
      ValidAfterAdd();
    }

    method AddSubscriber() returns (s: Subscriber)
      requires Valid()
      modifies this`subscribers
      ensures Valid() && fresh(s) && subscribers == old(subscribers) + {s}
      ensures s.list == []
    {
      s := new Subscriber();
      subscribers := subscribers + {s};
      ValidAfterAdd();
    }

    /** New topics and subscribers without subscriptions. */
    twostate lemma ValidAfterAdd()
      requires old(Valid()) && nodes == old(nodes) && count == old(count)
      requires draining == old(draining) && cursor == old(cursor)
      requires cursor != null ==> unchanged(cursor)
      requires old(topics) <= topics && old(subscribers) <= subscribers
      requires forall t :: t in topics ==>
        if t in old(topics) then unchanged(t) else t.list == [] && t.head == t.tail == null && t.cursor == null
      requires forall s :: s in subscribers ==>
        if s in old(subscribers) then unchanged(s) else s.list == [] && s.head == null
      requires forall n :: n in nodes ==> unchanged(n)
      ensures Valid()
    {
      forall t | t in topics
        ensures TopicOk(t)
      {
        if t in old(topics) {
          assert old(TopicOk(t));
          TopicStaysOk(t);
        }
      }
      forall s | s in subscribers
        ensures SubscriberOk(s)
      {
        if s in old(subscribers) {
          assert old(SubscriberOk(s));
          SubscriberStaysOk(s);
        }
      }
      forall n | n in nodes
        ensures Placed(n)
      {
        assert old(Placed(n));
      }
      forall m, n | m in nodes && n in nodes
        ensures Apart(m, n)
      {
        assert old(Apart(m, n));
      }
    }

    ghost predicate TopicOk(t: Topic)
      reads this, t, cursor, nodes
    {
      && (forall n :: n in t.list ==> n in nodes)
      && (t.tail != null ==> t.tail in nodes && t.tail.home == t && t.tail.topicNext == null)
      && (t.list != [] ==> t.tail != null)
      && (t.tail in t.list ==> t.tail == t.list[|t.list| - 1])
      && (t.cursor != null ==> t == draining && t.cursor == cursor)
      && t.Linked()
    }

    ghost predicate SubscriberOk(s: Subscriber)
      reads this, s, nodes
    {
      && (forall n :: n in s.list ==> n in nodes)
      && s.Linked()
    }

    /** A linked subscription is on its subscriber's list, and on its topic's list or lost. */
    ghost predicate Placed(n: Subscription)
      reads this, topics, subscribers, nodes, n
    {
      && (n.topic == null <==> n.subscriber == null) && n.serial < count
      && (n.topic != null ==> n.topic == n.home && n.topic in topics && (n in n.topic.list || Lost(n)))
      && (n.subscriber != null ==> n.subscriber in subscribers && n in n.subscriber.list)
    }

    /** A node that cannot be reached from its topic: it is hung behind an older node made for the
        same topic, which has left or is lost itself; and so is what is hung behind it. */
    ghost predicate Lost(n: Subscription)
      reads this, topics, nodes, n
    {
      && n in nodes && n.topic != null && n.topic in topics && n !in n.topic.list
      && HungBehind(n, n.Before())
      && (n.topicNext != null ==> n.topicNext in nodes && HangsBehind(n.topicNext, n))
    }

    ghost predicate HangsBehind(m: Subscription, n: Subscription)
      requires n.topic != null && n.topic in topics && m in nodes
      reads this, topics, nodes, n
    {
      m.topic == n.topic && m !in n.topic.list && m.topicPrev == TopicNext(n)
    }

    ghost predicate HungBehind(n: Subscription, p: Subscription?)
      reads this, topics, nodes
    {
      && p != null && p in nodes && p.topicNext == n && p.home == n.home && p.serial < n.serial
      && (p.topic != null ==> p.topic in topics && p !in p.topic.list)
    }

    ghost predicate NoneLost()
      reads this, topics, nodes
    {
      forall n :: n in nodes && n.topic != null && n.topic in topics ==> n in n.topic.list
    }

    /** Every subscription is on its topic's list exactly when it is on its subscriber's list. */
    ghost predicate Intact()
      reads this, topics, subscribers, nodes, cursor
    {
      && (forall t :: t in topics ==> TopicOk(t))
      && (forall s :: s in subscribers ==> SubscriberOk(s))
      && (forall n :: n in nodes ==> OnBothLists(n))
      && (forall m, n :: m in nodes && n in nodes ==> Apart(m, n))
      && (draining == null ==> cursor == null)
    }

    ghost predicate OnBothLists(n: Subscription)
      reads this, topics, subscribers, n
    {
      && (n.topic == null <==> n.subscriber == null) && n.serial < count
      && (n.topic != null ==> n.topic == n.home && n.topic in topics && n in n.topic.list)
      && (n.subscriber != null ==> n.subscriber in subscribers && n in n.subscriber.list)
    }

    /** The graph is intact if and only if it is valid and no node is lost. */
    lemma IntactIff()
      ensures Intact() <==> Valid() && NoneLost()
    {
      if Intact() {
        assert forall n :: n in nodes ==> OnBothLists(n);
        assert forall n :: n in nodes ==> Placed(n);
      }
      if Valid() && NoneLost() {
        assert forall n :: n in nodes ==> Placed(n);
        assert forall n :: n in nodes ==> OnBothLists(n);
      }
    }

    /** Among the nodes that have not left, those that are lost are those that their topics do not
        list: what an operation says of the topics' lists says who is lost afterwards. */
    lemma LostIff()
      requires Valid()
      ensures forall n :: n in nodes && n.topic != null ==>
        n.topic in topics && (Lost(n) <==> n !in n.topic.list)
    {
      assert forall n :: n in nodes ==> Placed(n);
    }

    /** What a lost node is hung behind leads back, older and older, to a node that has left. */
    lemma {:induction false} BehindOneThatLeft(n: Subscription) returns (gone: Subscription)
      requires Valid() && Lost(n)
      ensures gone in nodes && gone.topic == null && gone.home == n.home && gone.serial < n.serial
      decreases n.serial
    {
      gone := n.Before();
      if gone.topic != null {
        assert Placed(gone);
        gone := BehindOneThatLeft(gone);
      }
    }

    /** The nodes before and behind a linked node are nodes of the graph. */
    lemma Neighbours(n: Subscription)
      requires Valid() && n in nodes && n.topic != null
      ensures n.Before() != null ==> n.Before() in nodes && n.Before() != n
      ensures n.topicNext != null ==> n.topicNext in nodes && n.topicNext != n
    {
      assert Placed(n) && TopicOk(n.topic);
      if n in n.topic.list {
        var list := n.topic.list;
        var i :| 0 <= i < |list| && list[i] == n;
        assert n.topic.LinkedAt(i, null);
        OthersDiffer(list, i);
        assert i > 0 ==> list[i - 1] in list;
        assert i + 1 < |list| ==> list[i + 1] in list;
      }
    }

    /** A node is on no list but its own topic's. */
    lemma OnlyOnItsTopic(n: Subscription)
      requires Valid() && n in nodes && n.topic != null
      ensures forall t :: t in topics && t != n.topic ==> n !in t.list && Without(t.list, n) == t.list
    {
      forall t | t in topics && t != n.topic
        ensures n !in t.list && Without(t.list, n) == t.list
      {
        assert TopicOk(t);
        forall i | 0 <= i < |t.list|
          ensures t.list[i] != n
        {
          assert t.LinkedAt(i, null);
        }
        WithoutAbsent(t.list, n);
      }
    }

    lemma OnlyOnItsSubscribers(n: Subscription)
      requires Valid() && n in nodes
      ensures forall s :: s in subscribers && s != n.subscriber ==> Without(s.list, n) == s.list
    {
      forall s | s in subscribers && s != n.subscriber
        ensures Without(s.list, n) == s.list
      {
        s.NodesPlaced(this);
        WithoutAbsent(s.list, n);
      }
    }

    /** No two linked subscriptions join the same topic and subscriber. */
    ghost predicate Apart(m: Subscription, n: Subscription)
      reads m, n
    {
      m.topic != null && m.topic == n.topic && m.subscriber == n.subscriber ==> m == n
    }

    /** What every operation keeps: the lists are linked, every subscription is on its subscriber's list,
        and on its topic's list or lost, and no two join the same pair. */
    ghost predicate Valid()
      reads this, topics, subscribers, nodes, cursor
    {
      && (forall t :: t in topics ==> TopicOk(t))
      && (forall s :: s in subscribers ==> SubscriberOk(s))
      && (forall n :: n in nodes ==> Placed(n))
      && (forall m, n :: m in nodes && n in nodes ==> Apart(m, n))
      && (draining == null ==> cursor == null)
    }

    /** Lists that lose no node and whose nodes keep their links stay in order. */
    twostate lemma TopicStaysOk(u: Topic)
      requires old(TopicOk(u)) && unchanged(u) && old(nodes) <= nodes && cursor == old(cursor) && draining == old(draining)
      requires u.cursor != null ==> unchanged(u.cursor)
      requires forall m :: m in u.list ==> unchanged(m`topic) && unchanged(m`topicNext) && unchanged(m`topicPrev)
      requires u.tail != null ==> unchanged(u.tail`topicNext)
      ensures TopicOk(u)
    {
      u.LinkedFrame();
    }

    twostate lemma SubscriberStaysOk(r: Subscriber)
      requires old(SubscriberOk(r)) && unchanged(r) && old(nodes) <= nodes
      requires forall m :: m in r.list ==>
        unchanged(m`subscriber) && unchanged(m`subscriberNext) && unchanged(m`subscriberPrev)
      ensures SubscriberOk(r)
    {
      r.LinkedFrame();
    }

    twostate lemma NodesOfTopic(t: Topic)
      requires old(t.Linked())
      ensures forall m :: m in old(t.list) ==> old(m.topic) == t
    {
      forall i | 0 <= i < |old(t.list)|
        ensures old(t.list[i].topic) == t
      {
        assert old(t.LinkedAt(i, null));
      }
    }

    twostate lemma NodesOfSubscriber(s: Subscriber)
      requires old(s.Linked())
      ensures forall m :: m in old(s.list) ==> old(m.subscriber) == s
    {
      forall i | 0 <= i < |old(s.list)|
        ensures old(s.list[i].subscriber) == s
      {
        assert old(s.LinkedAt(i));
      }
    }

    /** A lost node stays lost while it keeps its links, what it hangs on keeps its next pointer, and
        no list gains a node. */
    twostate lemma LostStays(m: Subscription)
      requires old(Lost(m)) && topics == old(topics) && old(nodes) <= nodes
      requires m.topic == old(m.topic) && m.topicPrev == old(m.topicPrev) && m.topicNext == old(m.topicNext)
      requires m.Before().topicNext == m && (m.Before().topic == null || m.Before().topic == old(m.Before().topic))
      requires m.topicNext != null ==>
        m.topicNext.topic == old(m.topicNext.topic) && m.topicNext.topicPrev == old(m.topicNext.topicPrev)
      requires forall u, x :: u in topics && x in u.list && x in old(nodes) ==> x in old(u.list)
      ensures Lost(m)
    {
    }

    /** No lost node, and nothing a lost node hangs on, is on a list. */
    twostate lemma LostApart(m: Subscription, new t: Topic)
      requires old(Valid()) && old(Lost(m)) && t in old(topics)
      ensures m !in old(t.list) && old(m.Before()) !in old(t.list)
      ensures old(m.topicNext) != null ==> old(m.topicNext) !in old(t.list)
    {
      assert old(TopicOk(t));
      NodesOfTopic(t);
    }

    twostate lemma SubscribersAfterUnlink(n: Subscription)
      requires old(Valid()) && n in old(nodes) && old(n.subscriber) != null && unchanged(this)
      requires old(n.subscriber).Linked() && old(n.subscriber).list == Without(old(n.subscriber.list), n)
      requires forall m :: m in nodes && m != n ==> unchanged(m`subscriber)
      requires forall r :: r in subscribers && r != old(n.subscriber) ==> unchanged(r)
      requires forall m :: m in nodes && m !in old(n.subscriber.list) ==>
        unchanged(m`subscriberNext) && unchanged(m`subscriberPrev)
      ensures forall r :: r in subscribers ==> SubscriberOk(r)
    {
      assert old(Placed(n));
      forall r | r in subscribers
        ensures SubscriberOk(r)
      {
        assert old(SubscriberOk(r));
        if r != old(n.subscriber) {
          NodesOfSubscriber(r);
          NodesOfSubscriber(old(n.subscriber));
          SubscriberStaysOk(r);
        } else {
          WithoutIn(old(r.list), n);
        }
      }
    }

    /** What changes when n is unlinked, from its topic's list or from where it was lost. */
    twostate predicate Leaves(n: Subscription)
      requires n in old(nodes) && old(n.topic) != null && old(n.subscriber) != null
      reads *
    {
      && unchanged(this) && n.topic == null && n.subscriber == null
      && n.topicNext == old(n.topicNext) && n.topicPrev == old(n.topicPrev)
      && (forall m :: m in nodes && m != n ==> unchanged(m`topic) && unchanged(m`subscriber))
      // The topic's side.
      && old(n.topic).tail == old(n.topic.tail) && old(n.topic).cursor == old(n.topic.cursor)
      && (if n in old(n.topic.list) then
            old(n.topic).Linked() && old(n.topic).list == Without(old(n.topic.list), n)
          else
            n.Bridged() && unchanged(old(n.topic)) && (old(n.topic.cursor) != null ==> unchanged(old(n.topic.cursor))))
      && (forall u :: u in topics && u != old(n.topic) ==> unchanged(u))
      && (forall m :: m in nodes && m != old(n.Before()) ==> unchanged(m`topicNext))
      && (forall m :: m in nodes && m != n.topicNext ==> unchanged(m`topicPrev))
      && (cursor != null && cursor != old(n.topic.cursor) ==> unchanged(cursor))
      // The subscriber's side.
      && old(n.subscriber).Linked() && old(n.subscriber).list == Without(old(n.subscriber.list), n)
      && (forall r :: r in subscribers && r != old(n.subscriber) ==> unchanged(r))
      && (forall m :: m in nodes && m !in old(n.subscriber.list) ==>
            unchanged(m`subscriberNext) && unchanged(m`subscriberPrev))
    }

    /** The graph stays valid whichever it was. */
    twostate lemma ValidAfterLeaving(n: Subscription)
      requires old(Valid()) && n in old(nodes) && old(n.topic) != null && old(n.subscriber) != null && Leaves(n)
      ensures Valid() && old(n.topic).list == Without(old(n.topic.list), n)
    {
      assert old(Placed(n));
      if n in old(n.topic.list) {
        NeighboursBefore(n);
        ValidAfterUnlink(n);
      } else {
        WithoutAbsent(old(n.topic.list), n);
        ValidAfterLost(n);
      }
    }

    twostate lemma NeighboursBefore(n: Subscription)
      requires old(Valid()) && n in old(nodes) && old(n.topic) != null && n in old(n.topic.list)
      ensures old(n.Before()) != null ==> old(n.Before()) in old(n.topic.list)
      ensures old(n.topicNext) != null ==> old(n.topicNext) in old(n.topic.list)
    {
      assert old(TopicOk(n.topic));
      var list := old(n.topic.list);
      var i :| 0 <= i < |list| && list[i] == n;
      assert old(n.topic.LinkedAt(i, null));
      assert i > 0 ==> list[i - 1] in list;
      assert i + 1 < |list| ==> list[i + 1] in list;
    }

    twostate lemma ValidAfterUnlink(n: Subscription)
      requires old(Valid()) && n in old(nodes) && old(n.topic) != null && n in old(n.topic.list)
      requires unchanged(this)
      requires n.topic == null && n.subscriber == null && n.topicNext == old(n.topicNext)
      requires forall m :: m in nodes && m != n ==> unchanged(m`topic) && unchanged(m`subscriber)
      requires old(n.topic).Linked() && old(n.topic).list == Without(old(n.topic.list), n)
      requires old(n.topic).tail == old(n.topic.tail) && old(n.topic).cursor == old(n.topic.cursor)
      requires forall u :: u in topics && u != old(n.topic) ==> unchanged(u)
      requires forall m :: m in nodes && m !in old(n.topic.list) ==> unchanged(m`topicNext) && unchanged(m`topicPrev)
      requires cursor != null && cursor != old(n.topic.cursor) ==> unchanged(cursor)
      requires old(n.subscriber).Linked() && old(n.subscriber).list == Without(old(n.subscriber.list), n)
      requires forall r :: r in subscribers && r != old(n.subscriber) ==> unchanged(r)
      requires forall m :: m in nodes && m !in old(n.subscriber.list) ==>
        unchanged(m`subscriberNext) && unchanged(m`subscriberPrev)
      ensures Valid()
    {
      assert old(Placed(n)) && old(TopicOk(n.topic));
      WithoutIn(old(n.topic.list), n);
      WithoutIn(old(n.subscriber.list), n);
      TopicsAfterUnlink(n);
      SubscribersAfterUnlink(n);
      forall m | m in nodes
        ensures Placed(m)
      {
        assert old(Placed(m));
        if m != n && old(m.topic) != null && old(Lost(m)) {
          LostApart(m, old(n.topic));
          LostStays(m);
        }
      }
      forall l, m | l in nodes && m in nodes
        ensures Apart(l, m)
      {
        assert old(Apart(l, m));
      }
    }

    twostate lemma TopicsAfterUnlink(n: Subscription)
      requires old(Valid()) && n in old(nodes) && old(n.topic) != null && n in old(n.topic.list) && old(n.topic) in topics
      requires unchanged(this) && n.topicNext == old(n.topicNext)
      requires forall m :: m in nodes && m != n ==> unchanged(m`topic)
      requires old(n.topic).Linked() && old(n.topic).list == Without(old(n.topic.list), n)
      requires old(n.topic).tail == old(n.topic.tail) && old(n.topic).cursor == old(n.topic.cursor)
      requires forall u :: u in topics && u != old(n.topic) ==> unchanged(u)
      requires forall m :: m in nodes && m !in old(n.topic.list) ==> unchanged(m`topicNext) && unchanged(m`topicPrev)
      requires cursor != null && cursor != old(n.topic.cursor) ==> unchanged(cursor)
      ensures forall u :: u in topics ==> TopicOk(u)
    {
      forall u | u in topics
        ensures TopicOk(u)
      {
        assert old(TopicOk(u));
        assert old(TopicOk(n.topic));
        NodesOfTopic(old(n.topic));
        if u != old(n.topic) {
          NodesOfTopic(u);
          assert u.tail != null ==> old(Placed(u.tail));
          TopicStaysOk(u);
        } else {
          WithoutIn(old(u.list), n);
          WithoutLast(old(u.list), n);
          if u.tail != null && u.tail in u.list {
            assert u.LinkedAt(|u.list| - 1, null);
          }
        }
      }
    }

    /** A lost node leaves: what was hung behind it now hangs where it hung. */
    twostate lemma ValidAfterLost(n: Subscription)
      requires old(Valid()) && n in old(nodes) && old(Lost(n)) && unchanged(this)
      requires n.topic == null && n.subscriber == null && n.topicNext == old(n.topicNext)
      requires forall m :: m in nodes && m != n ==> unchanged(m`topic) && unchanged(m`subscriber)
      requires forall u :: u in topics ==> unchanged(u)
      requires cursor != null ==> unchanged(cursor)
      requires old(n.Before()).topicNext == n.topicNext
      requires n.topicNext != null ==> n.topicNext.topicPrev == old(n.topicPrev)
      requires forall m :: m in nodes && m != old(n.Before()) ==> unchanged(m`topicNext)
      requires forall m :: m in nodes && m != n.topicNext ==> unchanged(m`topicPrev)
      requires old(n.subscriber).Linked() && old(n.subscriber).list == Without(old(n.subscriber.list), n)
      requires forall r :: r in subscribers && r != old(n.subscriber) ==> unchanged(r)
      requires forall m :: m in nodes && m !in old(n.subscriber.list) ==>
        unchanged(m`subscriberNext) && unchanged(m`subscriberPrev)
      ensures Valid()
    {
      assert old(Placed(n));
      WithoutIn(old(n.subscriber.list), n);
      SubscribersAfterUnlink(n);
      forall u | u in topics
        ensures TopicOk(u)
      {
        assert old(TopicOk(u));
        LostApart(n, u);
        TopicStaysOk(u);
      }
      forall m | m in nodes
        ensures Placed(m)
      {
        assert old(Placed(m));
        if m != n && old(m.topic) != null && old(Lost(m)) {
          StaysLost(n, m);
        }
      }
      forall l, m | l in nodes && m in nodes
        ensures Apart(l, m)
      {
        assert old(Apart(l, m));
      }
    }

    twostate lemma StaysLost(n: Subscription, new m: Subscription)
      requires old(Valid()) && old(Lost(n)) && m in old(nodes) && old(Lost(m)) && m != n && unchanged(this)
      requires n.topic == null && forall x :: x in nodes && x != n ==> unchanged(x`topic)
      requires forall u :: u in topics ==> unchanged(u)
      requires old(n.Before()).topicNext == old(n.topicNext)
      requires old(n.topicNext) != null ==> old(n.topicNext).topicPrev == old(n.topicPrev)
      requires forall x :: x in nodes && x != old(n.Before()) ==> unchanged(x`topicNext)
      requires forall x :: x in nodes && x != old(n.topicNext) ==> unchanged(x`topicPrev)
      ensures Lost(m)
    {
    }

    /** Registering a local pointer on a node leaves the lists alone. */
    twostate lemma ValidIgnoresErasing()
      requires old(Valid()) && unchanged(this)
      requires forall t :: t in topics ==> unchanged(t)
      requires forall s :: s in subscribers ==> unchanged(s)
      requires cursor != null ==> unchanged(cursor)
      requires forall n :: n in nodes ==> unchanged(n`topic) && unchanged(n`topicNext) && unchanged(n`topicPrev)
      requires forall n :: n in nodes ==>
        unchanged(n`subscriber) && unchanged(n`subscriberNext) && unchanged(n`subscriberPrev)
      ensures Valid()
    {
      forall t | t in topics
        ensures TopicOk(t)
      {
        assert old(TopicOk(t));
        TopicStaysOk(t);
      }
      forall s | s in subscribers
        ensures SubscriberOk(s)
      {
        assert old(SubscriberOk(s));
        SubscriberStaysOk(s);
      }
      forall n | n in nodes
        ensures Placed(n)
      {
        assert old(Placed(n));
      }
      forall m, n | m in nodes && n in nodes
        ensures Apart(m, n)
      {
        assert old(Apart(m, n));
      }
    }

    /** The first node's prev cell now is the local variable "cursor". */
    twostate lemma ValidAfterRedirect(t: Topic)
      requires old(Valid()) && old(draining) == null && t in topics && old(t.list) != [] && old(t.cursor) == null
      requires topics == old(topics) && subscribers == old(subscribers) && nodes == old(nodes) && count == old(count)
      requires draining == t && cursor != null && t.cursor == cursor && cursor.node == t.head
      requires t.list == old(t.list) && t.head == old(t.head) && t.tail == old(t.tail)
      requires t.list[0].topicPrev == Local(cursor)
      requires forall u :: u in topics && u != t ==> unchanged(u)
      requires forall s :: s in subscribers ==> unchanged(s)
      requires forall n :: n in nodes ==> unchanged(n`topic) && unchanged(n`topicNext)
      requires forall n :: n in nodes && n != t.list[0] ==> unchanged(n`topicPrev)
      requires forall n :: n in nodes ==>
        unchanged(n`subscriber) && unchanged(n`subscriberNext) && unchanged(n`subscriberPrev)
      ensures Valid()
    {
      assert old(TopicOk(t));
      forall i | 0 <= i < |t.list|
        ensures t.LinkedAt(i, null)
      {
        assert old(t.LinkedAt(i, null));
        assert t.list[i] in t.list && t.list[0] in t.list;
        assert i > 0 ==> Differ(t.list, 0, i);
      }
      forall u | u in topics
        ensures TopicOk(u)
      {
        assert old(TopicOk(u));
        if u != t {
          NodesOfTopic(u);
          NodesOfTopic(t);
          u.LinkedFrame();
        }
      }
      forall s | s in subscribers
        ensures SubscriberOk(s)
      {
        assert old(SubscriberOk(s));
        SubscriberStaysOk(s);
      }
      forall n | n in nodes
        ensures Placed(n)
      {
        assert old(Placed(n));
        if n.topic != null && old(Lost(n)) {
          LostApart(n, t);
          LostStays(n);
        }
      }
      forall m, n | m in nodes && n in nodes
        ensures Apart(m, n)
      {
        assert old(Apart(m, n));
      }
    }

    /** The drained topic's list, now empty, hangs on m_head again. */
    twostate lemma ValidAfterRelease(t: Topic)
      requires old(Valid()) && old(draining) == t && t.list == old(t.list) == []
      requires topics == old(topics) && subscribers == old(subscribers) && nodes == old(nodes) && count == old(count)
      requires draining == null && cursor == null && t.cursor == null && t.head == null && t.tail == null
      requires forall u :: u in topics && u != t ==> unchanged(u)
      requires forall s :: s in subscribers ==> unchanged(s)
      requires forall n :: n in nodes ==> unchanged(n)
      ensures Valid()
    {
      forall u | u in topics
        ensures TopicOk(u)
      {
        assert old(TopicOk(u));
        if u != t {
          u.LinkedFrame();
        }
      }
      forall s | s in subscribers
        ensures SubscriberOk(s)
      {
        assert old(SubscriberOk(s));
        SubscriberStaysOk(s);
      }
      forall n | n in nodes
        ensures Placed(n)
      {
        assert old(Placed(n));
      }
      forall m, n | m in nodes && n in nodes
        ensures Apart(m, n)
      {
        assert old(Apart(m, n));
      }
    }

    /** The new node is on t's list if the tail was current, and otherwise lost behind the tail. */
    twostate lemma NewIsPlaced(n: Subscription, new t: Topic)
      requires old(Valid()) && t in old(topics) && topics == old(topics)
      requires n !in old(nodes) && nodes == old(nodes) + {n}
      requires n.topic == n.home == t && n.serial == old(count) && n.topicNext == null
      requires old(t.list) != [] ==> n.topicPrev == TopicNext(old(t.tail)) && old(t.tail).topicNext == n
      requires old(t.list) != [] ==> old(t.tail) in old(nodes) && old(t.tail).topic == old(t.tail.topic)
      requires t.list == if old(t.TailCurrent()) then old(t.list) + [n] else old(t.list)
      ensures if old(t.TailCurrent()) then n in t.list else Lost(n)
    {
      assert old(TopicOk(t));
      if !old(t.TailCurrent()) {
        assert old(Placed(t.tail));
      }
    }

    twostate lemma LostAfterReserve(m: Subscription, new t: Topic, new n: Subscription)
      requires old(Valid()) && old(Lost(m)) && t in old(topics) && topics == old(topics)
      requires n !in old(nodes) && nodes == old(nodes) + {n} && n.topic == t
      requires n.topicPrev == if old(t.list) == [] then TopicHead(t) else TopicNext(old(t.tail))
      requires old(t.list) != [] ==> old(t.tail).topicNext == n
      requires forall l :: l in old(nodes) ==> unchanged(l`topic) && unchanged(l`topicPrev)
      requires t.list == if old(t.TailCurrent()) then old(t.list) + [n] else old(t.list)
      requires forall u :: u in topics && u != t ==> unchanged(u)
      requires forall l :: l in old(nodes) && (l != old(t.tail) || old(t.list) == []) ==> unchanged(l`topicNext)
      ensures Lost(m)
    {
      assert old(TopicOk(t)) && old(Placed(m));
      assert old(t.list) != [] ==> old(m.Before()) != old(t.tail);
      assert m.Before() == old(m.Before()) && HungBehind(m, m.Before());
    }

    /** The new node n has been put on s's list, and on t's list if t's tail was current. */
    twostate lemma ValidAfterReserve(n: Subscription, new t: Topic, new s: Subscriber)
      requires old(Valid()) && t in old(topics) && s in old(subscribers) && old(t.cursor) == null
      requires !exists m :: m in old(nodes) && old(m.topic) == t && old(m.subscriber) == s
      requires n !in old(nodes) && nodes == old(nodes) + {n} && count == old(count) + 1
      requires topics == old(topics) && subscribers == old(subscribers)
      requires draining == old(draining) && cursor == old(cursor)
      requires cursor != null ==> unchanged(cursor)
      requires n.topic == n.home == t && n.subscriber == s && n.serial == old(count) && n.topicNext == null
      requires n.topicPrev == if old(t.list) == [] then TopicHead(t) else TopicNext(old(t.tail))
      requires old(t.list) != [] ==> old(t.tail).topicNext == n
      requires forall m :: m in old(nodes) ==> unchanged(m`topic) && unchanged(m`subscriber)
      requires t.Linked() && t.cursor == null && t.tail == n
      requires t.list == if old(t.TailCurrent()) then old(t.list) + [n] else old(t.list)
      requires forall u :: u in topics && u != t ==> unchanged(u)
      requires forall m :: m in old(nodes) ==> unchanged(m`topicPrev)
      requires forall m :: m in old(nodes) && (m != old(t.tail) || old(t.list) == []) ==> unchanged(m`topicNext)
      requires s.Linked() && s.list == [n] + old(s.list)
      requires forall r :: r in subscribers && r != s ==> unchanged(r)
      requires forall m :: m in old(nodes) ==> unchanged(m`subscriberNext)
      requires forall m :: m in old(nodes) && m !in old(s.list) ==> unchanged(m`subscriberPrev)
      ensures Valid() && (NoneLost() <==> old(NoneLost()) && old(t.TailCurrent()))
    {
      assert old(TopicOk(t));
      forall u | u in topics
        ensures TopicOk(u)
      {
        assert old(TopicOk(u));
        if u != t {
          NodesOfTopic(u);
          NodesOfTopic(t);
          assert u.tail != null ==> u.tail != old(t.tail);
          TopicStaysOk(u);
        }
      }
      forall r | r in subscribers
        ensures SubscriberOk(r)
      {
        assert old(SubscriberOk(r));
        if r != s {
          NodesOfSubscriber(r);
          NodesOfSubscriber(s);
          SubscriberStaysOk(r);
        }
      }
      forall m | m in old(nodes)
        ensures Placed(m)
      {
        assert old(Placed(m));
        if old(m.topic) != null && old(Lost(m)) {
          LostAfterReserve(m, t, n);
        }
      }
      NewIsPlaced(n, t);
      forall l, m | l in nodes && m in nodes
        ensures Apart(l, m)
      {
        assert l != n ==> old(Placed(l));
        assert m != n ==> old(Placed(m));
        assert l != n && m != n ==> old(Apart(l, m));
      }
    }
  }

  /** Nobody but the last node joins its subscriber to the topic, and others stay when it goes. */
  lemma OnlyTail(g: Graph, t: Topic)
    requires g.Valid() && t in g.topics && t.tail in t.list && |t.list| >= 2
    ensures t.tail in g.nodes && t.tail.topic == t
    ensures forall m :: m in g.nodes && m.topic == t && m.subscriber == t.tail.subscriber ==> m == t.tail
    ensures Without(t.list, t.tail) != [] && t.tail !in Without(t.list, t.tail)
  {
    assert g.TopicOk(t);
    assert t.LinkedAt(|t.list| - 1, null);
    forall m | m in g.nodes && m.topic == t && m.subscriber == t.tail.subscriber
      ensures m == t.tail
    {
      assert g.Apart(m, t.tail);
    }
    WithoutIn(t.list, t.tail);
    WithoutLast(t.list, t.tail);
  }

  /** The subscriber of the last node leaves: m_tail stays behind. */
  method TailLeaves(t: Topic, last: Subscriber, ghost g: Graph)
    requires g.Valid() && g.draining == null && t in g.topics && last in g.subscribers
    requires |t.list| >= 2 && t.tail in t.list && t.tail.subscriber == last
    requires forall n :: n in last.list ==> n.erasing == []
    modifies t, last, last.list, g.nodes`topicNext, g.nodes`topicPrev
    ensures g.Valid() && t.list == Without(old(t.list), old(t.tail)) && t.list != []
    ensures !t.TailCurrent()
  {
    OnlyTail(g, t);
    var done, gone := last.Unsubscribe(t, {}, g);
  }

  /** The next subscriber to come is lost: it is on its own list and takes itself for subscribed,
      but the topic cannot reach it. */
  method NextIsLost(t: Topic, last: Subscriber, next: Subscriber, ghost g: Graph) returns (lost: Subscription?)
    requires g.Valid() && g.draining == null && t in g.topics && last in g.subscribers && next in g.subscribers
    requires |t.list| >= 2 && t.tail in t.list && t.tail.subscriber == last
    requires last != next && next.list == [] && forall n :: n in last.list ==> n.erasing == []
    modifies t, last, next, last.list, g`nodes, g`count, g.nodes`topicNext, g.nodes`topicPrev, g.nodes`subscriberPrev
    ensures g.Valid() && lost != null && next.list == [lost] && lost.topic == t && lost.subscriber == next
    ensures t.list == Without(old(t.list), old(t.tail)) && t.list != [] && g.Lost(lost)
  {
    TailLeaves(t, last, g);
    next.NodesPlaced(g);
    lost := t.ReserveSubscribe(next, g);
    assert g.Placed(lost);
  }
}
