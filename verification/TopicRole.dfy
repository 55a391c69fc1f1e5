/** What all topics share (thread/topic/Role.h, meta/Timestamp.h): contents with a mutable
    timestamp, subscriptions as the publishing thread sees them, and its tasks.
 */
module TopicRole {
  import opened TopicList

  type ObjectId = nat
  type Timestamp = nat

  const V_INSERT: Timestamp := 0
  const V_UPDATE: Timestamp := 1
  const V_REMOVE: Timestamp := 2
  const V_CLEAR: Timestamp := 3

  predicate Removed(v: Timestamp) {
    v == V_REMOVE
  }

  /** The values the rest of the program goes by (meta/Timestamp.h:15-18). */
  lemma TimestampValues(v: Timestamp)
    ensures (Removed(v) <==> v == 2) && V_INSERT == 0 && V_UPDATE == 1 && V_REMOVE == 2 && V_CLEAR == 3
  {
  }

  /** A published object: its identity never changes, its timestamp is rewritten in place. */
  class Content {
    const id: ObjectId
    var timestamp: Timestamp

    constructor (id: ObjectId, timestamp: Timestamp)
      ensures this.id == id && this.timestamp == timestamp
    {
      this.id, this.timestamp := id, timestamp;
    }
  }

  /** What a subscriber is told: on_publish, with the timestamp it sees at that moment,
      on_clear_content and on_erase_topic. */
  datatype Event =
    | Published(content: Content, timestamp: Timestamp)
    | Cleared
    | Erased

  /** A subscription; of the topic's intrusive list of them its users keep what TopicList says. */
  class Subscription {
    var linked: bool        // m_subscriber is not null
    var working: bool       // m_working
    var events: seq<Event>  // the calls made to the subscriber through this subscription
    ghost var snapshot: seq<Event>   // those of them made by its snapshot task

    constructor ()
      ensures linked && !working && events == [] && snapshot == []
    {
      linked, working, events, snapshot := true, false, [], [];
    }

    method OnPublish(c: Content)
      modifies this`events
      ensures events == old(events) + [Published(c, c.timestamp)]
    {
      events := events + [Published(c, c.timestamp)];
    }
  }

  /** The tasks of the single publishing thread, run first in, first out. */
  datatype Task =
    | PublishSnap(subscription: Subscription)
    | PublishNew
    | EraseTopic
    | ClearContent

  /** What running a task tells a working subscription on the topic's list, but for objects. */
  function Said(task: Task): seq<Event> {
    match task
    case EraseTopic => [Erased]
    case ClearContent => [Cleared]
    case _ => []
  }

  /** The calls on_publish makes when it is called with each content in turn. */
  ghost function Told(contents: seq<Content>): (r: seq<Event>)
    reads contents
    ensures |r| == |contents|
    ensures forall i :: 0 <= i < |r| ==> r[i] == Published(contents[i], contents[i].timestamp)
  {
    seq(|contents|, i requires 0 <= i < |contents| reads contents => Published(contents[i], contents[i].timestamp))
  }

  ghost predicate Distinct(list: seq<Subscription>) {
    forall i, j :: 0 <= i < j < |list| ==> list[i] != list[j]
  }

  function Cut(list: seq<Subscription>, k: nat): seq<Subscription>
    requires k < |list|
  {
    list[..k] + list[k + 1..]
  }

  lemma CutFacts(list: seq<Subscription>, k: nat)
    requires k < |list| && Distinct(list)
    ensures Distinct(Cut(list, k)) && forall r :: r in Cut(list, k) <==> r in list && r != list[k]
  {
    var rest := Cut(list, k);
    forall r | r in list && r != list[k]
      ensures r in rest
    {
      var i :| 0 <= i < |list| && list[i] == r;
      assert rest[if i < k then i else i - 1] == r;
    }
  }

  /** A subscription leaves the list it may be on; m_tail stays where it is. */
  method LeaveList(list: seq<Subscription>, tailCurrent: bool, s: Subscription)
    returns (rest: seq<Subscription>, current: bool, ghost k: nat)
    requires Distinct(list) && TopicList(list, tailCurrent).Ok()
    ensures Distinct(rest) && TopicList(rest, current).Ok()
    ensures forall r :: r in rest <==> r in list && r != s
    ensures if s in list
      then k < |list| && s == list[k] && TopicList(rest, current) == TopicList(list, tailCurrent).Left(s, Cut(list, k))
      else rest == list && current == tailCurrent
  {
    rest, current, k := list, tailCurrent, 0;
    if s in list {
      var i :| 0 <= i < |list| && list[i] == s;
      CutFacts(list, i);
      k, rest, current := i, Cut(list, i), |list| == 1 || (tailCurrent && i != |list| - 1);
    }
  }

  /** Call on_publish with each content in turn. */
  method Deliver(s: Subscription, contents: seq<Content>)
    modifies s`events
    ensures s.events == old(s.events) + Told(contents)
  {
    for i := 0 to |contents|
      invariant s.events == old(s.events) + Told(contents[..i])
    {
      s.OnPublish(contents[i]);
      assert Told(contents[..i + 1]) == Told(contents[..i]) + [Published(contents[i], contents[i].timestamp)];
    }
    assert contents[..|contents|] == contents;
  }

  /** The loop of publish_new over the topic's list: each working subscriber gets each content. */
  method DeliverToWorking(subscribers: seq<Subscription>, news: seq<Content>)
    requires Distinct(subscribers)
    modifies subscribers`events
    ensures forall s :: s in subscribers ==> s.events == old(s.events) + (if s.working then Told(news) else [])
  {
    var i := 0;
    while i < |subscribers|
      invariant 0 <= i <= |subscribers|
      invariant forall j :: 0 <= j < i ==>
        subscribers[j].events == old(subscribers[j].events) + (if subscribers[j].working then Told(news) else [])
      invariant forall j :: i <= j < |subscribers| ==> subscribers[j].events == old(subscribers[j].events)
    {
      var node := subscribers[i];
      if node.working {
        Deliver(node, news);
      }
      i := i + 1;
    }
  }

  /** The loop of publish_erase_topic and publish_clear_content over the topic's list. */
  method TellWorking(subscribers: seq<Subscription>, e: Event)
    requires Distinct(subscribers)
    modifies subscribers`events
    ensures forall s :: s in subscribers ==> s.events == old(s.events) + (if s.working then [e] else [])
  {
    var i := 0;
    while i < |subscribers|
      invariant 0 <= i <= |subscribers|
      invariant forall j :: 0 <= j < i ==>
        subscribers[j].events == old(subscribers[j].events) + (if subscribers[j].working then [e] else [])
      invariant forall j :: i <= j < |subscribers| ==> subscribers[j].events == old(subscribers[j].events)
    {
      var node := subscribers[i];
      if node.working {
        node.events := node.events + [e];
      }
      i := i + 1;
    }
  }

  // What both kinds of topic keep about their subscriptions and tasks.

  /** A subscription reserved behind a stale tail is lost: it takes itself for linked, but is not on
      the topic's list, and is told its snapshot and no more. */
  ghost predicate Rostered(s: Subscription, subscribers: seq<Subscription>, lost: set<Subscription>,
                           working: set<Subscription>, linked: set<Subscription>)
    reads s
  {
    && (s.working <==> s in working) && (s.linked <==> s in linked)
    && (if s in lost then s !in subscribers else s.linked <==> s in subscribers)
    && (!s.working ==> s.events == [])
    && (s in lost && s.working ==> s.events == s.snapshot)
  }

  /** A snapshot task is posted once for each subscription, before it works; every linked one that
      does not work yet will get it; and pending contents have a publish task, or their producer
      is about to post it. */
  ghost predicate TasksOk(tasks: seq<Task>, reserved: set<Subscription>, all: set<Subscription>,
                          working: set<Subscription>, linked: set<Subscription>, pending: bool, unposted: nat) {
    && (forall i :: 0 <= i < |tasks| ==> TaskOk(tasks, i, reserved, all, working))
    && (forall i, j :: 0 <= i < j < |tasks| ==> TasksDiffer(tasks, i, j))
    && reserved <= all && reserved !! working
    && (forall s :: s in linked && s !in working ==> s in reserved || PublishSnap(s) in tasks)
    && (pending ==> unposted > 0 || PublishNew in tasks)
  }

  ghost predicate TaskOk(tasks: seq<Task>, i: nat, reserved: set<Subscription>, all: set<Subscription>, working: set<Subscription>)
    requires i < |tasks|
  {
    tasks[i].PublishSnap? ==>
      tasks[i].subscription in all && tasks[i].subscription !in working && tasks[i].subscription !in reserved
  }

  ghost predicate TasksDiffer(tasks: seq<Task>, i: nat, j: nat)
    requires i < j < |tasks|
  {
    tasks[i].PublishSnap? ==> tasks[i] != tasks[j]
  }

  /** The front task is taken and run: a snapshot task makes a linked subscription work, publish_new
      leaves nothing pending, and no task links a subscription. */
  lemma TasksAfterFront(tasks: seq<Task>, reserved: set<Subscription>, all: set<Subscription>,
                        working: set<Subscription>, linked: set<Subscription>, pending: bool, unposted: nat,
                        working': set<Subscription>, linked': set<Subscription>, pending': bool)
    requires tasks != [] && TasksOk(tasks, reserved, all, working, linked, pending, unposted)
    requires linked' <= linked && (pending' ==> pending && tasks[0] != PublishNew)
    requires working' == working + if tasks[0].PublishSnap? && tasks[0].subscription in linked then {tasks[0].subscription} else {}
    ensures TasksOk(tasks[1..], reserved, all, working', linked', pending', unposted)
  {
    var rest := tasks[1..];
    assert TaskOk(tasks, 0, reserved, all, working);
    forall i | 0 <= i < |rest|
      ensures TaskOk(rest, i, reserved, all, working')
    {
      assert TaskOk(tasks, i + 1, reserved, all, working) && TasksDiffer(tasks, 0, i + 1);
    }
    forall i, j | 0 <= i < j < |rest|
      ensures TasksDiffer(rest, i, j)
    {
      assert TasksDiffer(tasks, i + 1, j + 1);
    }
    assert tasks == [tasks[0]] + rest;
  }

  lemma TasksReserve(tasks: seq<Task>, reserved: set<Subscription>, all: set<Subscription>,
                     working: set<Subscription>, linked: set<Subscription>, pending: bool, unposted: nat, s: Subscription)
    requires TasksOk(tasks, reserved, all, working, linked, pending, unposted) && s !in all && s !in working
    ensures TasksOk(tasks, reserved + {s}, all + {s}, working, linked + {s}, pending, unposted)
  {
    forall i | 0 <= i < |tasks|
      ensures TaskOk(tasks, i, reserved + {s}, all + {s}, working)
    {
      assert TaskOk(tasks, i, reserved, all, working);
    }
  }

  lemma TasksFewerLinked(tasks: seq<Task>, reserved: set<Subscription>, all: set<Subscription>, working: set<Subscription>,
                         linked: set<Subscription>, pending: bool, unposted: nat, linked': set<Subscription>)
    requires TasksOk(tasks, reserved, all, working, linked, pending, unposted) && linked' <= linked
    ensures TasksOk(tasks, reserved, all, working, linked', pending, unposted)
  {
  }

  lemma TasksPosted(tasks: seq<Task>, task: Task, reserved: set<Subscription>, all: set<Subscription>,
                    working: set<Subscription>, linked: set<Subscription>, pending: bool, unposted: nat, unposted': nat)
    requires TasksOk(tasks, reserved, all, working, linked, pending, unposted)
    requires task.PublishSnap? ==> task.subscription in reserved
    requires task == PublishNew || unposted' == unposted
    ensures TasksOk(tasks + [task], if task.PublishSnap? then reserved - {task.subscription} else reserved,
                    all, working, linked, pending, unposted')
  {
    var more := tasks + [task];
    var reserved' := if task.PublishSnap? then reserved - {task.subscription} else reserved;
    forall i | 0 <= i < |more|
      ensures TaskOk(more, i, reserved', all, working)
    {
      assert i < |tasks| ==> TaskOk(tasks, i, reserved, all, working);
    }
    forall i, j | 0 <= i < j < |more|
      ensures TasksDiffer(more, i, j)
    {
      assert j < |tasks| ==> TasksDiffer(tasks, i, j);
      assert TaskOk(tasks, i, reserved, all, working);
    }
  }
}
