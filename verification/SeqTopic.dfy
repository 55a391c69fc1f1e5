/** SeqTopic (thread/topic/Topic.h:82-142) under its publishing thread: a growing history that every
    subscriber on the topic's list receives whole, in order and once.  publish_new takes two steps,
    with anything in between: moving what is pending, and delivering it.
 */
module SeqTopic {
  import opened TopicList
  import opened TopicRole

  /** The contents a subscriber holds after a sequence of calls: a clear discards the earlier ones. */
  function Held(events: seq<Event>): seq<Content> {
    if events == [] then []
    else match events[|events| - 1]
      case Published(c, _) => Held(events[..|events| - 1]) + [c]
      case Cleared => []
      case Erased => []
  }

  lemma {:induction false} HeldAfterDelivery(before: seq<Event>, news: seq<Content>)
    ensures Held(before + Told(news)) == Held(before) + news
  {
    if news == [] {
      assert before + Told(news) == before;
    } else {
      var z := |news| - 1;
      assert (before + Told(news))[..|before| + z] == before + Told(news[..z]);
      HeldAfterDelivery(before, news[..z]);
      assert news == news[..z] + [news[z]];
    }
  }

  lemma HeldOfTold(contents: seq<Content>)
    ensures Held(Told(contents)) == contents && contents + [] == contents
  {
    HeldAfterDelivery([], contents);
    assert [] + Told(contents) == Told(contents) && Held([]) + contents == contents;
  }

  lemma HeldAfterClear(before: seq<Event>)
    ensures Held(before + [Cleared]) == []
  {
    assert (before + [Cleared])[|before|] == Cleared;
  }

  class SeqTopic {
    var newSet: seq<Content>             // m_new_set
    var snapSet: seq<Content>            // m_snap_set
    var inFlight: seq<Content>           // moved by publish_new, not delivered yet
    var subscribers: seq<Subscription>   // the topic's list
    var tailCurrent: bool                // m_tail is on it
    var tasks: seq<Task>                 // this topic's tasks in the publishing thread's queue

    ghost var appended: seq<Content>       // every content appended since the last clear
    ghost var all: set<Subscription>       // every subscription made so far
    ghost var lost: set<Subscription>      // those reserved behind a stale tail
    ghost var working: set<Subscription>   // those confirmed by their snapshot task
    ghost var linked: set<Subscription>    // those not unsubscribed
    ghost var unposted: nat                // appends whose publish task has not been posted yet
    ghost var reserved: set<Subscription>  // subscriptions whose snapshot task has not been posted yet

    ghost function View(): TopicList<Subscription>
      reads `subscribers, `tailCurrent
    {
      TopicList(subscribers, tailCurrent)
    }

    ghost predicate SubscriptionOk(s: Subscription)
      reads `snapSet, `inFlight, `subscribers, `lost, `working, `linked, s
    {
      && Rostered(s, subscribers, lost, working, linked)
      && (s.working && s in subscribers ==> Held(s.events) + inFlight == snapSet)
    }

    ghost predicate Core()
      reads this, all
    {
      && appended == snapSet + newSet && View().Ok()
      && (forall s :: s in subscribers ==> s in all)
      && lost <= all && working <= all && linked <= all && Distinct(subscribers)
      && (forall s :: s in all ==> SubscriptionOk(s))
    }

    ghost predicate Valid()
      reads this, all
    {
      Core() && TasksOk(tasks, reserved, all, working, linked, newSet != [], unposted)
    }

    constructor ()
      ensures Valid()
      ensures newSet == snapSet == appended == inFlight == [] && View() == Empty() && tasks == []
      ensures all == lost == reserved == working == linked == {} && unposted == 0
    {
      newSet, snapSet, appended, inFlight, subscribers, tailCurrent, tasks := [], [], [], [], [], true, [];
      all, lost, reserved, working, linked, unposted := {}, {}, {}, {}, {}, 0;
    }

    method Append(content: Content)
      requires Valid()
      modifies this`newSet, this`appended, this`unposted
      ensures Valid() && newSet == old(newSet) + [content] && unposted == old(unposted) + 1
      ensures appended == old(appended) + [content]
    {
      newSet := newSet + [content];
      appended, unposted := appended + [content], unposted + 1;
    }

    method PostNew()
      requires Valid() && unposted > 0
      modifies this`tasks, this`unposted
      ensures Valid() && tasks == old(tasks) + [PublishNew] && unposted == old(unposted) - 1
    {
      TasksPosted(tasks, PublishNew, reserved, all, working, linked, newSet != [], unposted, unposted - 1);
      tasks, unposted := tasks + [PublishNew], unposted - 1;
    }

    /** reserve_subscribe: on the list if m_tail is, else lost. */
    method Reserve() returns (s: Subscription)
      requires Valid()
      modifies this`subscribers, this`all, this`lost, this`reserved, this`linked
      ensures Valid() && fresh(s) && s.linked && !s.working && s.events == []
      ensures View() == old(View()).Reserved(s) && lost == old(lost) + if tailCurrent then {} else {s}
      ensures all == old(all) + {s} && reserved == old(reserved) + {s}
    {
      s := AddToRoster();
      TasksReserve(tasks, old(reserved), old(all), working, old(linked), newSet != [], unposted, s);
    }

    method AddToRoster() returns (s: Subscription)
      requires Core()
      modifies this`subscribers, this`all, this`lost, this`reserved, this`linked
      ensures Core() && fresh(s) && s.linked && !s.working && s.events == []
      ensures View() == old(View()).Reserved(s) && lost == old(lost) + if tailCurrent then {} else {s}
      ensures all == old(all) + {s} && linked == old(linked) + {s} && reserved == old(reserved) + {s} && s !in old(all)
    {
      s := new Subscription();
      if tailCurrent {
        subscribers := subscribers + [s];
      } else {
        lost := lost + {s};
      }
      all, reserved, linked := all + {s}, reserved + {s}, linked + {s};
      forall r | r in all
        ensures SubscriptionOk(r)
      {
        assert r != s ==> old(SubscriptionOk(r));
      }
    }

    method PostSnap(s: Subscription)
      requires Valid() && s in reserved
      modifies this`tasks, this`reserved
      ensures Valid() && tasks == old(tasks) + [PublishSnap(s)] && reserved == old(reserved) - {s}
    {
      TasksPosted(tasks, PublishSnap(s), reserved, all, working, linked, newSet != [], unposted, unposted);
      tasks, reserved := tasks + [PublishSnap(s)], reserved - {s};
    }

    /** s leaves position k of the topic's list, if it was on it. */
    method Unsubscribe(s: Subscription) returns (ghost k: nat)
      requires Valid() && s in all && s.linked
      modifies this`subscribers, this`tailCurrent, this`linked, s`linked
      ensures Valid() && !s.linked && linked == old(linked) - {s}
      ensures if s in lost then View() == old(View()) else
        k < |old(subscribers)| && s == old(subscribers)[k] && View() == old(View()).Left(s, Cut(old(subscribers), k))
    {
      k := RemoveFromRoster(s);
      TasksFewerLinked(tasks, reserved, all, working, old(linked), newSet != [], unposted, linked);
    }

    method RemoveFromRoster(s: Subscription) returns (ghost k: nat)
      requires Core() && s in all && s.linked
      modifies this`subscribers, this`tailCurrent, this`linked, s`linked
      ensures Core() && !s.linked && linked == old(linked) - {s}
      ensures if s in lost then View() == old(View()) else
        k < |old(subscribers)| && s == old(subscribers)[k] && View() == old(View()).Left(s, Cut(old(subscribers), k))
    {
      assert SubscriptionOk(s);
      subscribers, tailCurrent, k := LeaveList(subscribers, tailCurrent, s);
      s.linked, linked := false, linked - {s};
      RosterAfterUnlinking({s});
    }

    /** Some subscriptions leave the list and are no longer linked. */
    twostate lemma RosterAfterUnlinking(gone: set<Subscription>)
      requires old(Core()) && View().Ok() && Distinct(subscribers)
      requires forall r :: r in subscribers <==> r in old(subscribers) && r !in gone
      requires linked == old(linked) - gone && lost == old(lost) && working == old(working) && all == old(all)
      requires newSet == old(newSet) && snapSet == old(snapSet) && appended == old(appended) && inFlight == old(inFlight)
      requires forall r :: r in all ==> r.linked == (old(r.linked) && r !in gone)
      requires forall r :: r in all ==> r.working == old(r.working) && r.snapshot == old(r.snapshot)
      requires forall r :: r in all ==> r.events == old(r.events) || (r in gone && r in old(subscribers) && r.working)
      ensures Core()
    {
      forall r | r in all
        ensures SubscriptionOk(r)
      {
        assert old(SubscriptionOk(r));
      }
    }

    /** clear_content and erase_topic only post. */
    method Post(task: Task)
      requires Valid() && (task.ClearContent? || task.EraseTopic?)
      modifies this`tasks
      ensures Valid() && tasks == old(tasks) + [task]
    {
      TasksPosted(tasks, task, reserved, all, working, linked, newSet != [], unposted, unposted);
      tasks := tasks + [task];
    }

    // What the publishing thread runs.

    method DoMove() returns (news: seq<Content>)
      modifies this`snapSet, this`newSet
      ensures news == old(newSet) && newSet == [] && snapSet == old(snapSet) + news
    {
      news := [];
      for i := 0 to |newSet|
        invariant newSet == old(newSet) && news == newSet[..i] && snapSet == old(snapSet) + news
      {
        news, snapSet := news + [newSet[i]], snapSet + [newSet[i]];
      }
      newSet := [];
    }

    /** publish_snap: the history so far, unless the subscription has been unsubscribed meanwhile. */
    method PublishSnapshot(s: Subscription)
      requires Core() && inFlight == [] && s in all && !s.working
      modifies this`working, s`working, s`events, s`snapshot
      ensures Core() && (s.working <==> s.linked)
      ensures s.events == s.snapshot == (if s.linked then Told(snapSet) else []) && Heard(PublishSnap(s))
      ensures working == old(working) + if s.linked then {s} else {}
    {
      assert SubscriptionOk(s);
      Confirm(s);
      RosterAfterSnapshot(s);
    }

    method Confirm(s: Subscription)
      requires s.events == [] && !s.working
      modifies this`working, s`working, s`events, s`snapshot
      ensures s.working == s.linked && working == old(working) + if s.linked then {s} else {}
      ensures s.events == s.snapshot == if s.linked then Told(snapSet) else []
    {
      if s.linked {
        s.working, working := true, working + {s};
        Deliver(s, snapSet);
        assert [] + Told(snapSet) == Told(snapSet);
      }
      s.snapshot := s.events;
    }

    twostate lemma RosterAfterSnapshot(s: Subscription)
      requires old(Core()) && s in all && !old(s.working) && inFlight == old(inFlight) == []
      requires View() == old(View()) && all == old(all) && lost == old(lost) && linked == old(linked)
      requires newSet == old(newSet) && snapSet == old(snapSet) && appended == old(appended)
      requires s.linked == old(s.linked) && s.working == s.linked
      requires s.events == s.snapshot == if s.linked then Told(snapSet) else []
      requires working == old(working) + if s.linked then {s} else {}
      requires forall r :: r in all && r != s ==> unchanged(r)
      ensures Core()
    {
      HeldOfTold(snapSet);
      forall r | r in all
        ensures SubscriptionOk(r)
      {
        assert old(SubscriptionOk(r));
      }
    }

    /** The first step of publish_new: what was pending goes to the history. */
    method MoveNew()
      requires Core() && inFlight == []
      modifies this`snapSet, this`newSet, this`inFlight
      ensures Core() && newSet == [] && snapSet == appended == old(appended) && inFlight == old(newSet)
    {
      inFlight := DoMove();
      forall s | s in all
        ensures SubscriptionOk(s)
      {
        assert old(SubscriptionOk(s));
      }
    }

    /** The second: it is told to every working subscriber on the list. */
    method DeliverNew()
      requires Valid()
      modifies this`inFlight, all`events
      ensures Valid() && inFlight == []
      ensures forall s :: s in all ==>
        s.events == old(s.events) + (if s in subscribers && s.working then Told(old(inFlight)) else [])
    {
      var news := inFlight;
      inFlight := [];
      DeliverToWorking(subscribers, news);
      RosterAfterDelivery(news);
    }

    twostate lemma RosterAfterDelivery(news: seq<Content>)
      requires old(Core()) && inFlight == [] && news == old(inFlight)
      requires newSet == old(newSet) && snapSet == old(snapSet) && appended == old(appended)
      requires View() == old(View()) && all == old(all) && lost == old(lost) && working == old(working) && linked == old(linked)
      requires forall s :: s in all ==> unchanged(s`linked) && unchanged(s`working) && unchanged(s`snapshot)
      requires forall s :: s in all ==>
        s.events == old(s.events) + (if s in subscribers && s.working then Told(news) else [])
      ensures Core()
    {
      forall s | s in all
        ensures SubscriptionOk(s)
      {
        assert old(SubscriptionOk(s));
        HeldAfterDelivery(old(s.events), news);
        assert Held(old(s.events)) + news + [] == Held(old(s.events)) + news;
      }
    }

    method PublishErase()
      requires Core() && inFlight == []
      modifies this`subscribers, this`tailCurrent, this`linked, all`events, all`linked
      ensures Core() && View() == Empty() && linked <= old(linked) && Heard(EraseTopic)
      ensures forall s :: s in all ==>
        s.events == old(s.events) + (if s in old(subscribers) && s.working then [Erased] else [])
    {
      ghost var gone := set s | s in subscribers;
      TellWorking(subscribers, Erased);
      UnlinkListed();
      RosterAfterUnlinking(gone);
      ListedAreLinked();
    }

    method UnlinkListed()
      requires forall s :: s in subscribers ==> s in all
      modifies this`subscribers, this`tailCurrent, this`linked, all`linked
      ensures View() == Empty() && linked == old(linked) - set s | s in old(subscribers)
      ensures forall s :: s in all ==> (s.linked <==> old(s.linked) && s !in old(subscribers))
    {
      forall s | s in subscribers {
        s.linked := false;
      }
      linked := linked - set s | s in subscribers;
      subscribers, tailCurrent := [], true;
    }

    /** Whoever is linked is on the list or lost. */
    twostate lemma ListedAreLinked()
      requires old(Core())
      ensures forall s :: s in old(all) && old(s.linked) ==> (s in old(subscribers) <==> s !in old(lost))
    {
      forall s | s in old(all) && old(s.linked)
        ensures s in old(subscribers) <==> s !in old(lost)
      {
        assert old(SubscriptionOk(s));
      }
    }

    method PublishClear()
      requires Core() && inFlight == []
      modifies this`snapSet, this`newSet, this`appended, all`events
      ensures Core() && newSet == snapSet == appended == [] && Heard(ClearContent)
      ensures forall s :: s in all ==>
        s.events == old(s.events) + (if s in subscribers && s.working then [Cleared] else [])
    {
      snapSet, newSet, appended := [], [], [];
      TellWorking(subscribers, Cleared);
      RosterAfterClear();
    }

    twostate lemma RosterAfterClear()
      requires old(Core()) && newSet == snapSet == appended == inFlight == []
      requires View() == old(View()) && all == old(all) && lost == old(lost) && working == old(working) && linked == old(linked)
      requires forall s :: s in all ==> unchanged(s`linked) && unchanged(s`working) && unchanged(s`snapshot)
      requires forall s :: s in all ==>
        s.events == old(s.events) + (if s in subscribers && s.working then [Cleared] else [])
      ensures Core()
    {
      forall s | s in all
        ensures SubscriptionOk(s)
      {
        assert old(SubscriptionOk(s));
        HeldAfterClear(old(s.events));
      }
    }

    /** What running a task changes; of publish_new the delivery is still to come. */
    twostate predicate Ran(task: Task)
      reads this
    {
      && newSet == (if task.PublishNew? || task.ClearContent? then [] else old(newSet))
      && inFlight == (if task.PublishNew? then old(newSet) else [])
      && appended == (if task.ClearContent? then [] else old(appended))
      && View() == (if task.EraseTopic? then Empty() else old(View()))
    }

    /** What it tells and whom it unlinks. */
    twostate predicate Heard(task: Task)
      reads this, all
    {
      && all == old(all)
      && (forall s :: s in old(all) ==> (s.linked <==> old(s.linked) && (task.EraseTopic? ==> s in lost)))
      && (forall s :: s in old(all) && task != PublishSnap(s) ==>
            && s.working == old(s.working)
            && s.events == old(s.events) + if s in old(subscribers) && s.working then Said(task) else [])
    }

    /** Run a task: a snapshot task tells its subscription the history, if that is still linked. */
    method Run(task: Task)
      requires Core() && inFlight == []
      requires task.PublishSnap? ==> task.subscription in all && !task.subscription.working
      modifies this`newSet, this`snapSet, this`inFlight, this`appended, this`subscribers, this`tailCurrent,
        this`working, this`linked, all
      ensures Core() && linked <= old(linked)
      ensures working == old(working) +
        if task.PublishSnap? && task.subscription in old(linked) then {task.subscription} else {}
      ensures Ran(task) && Heard(task)
      ensures match task
        case PublishSnap(s) => s.working == old(s.linked) && s.events == if s.working then Told(snapSet) else []
        case _ => true
    {
      match task {
        case PublishSnap(s) => PublishSnapshot(s);
        case PublishNew => MoveNew();
        case EraseTopic => PublishErase();
        case ClearContent => PublishClear();
      }
    }

    /** The publishing thread takes the front task. */
    method RunTask()
      requires Valid() && inFlight == [] && tasks != []
      modifies this`tasks, this`newSet, this`snapSet, this`inFlight, this`appended, this`subscribers, this`tailCurrent,
        this`working, this`linked, all
      ensures Valid() && tasks == old(tasks)[1..] && Ran(old(tasks)[0]) && Heard(old(tasks)[0])
      ensures match old(tasks)[0]
        case PublishSnap(s) => s.working == old(s.linked) && s.events == if s.working then Told(snapSet) else []
        case _ => true
      ensures forall s :: s in all && !old(s.linked) ==> s.events == old(s.events) && !s.linked
      ensures forall s :: s in lost && old(tasks)[0] != PublishSnap(s) ==> s.events == old(s.events)
    {
      assert TaskOk(tasks, 0, reserved, all, working);
      TakeTask();
      OnlyListedHear(old(tasks)[0]);
    }

    method TakeTask()
      requires Valid() && inFlight == [] && tasks != []
      modifies this`tasks, this`newSet, this`snapSet, this`inFlight, this`appended, this`subscribers, this`tailCurrent,
        this`working, this`linked, all
      ensures Valid() && tasks == old(tasks)[1..] && Ran(old(tasks)[0]) && Heard(old(tasks)[0])
      ensures match old(tasks)[0]
        case PublishSnap(s) => s.working == old(s.linked) && s.events == if s.working then Told(snapSet) else []
        case _ => true
    {
      var task := tasks[0];
      assert TaskOk(tasks, 0, reserved, all, working);
      tasks := tasks[1..];
      Run(task);
      TasksAfterFront(old(tasks), reserved, all, old(working), old(linked), old(newSet != []), unposted,
                      working, linked, newSet != []);
    }

    /** Who has left or is lost is told nothing, but for its snapshot. */
    twostate lemma OnlyListedHear(task: Task)
      requires old(Core()) && Heard(task) && lost == old(lost)
      requires match task
        case PublishSnap(s) => s in all && !old(s.working) && (!old(s.linked) ==> s.events == [])
        case _ => true
      ensures forall s :: s in all && !old(s.linked) ==> s.events == old(s.events) && !s.linked
      ensures forall s :: s in lost && task != PublishSnap(s) ==> s.events == old(s.events)
    {
      forall s | s in all
        ensures !old(s.linked) ==> s.events == old(s.events) && !s.linked
        ensures s in lost && task != PublishSnap(s) ==> s.events == old(s.events)
      {
        assert old(SubscriptionOk(s));
      }
    }

    /** Delivered exactly once and in order: what a working subscriber on the list holds, followed by
        what is on its way to it and what is pending, is everything appended since the last clear. */
    lemma DeliveredInOrder(s: Subscription)
      requires Valid() && s in all && s.linked && s.working && s !in lost
      ensures Held(s.events) + inFlight == snapSet
      ensures Held(s.events) + inFlight + newSet == appended
    {
      assert SubscriptionOk(s);
    }

    /** One that was reserved while m_tail was stale holds its snapshot, and nothing later. */
    lemma LostHoldsSnapshot(s: Subscription)
      requires Valid() && s in lost
      ensures s.events == if s.working then s.snapshot else []
    {
      assert SubscriptionOk(s);
    }

    /** Once every posted task has run, every linked subscriber works; it holds everything appended
        unless it is lost. */
    lemma DeliveredWhenDrained()
      requires Valid() && tasks == [] && unposted == 0 && reserved == {} && inFlight == []
      ensures forall s :: s in all && s.linked ==>
        s.working && if s in lost then s.events == s.snapshot else Held(s.events) == appended
    {
      forall s | s in all && s.linked
        ensures s.working && if s in lost then s.events == s.snapshot else Held(s.events) == appended
      {
        assert SubscriptionOk(s);
      }
    }
  }

  /** How one is lost: the last of several leaves, and the next one comes. */
  method NextIsLost(topic: SeqTopic, last: Subscription) returns (next: Subscription)
    requires topic.Valid() && topic.tailCurrent && |topic.subscribers| >= 2
    requires last == topic.subscribers[|topic.subscribers| - 1]
    modifies topic, last
    ensures topic.Valid() && next in topic.lost && next.linked && next !in topic.subscribers
  {
    assert topic.SubscriptionOk(last);
    var _ := topic.Unsubscribe(last);
    next := topic.Reserve();
  }
}
