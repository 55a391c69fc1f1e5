/** SetTopic (thread/topic/Topic.h:166-297) under its publishing thread.  One Content object can be
    in m_new_set, m_snap_set and m_objects at once, and in the batch being delivered; append and
    remove rewrite its timestamp in place, so what a container means changes under it.  publish_new
    takes two steps, moving what is pending and delivering it; remove takes four, finding the
    object, stamping it, appending it and posting.  Anything can come in between.
 */
module SetTopic {
  import opened TopicList
  import opened TopicRole

  // What a receiver makes of a sequence of calls.

  function Put(m: map<ObjectId, Content>, e: Event): map<ObjectId, Content> {
    match e
    case Published(c, v) => if Removed(v) then m - {c.id} else m[c.id := c]
    case Cleared => map[]
    case Erased => map[]
  }

  function Fold(events: seq<Event>, m: map<ObjectId, Content>): map<ObjectId, Content> {
    if events == [] then m
    else Put(Fold(events[..|events| - 1], m), events[|events| - 1])
  }

  ghost predicate SameAt(m: map<ObjectId, Content>, n: map<ObjectId, Content>, k: ObjectId) {
    (k in m <==> k in n) && (k in m ==> m[k] == n[k])
  }

  ghost predicate Mentions(events: seq<Event>, k: ObjectId) {
    exists i :: 0 <= i < |events| && events[i].Published? && events[i].content.id == k
  }

  ghost predicate AllPublished(events: seq<Event>) {
    forall i :: 0 <= i < |events| ==> events[i].Published?
  }

  lemma {:induction false} FoldConcat(a: seq<Event>, b: seq<Event>, m: map<ObjectId, Content>)
    ensures Fold(a + b, m) == Fold(b, Fold(a, m))
  {
    if b == [] {
      assert a + b == a;
    } else {
      assert (a + b)[..|a + b| - 1] == a + b[..|b| - 1];
      FoldConcat(a, b[..|b| - 1], m);
    }
  }

  /** What a fold makes of key k depends only on the entries for k, and not on the start when
      there is one. */
  lemma {:induction false} FoldLocal(a: seq<Event>, b: seq<Event>, m: map<ObjectId, Content>, n: map<ObjectId, Content>, k: ObjectId)
    requires |a| == |b| && AllPublished(a) && AllPublished(b)
    requires forall i :: 0 <= i < |a| ==> a[i].content == b[i].content
    requires forall i :: 0 <= i < |a| && a[i].content.id == k ==> a[i] == b[i]
    requires Mentions(a, k) || SameAt(m, n, k)
    ensures SameAt(Fold(a, m), Fold(b, n), k)
  {
    if a != [] {
      var z := |a| - 1;
      if a[z].content.id != k {
        assert Mentions(a, k) ==> Mentions(a[..z], k);
        FoldLocal(a[..z], b[..z], m, n, k);
      }
    }
  }

  lemma SameEverywhere(m: map<ObjectId, Content>, n: map<ObjectId, Content>)
    requires forall k :: SameAt(m, n, k)
    ensures m == n
  {
    assert forall k :: k in m ==> SameAt(m, n, k);
    assert forall k :: k in n ==> SameAt(m, n, k);
  }

  /** Re-stamping entries of one key, and then adding an entry for that key, is the same as adding
      the entry: this is why append may rewrite timestamps that are already in m_new_set. */
  lemma FoldAfterRestamp(before: seq<Event>, after: seq<Event>, last: Event, m: map<ObjectId, Content>)
    requires |before| == |after| && AllPublished(before) && AllPublished(after) && last.Published?
    requires forall i :: 0 <= i < |before| ==> before[i].content == after[i].content
    requires forall i :: 0 <= i < |before| && before[i].content.id != last.content.id ==> before[i] == after[i]
    ensures Fold(after + [last], m) == Put(Fold(before, m), last)
  {
    assert (after + [last])[..|after|] == after;
    forall k | k != last.content.id
      ensures SameAt(Fold(before, m), Fold(after, m), k)
    {
      FoldLocal(before, after, m, m, k);
    }
    var x, y := Put(Fold(after, m), last), Put(Fold(before, m), last);
    forall k
      ensures SameAt(x, y, k)
    {
      assert k != last.content.id ==> SameAt(Fold(before, m), Fold(after, m), k);
    }
    SameEverywhere(x, y);
  }

  /** Two receivers that differ only at keys a batch mentions agree once it is delivered. */
  lemma FoldMerges(batch: seq<Event>, m: map<ObjectId, Content>, n: map<ObjectId, Content>)
    requires AllPublished(batch)
    requires forall k :: !Mentions(batch, k) ==> SameAt(m, n, k)
    ensures Fold(batch, m) == Fold(batch, n)
  {
    forall k
      ensures SameAt(Fold(batch, m), Fold(batch, n), k)
    {
      FoldLocal(batch, batch, m, n, k);
    }
    SameEverywhere(Fold(batch, m), Fold(batch, n));
  }

  lemma {:induction false} FoldUntouched(batch: seq<Event>, m: map<ObjectId, Content>, k: ObjectId)
    requires AllPublished(batch) && !Mentions(batch, k)
    ensures SameAt(Fold(batch, m), m, k)
  {
    if batch != [] {
      var z := |batch| - 1;
      assert Mentions(batch[..z], k) ==> Mentions(batch, k);
      FoldUntouched(batch[..z], m, k);
    }
  }

  /** Stamping one content as removed takes it out, if entries for its key are replayed and it is what
      they leave; nothing else changes. */
  lemma {:induction false} FoldAfterStamp(before: seq<Event>, after: seq<Event>, m: map<ObjectId, Content>, c: Content)
    requires |before| == |after| && AllPublished(before) && AllPublished(after)
    requires forall i :: 0 <= i < |before| ==> before[i].content == after[i].content
    requires forall i :: 0 <= i < |before| ==> if before[i].content == c then Removed(after[i].timestamp) else after[i] == before[i]
    ensures var live := c.id in Fold(before, m) && Fold(before, m)[c.id] == c && Mentions(before, c.id);
      if live then c.id !in Fold(after, m) else SameAt(Fold(before, m), Fold(after, m), c.id)
  {
    if before != [] {
      var z := |before| - 1;
      assert before[z].content.id != c.id ==> Mentions(before, c.id) == Mentions(before[..z], c.id);
      FoldAfterStamp(before[..z], after[..z], m, c);
    }
  }

  lemma FoldOneMore(news: seq<Content>, c: Content, m: map<ObjectId, Content>)
    ensures Fold(Told(news + [c]), m) == Put(Fold(Told(news), m), Published(c, c.timestamp))
  {
    assert Told(news + [c])[..|news|] == Told(news);
  }

  ghost predicate TypedMap(m: map<ObjectId, Content>, contents: set<Content>) {
    forall k :: k in m ==> m[k] in contents && m[k].id == k
  }

  lemma {:induction false} FoldTyped(news: seq<Content>, m: map<ObjectId, Content>, contents: set<Content>)
    requires TypedMap(m, contents) && forall c :: c in news ==> c in contents
    ensures TypedMap(Fold(Told(news), m), contents)
  {
    if news != [] {
      var z := |news| - 1;
      assert Told(news)[..z] == Told(news[..z]);
      FoldTyped(news[..z], m, contents);
    }
  }

  class SetTopic {
    var newSet: seq<Content>               // m_new_set: what no subscriber has been sent yet
    var snapSet: map<ObjectId, Content>    // m_snap_set: what the publishing thread has moved
    var objects: map<ObjectId, Content>    // m_objects: the current objects
    var inFlight: seq<Content>             // moved by publish_new, not delivered yet
    var subscribers: seq<Subscription>     // the topic's list
    var tailCurrent: bool                  // m_tail is on it
    var tasks: seq<Task>                   // this topic's tasks in the publishing thread's queue

    ghost var contents: set<Content>       // every content appended so far
    ghost var stamped: set<ObjectId>       // the keys whose current object is stamped as removed
    ghost var all: set<Subscription>       // every subscription made so far
    ghost var lost: set<Subscription>      // those reserved behind a stale tail
    ghost var working: set<Subscription>   // those confirmed by their snapshot task
    ghost var linked: set<Subscription>    // those not unsubscribed
    ghost var unposted: nat                // appends whose publish task has not been posted yet
    ghost var reserved: set<Subscription>  // subscriptions whose snapshot task has not been posted yet

    ghost predicate Pending(k: ObjectId)
      reads `newSet
    {
      exists i :: 0 <= i < |newSet| && newSet[i].id == k
    }

    ghost predicate Typed()
      reads `newSet, `snapSet, `objects, `inFlight, `contents, `stamped
    {
      && (forall c :: c in newSet ==> c in contents)
      && (forall c :: c in inFlight ==> c in contents)
      && TypedMap(snapSet, contents) && TypedMap(objects, contents)
    }

    /** A remove has stamped the current object, and not appended it yet. */
    ghost predicate HalfRemoved(k: ObjectId)
      requires Typed()
      reads `newSet, `snapSet, `objects, `inFlight, `contents, `stamped, contents
    {
      k in objects && Removed(objects[k].timestamp)
    }

    ghost predicate StampedExactly()
      requires Typed()
      reads `newSet, `snapSet, `objects, `inFlight, `contents, `stamped, contents
    {
      forall k :: k in stamped <==> HalfRemoved(k)
    }

    /** At key k, by the timestamps the contents have now, replaying what is pending on the snapshot
        gives the current object; and unless something is pending, what is in flight for k is what
        the snapshot has.  If the current object is stamped, replaying gives nothing, and a snapshot
        that nothing is pending for has it or nothing. */
    ghost predicate KeyOk(k: ObjectId)
      requires Typed()
      reads `newSet, `snapSet, `objects, `inFlight, `contents, `stamped, contents
    {
      if k in stamped then
        && (Pending(k) ==> k !in Fold(Told(newSet), snapSet))
        && (!Pending(k) ==> (k in snapSet ==> k in objects && snapSet[k] == objects[k]) && k !in Fold(Told(inFlight), map[]))
      else
        && SameAt(Fold(Told(newSet), snapSet), objects, k)
        && (!Pending(k) && Mentions(Told(inFlight), k) ==> SameAt(Fold(Told(inFlight), map[]), snapSet, k))
    }

    ghost predicate StoreOk()
      reads `newSet, `snapSet, `objects, `inFlight, `contents, `stamped, contents
    {
      Typed() && StampedExactly() && forall k :: KeyOk(k)
    }

    /** Insert, update or remove one object. */
    method Append(newc: Content)
      requires StoreOk()
      modifies this`newSet, this`objects, this`contents, this`stamped, this`unposted, contents`timestamp, newc`timestamp
      ensures StoreOk() && contents == old(contents) + {newc} && unposted == old(unposted) + 1
      ensures stamped == old(stamped) - {newc.id}
      ensures if Removed(old(newc.timestamp)) then
          if newc.id in old(objects) then
            && newSet == old(newSet) + [old(objects)[newc.id]] && objects == old(objects) - {newc.id}
            && old(objects)[newc.id].timestamp == V_REMOVE
          else newSet == old(newSet) && objects == old(objects)
        else
          && newSet == old(newSet) + [newc] && objects == old(objects)[newc.id := newc]
          && newc.timestamp == if newc.id in old(objects) then V_UPDATE else V_INSERT
      ensures forall c :: c in old(contents) && (c.id != newc.id || newSet == old(newSet)) ==> c.timestamp == old(c.timestamp)
    {
      AppendObject(newc);
      if newSet != old(newSet) {
        StoreAfterAppend(newSet[|newSet| - 1]);
      } else {
        assert stamped == old(stamped);
        StoreFrame();
      }
    }

    /** The branches of append. */
    method AppendObject(newc: Content)
      requires Typed()
      modifies this`newSet, this`objects, this`contents, this`stamped, this`unposted, contents`timestamp, newc`timestamp
      ensures contents == old(contents) + {newc} && unposted == old(unposted) + 1
      ensures stamped == old(stamped) - {newc.id}
      ensures if Removed(old(newc.timestamp)) then
          if newc.id in old(objects) then
            && newSet == old(newSet) + [old(objects)[newc.id]] && objects == old(objects) - {newc.id}
            && old(objects)[newc.id].timestamp == V_REMOVE
          else newSet == old(newSet) && objects == old(objects)
        else
          && newSet == old(newSet) + [newc] && objects == old(objects)[newc.id := newc]
          && newc.timestamp == if newc.id in old(objects) then V_UPDATE else V_INSERT
      ensures forall c :: c in old(contents) && (c.id != newc.id || newSet == old(newSet)) ==> c.timestamp == old(c.timestamp)
    {
      var id := newc.id;
      contents, unposted := contents + {newc}, unposted + 1;
      if id in objects {
        var it := objects[id];
        if Removed(newc.timestamp) {
          it.timestamp := V_REMOVE;
          newSet := newSet + [it];
          objects := objects - {id};
        } else {
          newc.timestamp := V_UPDATE;
          newSet := newSet + [newc];
          objects := objects[id := newc];
        }
      } else if !Removed(newc.timestamp) {
        newc.timestamp := V_INSERT;
        newSet := newSet + [newc];
        objects := objects[id := newc];
      }
      stamped := stamped - {id};
    }

    twostate lemma StoreAfterAppend(last: Content)
      requires old(StoreOk()) && stamped == old(stamped) - {last.id} && inFlight == old(inFlight)
      requires newSet == old(newSet) + [last] && snapSet == old(snapSet)
      requires objects == Put(old(objects), Published(last, last.timestamp))
      requires old(contents) <= contents && last in contents
      requires forall c :: c in old(contents) && c.id != last.id ==> c.timestamp == old(c.timestamp)
      ensures StoreOk()
    {
      assert newSet[|newSet| - 1].id == last.id;
      forall k
        ensures KeyOk(k)
      {
        KeyAfterAppend(last, k);
      }
    }

    twostate lemma KeyAfterAppend(new last: Content, k: ObjectId)
      requires old(StoreOk()) && Typed() && stamped == old(stamped) - {last.id} && inFlight == old(inFlight)
      requires newSet == old(newSet) + [last] && snapSet == old(snapSet)
      requires objects == Put(old(objects), Published(last, last.timestamp))
      requires last in contents && forall c :: c in old(contents) && c.id != last.id ==> c.timestamp == old(c.timestamp)
      ensures KeyOk(k)
    {
      assert Told(newSet) == Told(old(newSet)) + [Published(last, last.timestamp)];
      FoldAfterRestamp(old(Told(newSet)), Told(old(newSet)), Published(last, last.timestamp), snapSet);
      if k == last.id {
        assert newSet[|newSet| - 1].id == k;
      } else {
        assert old(KeyOk(k));
        FlightUnchanged(k);
        PendingKept(last, k);
      }
    }

    twostate lemma PendingKept(new last: Content, k: ObjectId)
      requires newSet == old(newSet) + [last] && last.id != k
      ensures Pending(k) <==> old(Pending(k))
    {
      if old(Pending(k)) {
        var i :| 0 <= i < |old(newSet)| && old(newSet)[i].id == k;
        assert newSet[i].id == k;
      }
    }

    /** What is in flight for a key whose contents keep their timestamps. */
    twostate lemma FlightUnchanged(k: ObjectId)
      requires old(Typed()) && inFlight == old(inFlight)
      requires forall c :: c in old(contents) && c.id == k ==> c.timestamp == old(c.timestamp)
      ensures Mentions(Told(inFlight), k) == Mentions(old(Told(inFlight)), k)
      ensures SameAt(Fold(old(Told(inFlight)), map[]), Fold(Told(inFlight), map[]), k)
    {
      SameContents(old(Told(inFlight)), Told(inFlight), k);
      FoldLocal(old(Told(inFlight)), Told(inFlight), map[], map[], k);
    }

    lemma SameContents(a: seq<Event>, b: seq<Event>, k: ObjectId)
      requires |a| == |b| && AllPublished(a) && AllPublished(b)
      requires forall i :: 0 <= i < |a| ==> a[i].content == b[i].content
      ensures Mentions(a, k) == Mentions(b, k)
    {
      if Mentions(a, k) {
        var i :| 0 <= i < |a| && a[i].content.id == k;
        assert b[i].content.id == k;
      }
    }

    method Find(id: ObjectId) returns (c: Content?)
      ensures c == if id in objects then objects[id] else null
    {
      c := if id in objects then objects[id] else null;
    }

    /** The second step of TopicServer::remove: the content found is stamped without any lock,
        whatever containers share it, and whatever has become of it since it was found.  Its key is
        stamped only while it is current. */
    method Stamp(c: Content)
      requires Valid() && c in contents
      modifies this`stamped, c`timestamp
      ensures Valid() && Removed(c.timestamp)
      ensures stamped == old(stamped) + if c.id in objects && objects[c.id] == c then {c.id} else {}
    {
      c.timestamp := V_REMOVE;
      if c.id in objects && objects[c.id] == c {
        stamped := stamped + {c.id};
      }
      StoreAfterStamp(c);
      forall s | s in all
        ensures SubscriptionOk(s)
      {
        assert old(SubscriptionOk(s));
        if s.working && s in subscribers {
          ViewAfterStamp(s);
        }
      }
    }

    twostate lemma StoreAfterStamp(c: Content)
      requires old(StoreOk()) && c in contents && Removed(c.timestamp)
      requires newSet == old(newSet) && snapSet == old(snapSet) && objects == old(objects) && inFlight == old(inFlight)
      requires contents == old(contents)
      requires stamped == old(stamped) + if c.id in objects && objects[c.id] == c then {c.id} else {}
      requires forall d :: d in contents && d != c ==> d.timestamp == old(d.timestamp)
      ensures StoreOk()
    {
      forall k
        ensures KeyOk(k)
      {
        assert old(KeyOk(k));
        if k != c.id {
          FoldLocal(old(Told(newSet)), Told(newSet), snapSet, snapSet, k);
          FlightUnchanged(k);
        } else {
          KeyAfterStamp(c);
        }
      }
    }

    twostate lemma KeyAfterStamp(c: Content)
      requires old(Typed() && KeyOk(c.id)) && Typed() && Removed(c.timestamp)
      requires newSet == old(newSet) && snapSet == old(snapSet) && objects == old(objects) && inFlight == old(inFlight)
      requires stamped == old(stamped) + if c.id in objects && objects[c.id] == c then {c.id} else {}
      requires contents == old(contents) && forall d :: d in contents && d != c ==> d.timestamp == old(d.timestamp)
      ensures KeyOk(c.id)
    {
      var k := c.id;
      FoldAfterStamp(old(Told(newSet)), Told(newSet), snapSet, c);
      FoldAfterStamp(old(Told(inFlight)), Told(inFlight), map[], c);
      SameContents(old(Told(inFlight)), Told(inFlight), k);
      PendingIsMentioned(k);
      SameContents(old(Told(newSet)), Told(newSet), k);
      if !Pending(k) {
        FoldUntouchedBy(k);
        if !Mentions(Told(inFlight), k) {
          FoldUntouched(Told(inFlight), map[], k);
        }
      }
    }

    /** What was settled for a key with nothing pending or in flight still is. */
    twostate lemma ViewAfterStamp(s: Subscription)
      requires old(StoreOk()) && old(stamped) <= stamped && unchanged(s)
      requires newSet == old(newSet) && snapSet == old(snapSet) && objects == old(objects) && inFlight == old(inFlight)
      requires old(ViewOk(s))
      ensures ViewOk(s)
    {
      forall k | Settled(k)
        ensures ViewAt(Fold(s.events, map[]), k)
      {
        assert old(KeyOk(k)) && old(Settled(k));
        FoldUntouched(old(Told(newSet)), snapSet, k);
      }
    }

    /** Without a pending entry the snapshot has what the objects have. */
    lemma FoldUntouchedBy(k: ObjectId)
      requires !Pending(k)
      ensures SameAt(Fold(Told(newSet), snapSet), snapSet, k)
    {
      PendingIsMentioned(k);
      FoldUntouched(Told(newSet), snapSet, k);
    }

    lemma PendingIsMentioned(k: ObjectId)
      ensures Pending(k) <==> Mentions(Told(newSet), k)
    {
      if Pending(k) {
        var i :| 0 <= i < |newSet| && newSet[i].id == k;
        assert Told(newSet)[i].content.id == k;
      }
    }

    /** The loop of do_move. */
    method MoveAll() returns (news: seq<Content>)
      modifies this`snapSet
      ensures news == newSet && snapSet == Fold(Told(news), old(snapSet))
    {
      news := [];
      for i := 0 to |newSet|
        invariant news == newSet[..i] && snapSet == Fold(Told(news), old(snapSet))
      {
        var c := newSet[i];
        FoldOneMore(news, c, old(snapSet));
        assert newSet[..i + 1] == newSet[..i] + [c];
        if Removed(c.timestamp) {
          snapSet := snapSet - {c.id};
        } else {
          snapSet := snapSet[c.id := c];
        }
        news := news + [c];
      }
      assert newSet[..|newSet|] == newSet;
    }

    /** Move what is pending into the snapshot, which then is the current objects, but for those that
        are stamped. */
    method DoMove() returns (news: seq<Content>)
      requires StoreOk() && inFlight == []
      modifies this`snapSet, this`newSet, this`inFlight
      ensures StoreOk() && newSet == [] && news == inFlight == old(newSet)
      ensures snapSet == Fold(Told(news), old(snapSet))
      ensures forall k :: k !in stamped ==> SameAt(snapSet, objects, k)
    {
      news := MoveAll();
      FoldTyped(news, old(snapSet), contents);
      newSet, inFlight := [], news;
      forall k
        ensures KeyOk(k) && (k !in stamped ==> SameAt(snapSet, objects, k))
      {
        assert old(KeyOk(k));
        MovedKey(k);
      }
    }

    twostate lemma MovedKey(k: ObjectId)
      requires old(Typed()) && old(KeyOk(k)) && newSet == [] && inFlight == old(newSet)
      requires snapSet == Fold(Told(inFlight), old(snapSet))
      requires objects == old(objects) && contents == old(contents) && stamped == old(stamped) && Typed()
      requires forall c :: c in contents ==> c.timestamp == old(c.timestamp)
      ensures KeyOk(k) && (k !in stamped ==> SameAt(snapSet, objects, k))
    {
      var news := Told(inFlight);
      assert news == old(Told(newSet));
      forall i | 0 <= i < |inFlight|
        ensures news[i].content.id == inFlight[i].id
      {
      }
      if Mentions(news, k) {
        FoldLocal(news, news, map[], old(snapSet), k);
      } else {
        FoldUntouched(news, old(snapSet), k);
        FoldUntouched(news, map[], k);
        assert !old(Pending(k));
      }
    }

    method DoClear()
      modifies this`snapSet, this`newSet, this`objects, this`stamped
      ensures snapSet == map[] && newSet == [] && objects == map[] && stamped == {}
    {
      snapSet, newSet, objects, stamped := map[], [], map[], {};
    }

    /** Send the snapshot, in whatever order the hash map yields it. */
    method DoSnap(s: Subscription)
      requires s.events == [] && StoreOk()
      modifies s`events
      ensures |s.events| == |snapSet| && AllPublished(s.events)
      ensures forall k :: if k in snapSet && !Removed(snapSet[k].timestamp)
        then k in Fold(s.events, map[]) && Fold(s.events, map[])[k] == snapSet[k]
        else k !in Fold(s.events, map[])
    {
      var rest := snapSet.Keys;
      while rest != {}
        invariant rest <= snapSet.Keys && |s.events| == |snapSet| - |rest| && AllPublished(s.events)
        invariant forall k :: if k in snapSet && k !in rest && !Removed(snapSet[k].timestamp)
          then k in Fold(s.events, map[]) && Fold(s.events, map[])[k] == snapSet[k]
          else k !in Fold(s.events, map[])
      {
        var k :| k in rest;
        ghost var before := s.events;
        s.OnPublish(snapSet[k]);
        assert s.events[..|s.events| - 1] == before;
        rest := rest - {k};
      }
    }

    // The subscribers' views.

    ghost predicate Settled(k: ObjectId)
      reads `newSet, `inFlight
    {
      !Pending(k) && !InFlight(k)
    }

    ghost predicate InFlight(k: ObjectId)
      reads `inFlight
    {
      exists i :: 0 <= i < |inFlight| && inFlight[i].id == k
    }

    /** The receiver agrees with the snapshot; if the current object is stamped, it has that or nothing. */
    ghost predicate ViewAt(view: map<ObjectId, Content>, k: ObjectId)
      reads `snapSet, `objects, `stamped
    {
      if k in stamped then k in view ==> k in objects && view[k] == objects[k] else SameAt(view, snapSet, k)
    }

    ghost predicate ViewOk(s: Subscription)
      reads `newSet, `snapSet, `objects, `inFlight, `stamped, s
    {
      forall k :: Settled(k) ==> ViewAt(Fold(s.events, map[]), k)
    }

    ghost predicate SubscriptionOk(s: Subscription)
      reads `newSet, `snapSet, `objects, `inFlight, `stamped, `subscribers, `lost, `working, `linked, s
    {
      && Rostered(s, subscribers, lost, working, linked)
      && (s.working && s in subscribers ==> ViewOk(s))
    }

    ghost function View(): TopicList<Subscription>
      reads `subscribers, `tailCurrent
    {
      TopicList(subscribers, tailCurrent)
    }

    ghost predicate RosterOk()
      reads `newSet, `snapSet, `objects, `inFlight, `stamped, `subscribers, `tailCurrent, `all, `lost, `working, `linked, all
    {
      && View().Ok() && Distinct(subscribers)
      && (forall s :: s in subscribers ==> s in all)
      && lost <= all && working <= all && linked <= all
      && (forall s :: s in all ==> SubscriptionOk(s))
    }

    ghost predicate QueueOk()
      reads `tasks, `reserved, `all, `working, `linked, `newSet, `unposted
    {
      TasksOk(tasks, reserved, all, working, linked, newSet != [], unposted)
    }

    /** What holds at every moment between two steps. */
    ghost predicate Valid()
      reads this, contents, all
    {
      StoreOk() && RosterOk() && QueueOk()
    }

    constructor ()
      ensures Valid()
      ensures newSet == inFlight == [] && snapSet == objects == map[] && View() == Empty() && tasks == []
      ensures contents == {} && stamped == {} && all == lost == reserved == working == linked == {} && unposted == 0
    {
      newSet, inFlight, snapSet, objects, subscribers, tailCurrent, tasks := [], [], map[], map[], [], true, [];
      contents, stamped, all, lost, reserved, working, linked, unposted := {}, {}, {}, {}, {}, {}, {}, 0;
    }

    // What other threads do.

    /** publish_new or the third step of remove: append; the task is posted in a step of its own. */
    method Publish(newc: Content)
      requires Valid()
      modifies this`newSet, this`objects, this`contents, this`stamped, this`unposted, contents`timestamp, newc`timestamp
      ensures Valid() && contents == old(contents) + {newc} && unposted == old(unposted) + 1
      ensures objects == Put(old(objects), Published(newc, old(newc.timestamp))) && stamped == old(stamped) - {newc.id}
      ensures newSet == old(newSet) +
        if !Removed(old(newc.timestamp)) then [newc]
        else if newc.id in old(objects) then [old(objects)[newc.id]] else []
    {
      Append(newc);
      forall k
        ensures Pending(k) || (SameAt(objects, old(objects), k) && (k in stamped <==> k in old(stamped)))
      {
        if k == newc.id && newSet != old(newSet) {
          assert newSet[|newSet| - 1].id == k;
        }
      }
      SubscriptionsKeepViews(newc);
    }

    /** Appending settles no key: what changes is pending. */
    twostate lemma SubscriptionsKeepViews(newc: Content)
      requires old(Valid()) && StoreOk() && old(newSet) <= newSet
      requires forall k :: Pending(k) || (SameAt(objects, old(objects), k) && (k in stamped <==> k in old(stamped)))
      requires unposted == old(unposted) + 1 && unchanged(this`snapSet) && unchanged(this`inFlight) && unchanged(this`tasks)
      requires unchanged(this`subscribers) && unchanged(this`tailCurrent) && unchanged(this`all) && unchanged(this`lost)
      requires unchanged(this`working) && unchanged(this`linked) && unchanged(this`reserved)
      requires forall s :: s in all ==> unchanged(s)
      ensures Valid()
    {
      forall k | old(Pending(k))
        ensures Pending(k)
      {
        var i :| 0 <= i < |old(newSet)| && old(newSet)[i].id == k;
        assert newSet[i].id == k;
      }
      assert forall k :: Settled(k) ==> old(Settled(k));
      forall s | s in all
        ensures SubscriptionOk(s)
      {
        assert old(SubscriptionOk(s));
        assert forall k :: Settled(k) ==> old(ViewAt(Fold(s.events, map[]), k)) ==> ViewAt(Fold(s.events, map[]), k);
      }
    }

    method PostNew()
      requires Valid() && unposted > 0
      modifies this`tasks, this`unposted
      ensures Valid() && tasks == old(tasks) + [PublishNew] && unposted == old(unposted) - 1
    {
      TasksPosted(tasks, PublishNew, reserved, all, working, linked, newSet != [], unposted, unposted - 1);
      tasks, unposted := tasks + [PublishNew], unposted - 1;
    }

    /** reserve_subscribe: on the list if m_tail is, else lost. */
    method Reserve() returns (s: Subscription)
      requires Valid()
      modifies this`subscribers, this`all, this`lost, this`reserved, this`linked
      ensures Valid() && fresh(s) && s.linked && !s.working && s.events == []
      ensures View() == old(View()).Reserved(s) && lost == old(lost) + if tailCurrent then {} else {s}
      ensures all == old(all) + {s} && reserved == old(reserved) + {s}
    {
      s := AddToRoster();
      StoreFrame();
      TasksReserve(tasks, old(reserved), old(all), working, old(linked), newSet != [], unposted, s);
    }

    method AddToRoster() returns (s: Subscription)
      requires RosterOk()
      modifies this`subscribers, this`all, this`lost, this`reserved, this`linked
      ensures RosterOk() && fresh(s) && s.linked && !s.working && s.events == []
      ensures View() == old(View()).Reserved(s) && lost == old(lost) + if tailCurrent then {} else {s}
      ensures all == old(all) + {s} && linked == old(linked) + {s} && reserved == old(reserved) + {s} && s !in old(all)
    {
      s := new Subscription();
      if tailCurrent {
        subscribers := subscribers + [s];
      } else {
        lost := lost + {s};
      }
      all, reserved, linked := all + {s}, reserved + {s}, linked + {s};
      RosterAfterReserve(s);
    }

    /** The store stays in order when nothing of it changes. */
    twostate lemma StoreFrame()
      requires old(StoreOk())
      requires newSet == old(newSet) && snapSet == old(snapSet) && objects == old(objects) && inFlight == old(inFlight)
      requires old(contents) <= contents && stamped == old(stamped)
      requires forall c :: c in old(contents) ==> c.timestamp == old(c.timestamp)
      ensures StoreOk()
    {
      assert Told(newSet) == old(Told(newSet)) && Told(inFlight) == old(Told(inFlight));
      forall k
        ensures KeyOk(k)
      {
        assert old(KeyOk(k));
      }
    }

    twostate lemma RosterAfterReserve(new s: Subscription)
      requires old(RosterOk()) && s !in old(all) && s.linked && !s.working && s.events == []
      requires View() == old(View()).Reserved(s) && lost == old(lost) + if tailCurrent then {} else {s}
      requires all == old(all) + {s} && linked == old(linked) + {s} && working == old(working)
      requires newSet == old(newSet) && snapSet == old(snapSet) && inFlight == old(inFlight) && objects == old(objects) && stamped == old(stamped)
      requires forall r :: r in old(all) ==> unchanged(r)
      ensures RosterOk()
    {
      forall r | r in all
        ensures SubscriptionOk(r)
      {
        assert r != s ==> old(SubscriptionOk(r));
      }
    }

    method PostSnap(s: Subscription)
      requires Valid() && s in reserved
      modifies this`tasks, this`reserved
      ensures Valid() && tasks == old(tasks) + [PublishSnap(s)] && reserved == old(reserved) - {s}
    {
      TasksPosted(tasks, PublishSnap(s), reserved, all, working, linked, newSet != [], unposted, unposted);
      tasks, reserved := tasks + [PublishSnap(s)], reserved - {s};
    }

    /** s leaves position k of the topic's list, if it was on it. */
    method Unsubscribe(s: Subscription) returns (ghost k: nat)
      requires Valid() && s in all && s.linked
      modifies this`subscribers, this`tailCurrent, this`linked, s`linked
      ensures Valid() && !s.linked && linked == old(linked) - {s}
      ensures if s in lost then View() == old(View()) else
        k < |old(subscribers)| && s == old(subscribers)[k] && View() == old(View()).Left(s, Cut(old(subscribers), k))
    {
      k := RemoveFromRoster(s);
      StoreFrame();
      TasksFewerLinked(tasks, reserved, all, working, old(linked), newSet != [], unposted, linked);
    }

    method RemoveFromRoster(s: Subscription) returns (ghost k: nat)
      requires RosterOk() && s in all && s.linked
      modifies this`subscribers, this`tailCurrent, this`linked, s`linked
      ensures RosterOk() && !s.linked && linked == old(linked) - {s}
      ensures if s in lost then View() == old(View()) else
        k < |old(subscribers)| && s == old(subscribers)[k] && View() == old(View()).Left(s, Cut(old(subscribers), k))
    {
      assert SubscriptionOk(s);
      subscribers, tailCurrent, k := LeaveList(subscribers, tailCurrent, s);
      s.linked, linked := false, linked - {s};
      RosterAfterUnlinking({s});
    }

    /** Some subscriptions leave the list and are no longer linked. */
    twostate lemma RosterAfterUnlinking(gone: set<Subscription>)
      requires old(RosterOk()) && View().Ok() && Distinct(subscribers)
      requires forall r :: r in subscribers <==> r in old(subscribers) && r !in gone
      requires linked == old(linked) - gone && lost == old(lost) && working == old(working) && all == old(all)
      requires newSet == old(newSet) && snapSet == old(snapSet) && inFlight == old(inFlight) && objects == old(objects) && stamped == old(stamped)
      requires forall r :: r in all ==> r.linked == (old(r.linked) && r !in gone)
      requires forall r :: r in all ==> r.working == old(r.working) && r.snapshot == old(r.snapshot)
      requires forall r :: r in all ==> r.events == old(r.events) || (r in gone && r in old(subscribers) && r.working)
      ensures RosterOk()
    {
      forall r | r in all
        ensures SubscriptionOk(r)
      {
        assert old(SubscriptionOk(r));
      }
    }

    /** clear_content and erase_topic only post. */
    method Post(task: Task)
      requires Valid() && (task.ClearContent? || task.EraseTopic?)
      modifies this`tasks
      ensures Valid() && tasks == old(tasks) + [task]
    {
      TasksPosted(tasks, task, reserved, all, working, linked, newSet != [], unposted, unposted);
      tasks := tasks + [task];
    }

    // What the publishing thread runs.

    /** The first step of publish_new: what was pending reaches the snapshot. */
    method MoveNew()
      requires StoreOk() && RosterOk() && inFlight == []
      modifies this`snapSet, this`newSet, this`inFlight
      ensures StoreOk() && RosterOk() && newSet == [] && inFlight == old(newSet)
      ensures snapSet == Fold(Told(inFlight), old(snapSet))
      ensures forall k :: k !in stamped ==> SameAt(snapSet, objects, k)
    {
      var _ := DoMove();
      forall s | s in all
        ensures SubscriptionOk(s)
      {
        assert old(SubscriptionOk(s));
        forall k | Settled(k)
          ensures SameAt(snapSet, old(snapSet), k) && old(Settled(k))
        {
          NotMoved(k);
        }
        if s.working && s in subscribers {
          forall k | Settled(k)
            ensures ViewAt(Fold(s.events, map[]), k)
          {
            assert old(ViewAt(Fold(s.events, map[]), k));
          }
        }
      }
    }

    twostate lemma NotMoved(k: ObjectId)
      requires Settled(k) && inFlight == old(newSet) && old(inFlight) == [] && stamped == old(stamped)
      requires snapSet == Fold(Told(inFlight), old(snapSet))
      ensures SameAt(snapSet, old(snapSet), k) && old(Settled(k))
    {
      forall i | 0 <= i < |inFlight|
        ensures Told(inFlight)[i].content.id != k
      {
        assert inFlight[i].id != k;
      }
      FoldUntouched(Told(inFlight), old(snapSet), k);
    }

    /** The second: it is told to every working subscriber on the list, by the timestamps it has then. */
    method DeliverNew()
      requires Valid()
      modifies this`inFlight, all`events
      ensures Valid() && inFlight == []
      ensures forall s :: s in all ==>
        s.events == old(s.events) + (if s in subscribers && s.working then old(Told(inFlight)) else [])
      ensures newSet == [] ==> forall s, k :: s in subscribers && s.working && Mentions(old(Told(inFlight)), k) ==>
        (SameAt(Fold(s.events, map[]), objects, k) <==> !HalfRemoved(k))
    {
      var news := inFlight;
      DeliverToWorking(subscribers, news);
      inFlight := [];
      ViewsAfterDelivery();
      StoreAfterDelivery();
      KeysAfterDelivery();
    }

    /** Who is told an object that is current when the delivery comes has it, unless it has been
        stamped meanwhile: then who is told it is left without. */
    twostate lemma KeysAfterDelivery()
      requires old(StoreOk()) && StoreOk() && newSet == old(newSet) && snapSet == old(snapSet) && objects == old(objects)
      requires stamped == old(stamped) && all == old(all) && contents == old(contents)
      requires forall s :: s in subscribers && s.working ==> s in all && s.events == old(s.events) + old(Told(inFlight))
      ensures newSet == [] ==> forall s, k :: s in subscribers && s.working && Mentions(old(Told(inFlight)), k) ==>
        (SameAt(Fold(s.events, map[]), objects, k) <==> !HalfRemoved(k))
    {
      var news := old(Told(inFlight));
      forall s, k | newSet == [] && s in subscribers && s.working && Mentions(news, k)
        ensures SameAt(Fold(s.events, map[]), objects, k) <==> !HalfRemoved(k)
      {
        assert old(KeyOk(k)) && Told(newSet) == [];
        FoldConcat(old(s.events), news, map[]);
        FoldLocal(news, news, Fold(old(s.events), map[]), map[], k);
      }
    }

    twostate lemma ViewsAfterDelivery()
      requires old(StoreOk()) && old(RosterOk()) && inFlight == []
      requires newSet == old(newSet) && snapSet == old(snapSet) && objects == old(objects) && stamped == old(stamped)
      requires View() == old(View()) && all == old(all) && lost == old(lost) && working == old(working) && linked == old(linked)
      requires forall s :: s in all ==> unchanged(s`linked) && unchanged(s`working) && unchanged(s`snapshot)
      requires forall s :: s in all ==>
        s.events == old(s.events) + (if s in subscribers && s.working then old(Told(inFlight)) else [])
      ensures RosterOk()
    {
      forall s | s in all
        ensures SubscriptionOk(s)
      {
        assert old(SubscriptionOk(s));
        if s.working && s in subscribers {
          ViewAfterDelivery(s);
        }
      }
    }

    /** Once delivered, nothing is in flight for any key. */
    twostate lemma StoreAfterDelivery()
      requires old(StoreOk()) && inFlight == []
      requires newSet == old(newSet) && snapSet == old(snapSet) && objects == old(objects)
      requires contents == old(contents) && stamped == old(stamped)
      requires forall c :: c in contents ==> c.timestamp == old(c.timestamp)
      ensures StoreOk()
    {
      assert Told(newSet) == old(Told(newSet));
      forall k
        ensures KeyOk(k)
      {
        assert old(KeyOk(k));
      }
    }

    twostate lemma ViewAfterDelivery(s: Subscription)
      requires old(StoreOk()) && old(ViewOk(s)) && inFlight == []
      requires unchanged(this`newSet) && unchanged(this`snapSet) && unchanged(this`objects) && unchanged(this`stamped)
      requires s.events == old(s.events) + old(Told(inFlight))
      ensures ViewOk(s)
    {
      var news, view := old(Told(inFlight)), Fold(old(s.events), map[]);
      FoldConcat(old(s.events), news, map[]);
      forall k | Settled(k)
        ensures ViewAt(Fold(s.events, map[]), k)
      {
        assert old(KeyOk(k));
        if Mentions(news, k) {
          FoldLocal(news, news, view, map[], k);
        } else {
          FoldUntouched(news, view, k);
          forall i | 0 <= i < |news|
            ensures old(inFlight)[i].id != k
          {
            assert news[i].content == old(inFlight)[i];
          }
          assert old(Settled(k)) && old(ViewAt(view, k));
        }
      }
    }

    /** publish_snap: the subscription starts working unless it has been unsubscribed meanwhile, and
        is told the snapshot: an object stamped by a remove that has not appended it yet it is not
        left with. */
    method PublishSnapshot(s: Subscription)
      requires StoreOk() && RosterOk() && inFlight == [] && s in all && !s.working
      modifies this`working, s`working, s`events, s`snapshot
      ensures StoreOk() && RosterOk() && (s.working <==> s.linked)
      ensures working == old(working) + if s.linked then {s} else {}
      ensures s.events == s.snapshot
      ensures if s.linked then |s.events| == |snapSet| && AllPublished(s.events) && ToldSnapshot(s) else s.events == []
      ensures Heard(PublishSnap(s))
      ensures s.linked && newSet == [] ==>
        forall k :: SameAt(Fold(s.events, map[]), objects, k) <==> !HalfRemoved(k)
    {
      assert SubscriptionOk(s);
      Confirm(s);
      if s.linked {
        SnapshotIsView(s);
        SnapshotMisses(s);
      }
      RosterAfterSnapshot(s);
      StoreFrame();
    }

    method Confirm(s: Subscription)
      requires StoreOk() && s.events == [] && !s.working
      modifies this`working, s`working, s`events, s`snapshot
      ensures s.working == s.linked && s.snapshot == s.events && working == old(working) + if s.linked then {s} else {}
      ensures if s.linked then |s.events| == |snapSet| && AllPublished(s.events) && ToldSnapshot(s) else s.events == []
    {
      if s.linked {
        s.working, working := true, working + {s};
        DoSnap(s);
      }
      s.snapshot := s.events;
    }

    /** A fresh receiver is left with the snapshot, but for what is stamped as removed. */
    ghost predicate ToldSnapshot(s: Subscription)
      requires Typed()
      reads `newSet, `snapSet, `objects, `inFlight, `contents, `stamped, contents, s
    {
      forall k :: if k in snapSet && !Removed(snapSet[k].timestamp)
        then k in Fold(s.events, map[]) && Fold(s.events, map[])[k] == snapSet[k]
        else k !in Fold(s.events, map[])
    }

    lemma SnapshotIsView(s: Subscription)
      requires StoreOk() && ToldSnapshot(s)
      ensures ViewOk(s)
    {
      forall k | Settled(k)
        ensures ViewAt(Fold(s.events, map[]), k)
      {
        assert KeyOk(k);
        FoldUntouchedBy(k);
      }
    }

    /** With nothing pending, the snapshot is the current objects, at every key but those whose object
        has been stamped. */
    lemma SnapshotMisses(s: Subscription)
      requires StoreOk() && ToldSnapshot(s)
      ensures newSet == [] ==> forall k :: SameAt(Fold(s.events, map[]), objects, k) <==> !HalfRemoved(k)
    {
      forall k | newSet == []
        ensures SameAt(Fold(s.events, map[]), objects, k) <==> !HalfRemoved(k)
      {
        assert KeyOk(k) && Told(newSet) == [];
      }
    }

    twostate lemma RosterAfterSnapshot(s: Subscription)
      requires old(RosterOk()) && s in all && !old(s.working)
      requires View() == old(View()) && all == old(all) && lost == old(lost) && linked == old(linked)
      requires newSet == old(newSet) && snapSet == old(snapSet) && inFlight == old(inFlight) && objects == old(objects) && stamped == old(stamped)
      requires s.linked == old(s.linked) && s.working == s.linked && s.snapshot == s.events
      requires working == old(working) + if s.linked then {s} else {}
      requires if s.working then ViewOk(s) else s.events == []
      requires forall r :: r in all && r != s ==> unchanged(r)
      ensures RosterOk()
    {
      forall r | r in all
        ensures SubscriptionOk(r)
      {
        assert old(SubscriptionOk(r));
      }
    }

    /** publish_erase_topic: tell the working subscribers, then unlink every one on the list. */
    method PublishErase()
      requires StoreOk() && RosterOk() && inFlight == []
      modifies this`subscribers, this`tailCurrent, this`linked, all`events, all`linked
      ensures StoreOk() && RosterOk() && View() == Empty() && linked <= old(linked) && Heard(EraseTopic)
      ensures forall s :: s in all ==>
        s.events == old(s.events) + (if s in old(subscribers) && s.working then [Erased] else [])
    {
      EraseRoster();
      StoreFrame();
    }

    method EraseRoster()
      requires RosterOk()
      modifies this`subscribers, this`tailCurrent, this`linked, all`events, all`linked
      ensures RosterOk() && View() == Empty() && linked <= old(linked)
      ensures forall s :: s in all ==> (s.linked <==> old(s.linked) && s in lost)
      ensures forall s :: s in all ==>
        s.events == old(s.events) + (if s in old(subscribers) && s.working then [Erased] else [])
    {
      TellWorking(subscribers, Erased);
      forall s | s in subscribers {
        s.linked := false;
      }
      ghost var gone := set s | s in subscribers;
      linked := linked - gone;
      subscribers, tailCurrent := [], true;
      RosterAfterUnlinking(gone);
    }

    /** publish_clear_content */
    method PublishClear()
      requires StoreOk() && RosterOk() && inFlight == []
      modifies this`snapSet, this`newSet, this`objects, this`stamped, all`events
      ensures StoreOk() && RosterOk() && newSet == [] && snapSet == objects == map[] && stamped == {} && Heard(ClearContent)
      ensures forall s :: s in all ==>
        s.events == old(s.events) + (if s in subscribers && s.working then [Cleared] else [])
    {
      DoClear();
      TellWorking(subscribers, Cleared);
      RosterAfterClear();
    }

    twostate lemma RosterAfterClear()
      requires old(RosterOk()) && newSet == inFlight == [] && snapSet == map[] && stamped == {}
      requires View() == old(View()) && all == old(all) && lost == old(lost) && working == old(working) && linked == old(linked)
      requires forall s :: s in all ==> unchanged(s`linked) && unchanged(s`working) && unchanged(s`snapshot)
      requires forall s :: s in all ==>
        s.events == old(s.events) + (if s in subscribers && s.working then [Cleared] else [])
      ensures RosterOk()
    {
      forall s | s in all
        ensures SubscriptionOk(s)
      {
        assert old(SubscriptionOk(s));
        FoldAfterClear(old(s.events));
      }
    }

    lemma FoldAfterClear(before: seq<Event>)
      ensures Fold(before + [Cleared], map[]) == map[]
    {
      assert (before + [Cleared])[|before|] == Cleared;
    }

    /** What running a task changes; of publish_new the delivery is still to come. */
    twostate predicate Ran(task: Task)
      requires Typed()
      reads this, contents
    {
      && newSet == (if task.PublishNew? || task.ClearContent? then [] else old(newSet))
      && inFlight == (if task.PublishNew? then old(newSet) else [])
      && objects == (if task.ClearContent? then map[] else old(objects))
      && stamped == (if task.ClearContent? then {} else old(stamped))
      && snapSet == (if task.ClearContent? then map[]
                     else if task.PublishNew? then Fold(Told(inFlight), old(snapSet)) else old(snapSet))
      && View() == (if task.EraseTopic? then Empty() else old(View()))
    }

    /** What it tells and whom it unlinks. */
    twostate predicate Heard(task: Task)
      reads this, all
    {
      && all == old(all)
      && (forall s :: s in old(all) ==> (s.linked <==> old(s.linked) && (task.EraseTopic? ==> s in lost)))
      && (forall s :: s in old(all) && task != PublishSnap(s) ==>
            && s.working == old(s.working)
            && s.events == old(s.events) + if s in old(subscribers) && s.working then Said(task) else [])
    }

    /** Run a task: a snapshot task tells its subscription the snapshot, if that is still linked. */
    method Run(task: Task)
      requires StoreOk() && RosterOk() && inFlight == []
      requires task.PublishSnap? ==> task.subscription in all && !task.subscription.working
      modifies this`newSet, this`snapSet, this`objects, this`inFlight, this`stamped, this`subscribers, this`tailCurrent,
        this`working, this`linked, all
      ensures StoreOk() && RosterOk() && linked <= old(linked)
      ensures working == old(working) +
        if task.PublishSnap? && task.subscription in old(linked) then {task.subscription} else {}
      ensures Ran(task) && Heard(task)
      ensures match task
        case PublishSnap(s) =>
          s.working == old(s.linked) && if s.working then ToldSnapshot(s) && |s.events| == |snapSet| else s.events == []
        case _ => true
    {
      match task {
        case PublishSnap(s) => PublishSnapshot(s);
        case PublishNew => MoveNew();
        case EraseTopic => PublishErase();
        case ClearContent => PublishClear();
      }
    }

    /** The publishing thread takes the front task. */
    method RunTask()
      requires Valid() && inFlight == [] && tasks != []
      modifies this`tasks, this`newSet, this`snapSet, this`objects, this`inFlight, this`stamped, this`subscribers,
        this`tailCurrent, this`working, this`linked, all
      ensures Valid() && tasks == old(tasks)[1..] && Ran(old(tasks)[0]) && Heard(old(tasks)[0])
      ensures match old(tasks)[0]
        case PublishSnap(s) =>
          s.working == old(s.linked) && if s.working then ToldSnapshot(s) && |s.events| == |snapSet| else s.events == []
        case _ => true
      ensures forall s :: s in all && !old(s.linked) ==> s.events == old(s.events) && !s.linked
      ensures forall s :: s in lost && old(tasks)[0] != PublishSnap(s) ==> s.events == old(s.events)
    {
      assert TaskOk(tasks, 0, reserved, all, working);
      TakeTask();
      OnlyListedHear(old(tasks)[0]);
    }

    method TakeTask()
      requires Valid() && inFlight == [] && tasks != []
      modifies this`tasks, this`newSet, this`snapSet, this`objects, this`inFlight, this`stamped, this`subscribers,
        this`tailCurrent, this`working, this`linked, all
      ensures Valid() && tasks == old(tasks)[1..] && Ran(old(tasks)[0]) && Heard(old(tasks)[0])
      ensures match old(tasks)[0]
        case PublishSnap(s) =>
          s.working == old(s.linked) && if s.working then ToldSnapshot(s) && |s.events| == |snapSet| else s.events == []
        case _ => true
    {
      var task := tasks[0];
      assert TaskOk(tasks, 0, reserved, all, working);
      tasks := tasks[1..];
      Run(task);
      TasksAfterFront(old(tasks), reserved, all, old(working), old(linked), old(newSet != []), unposted,
                      working, linked, newSet != []);
    }

    /** Who has left or is lost is told nothing, but for its snapshot. */
    twostate lemma OnlyListedHear(task: Task)
      requires old(RosterOk()) && Heard(task) && lost == old(lost)
      requires match task
        case PublishSnap(s) => s in all && !old(s.working) && (!old(s.linked) ==> s.events == [])
        case _ => true
      ensures forall s :: s in all && !old(s.linked) ==> s.events == old(s.events) && !s.linked
      ensures forall s :: s in lost && task != PublishSnap(s) ==> s.events == old(s.events)
    {
      forall s | s in all
        ensures !old(s.linked) ==> s.events == old(s.events) && !s.linked
        ensures s in lost && task != PublishSnap(s) ==> s.events == old(s.events)
      {
        assert old(SubscriptionOk(s));
      }
    }

    // What a caller gets.

    /** Whenever nothing is pending or in flight, what a working subscriber on the list has been told,
        by the timestamps it saw, agrees with the current objects exactly at the keys that no remove
        has stamped and not appended, and at those it was told before they were stamped. */
    lemma Converged(s: Subscription)
      requires Valid() && newSet == [] && inFlight == [] && s in all && s.linked && s.working && s !in lost
      ensures forall k :: SameAt(Fold(s.events, map[]), objects, k) <==> !HalfRemoved(k) || k in Fold(s.events, map[])
      ensures (forall k :: k in objects ==> !Removed(objects[k].timestamp)) ==> Fold(s.events, map[]) == objects
    {
      assert SubscriptionOk(s);
      var view := Fold(s.events, map[]);
      forall k
        ensures SameAt(view, objects, k) <==> !HalfRemoved(k) || k in view
      {
        assert KeyOk(k) && Settled(k) && ViewAt(view, k) && Told(newSet) == [];
      }
      if forall k :: k in objects ==> !Removed(objects[k].timestamp) {
        assert forall k :: !HalfRemoved(k);
        SameEverywhere(view, objects);
      }
    }

    /** One that was reserved while m_tail was stale is told its snapshot, and nothing later. */
    lemma LostHoldsSnapshot(s: Subscription)
      requires Valid() && s in lost
      ensures s.events == if s.working then s.snapshot else []
    {
      assert SubscriptionOk(s);
    }

    /** Once every posted task has run and no current object is stamped, every linked subscriber works;
        it has the current objects unless it is lost. */
    lemma ConvergedWhenDrained()
      requires Valid() && tasks == [] && unposted == 0 && reserved == {} && inFlight == []
      requires forall k :: k in objects ==> !Removed(objects[k].timestamp)
      ensures forall s :: s in all && s.linked ==>
        s.working && if s in lost then s.events == s.snapshot else Fold(s.events, map[]) == objects
    {
      forall s | s in all && s.linked
        ensures s.working && if s in lost then s.events == s.snapshot else Fold(s.events, map[]) == objects
      {
        assert SubscriptionOk(s);
        if s !in lost {
          Converged(s);
        }
      }
    }
  }

  // Two runs in which a removal comes in between.

  /** Nothing is left to be run or told, and yet a working subscriber on the list lacks a current object. */
  ghost predicate Misses(t: SetTopic, s: Subscription, c: Content)
    reads t, t.contents, t.all, s
  {
    && t.Valid() && t.tasks == [] && t.unposted == 0 && t.reserved == {} && t.newSet == t.inFlight == []
    && s in t.all && s.linked && s.working && s !in t.lost
    && c.id in t.objects && t.objects[c.id] == c && c.id !in Fold(s.events, map[])
  }

  method PublishAndPost(t: SetTopic, c: Content)
    requires t.Valid() && t.tasks == [] && t.unposted == 0 && t.newSet == [] && !Removed(c.timestamp)
    modifies t`newSet, t`objects, t`contents, t`stamped, t`unposted, t`tasks, t.contents`timestamp, c`timestamp
    ensures t.Valid() && t.tasks == [PublishNew] && t.unposted == 0 && t.newSet == [c] && c in t.contents
    ensures c.id in t.objects && t.objects[c.id] == c
  {
    t.Publish(c);
    t.PostNew();
  }

  method Move(t: SetTopic)
    requires t.Valid() && t.tasks == [PublishNew] && t.inFlight == []
    modifies t`tasks, t`newSet, t`snapSet, t`objects, t`inFlight, t`stamped, t`subscribers, t`tailCurrent,
      t`working, t`linked, t.all
    ensures t.Valid() && t.tasks == [] && t.newSet == [] && t.inFlight == old(t.newSet)
    ensures t.objects == old(t.objects) && t.View() == old(t.View())
    ensures forall s :: s in t.all ==> s.linked == old(s.linked) && s.working == old(s.working) && s.events == old(s.events)
  {
    t.RunTask();
  }

  /** Somebody subscribes, and its snapshot task is posted. */
  method Join(t: SetTopic) returns (s: Subscription)
    requires t.Valid() && t.tasks == [] && t.reserved == {} && t.tailCurrent
    modifies t`subscribers, t`all, t`lost, t`reserved, t`linked, t`tasks
    ensures t.Valid() && t.tasks == [PublishSnap(s)] && t.reserved == {} && t.lost == old(t.lost)
    ensures fresh(s) && t.all == old(t.all) + {s} && s.linked && s in t.linked && s !in t.lost
  {
    s := t.Reserve();
    t.PostSnap(s);
  }

  /** One object has been published, and there is nobody yet to tell it to. */
  method OnePublished(c: Content) returns (t: SetTopic)
    requires !Removed(c.timestamp)
    modifies c`timestamp
    ensures fresh(t) && t.Valid() && t.tasks == [] && t.unposted == 0 && t.newSet == t.inFlight == []
    ensures c.id in t.objects && t.objects[c.id] == c && c in t.contents
    ensures t.all == t.reserved == t.lost == {} && t.tailCurrent
  {
    t := new SetTopic();
    PublishAndPost(t, c);
    Move(t);
    t.DeliverNew();
  }

  /** One subscription is working, and nothing has been published yet. */
  method OneWorking() returns (t: SetTopic, s: Subscription)
    ensures fresh(t) && fresh(s) && t.Valid() && t.tasks == [] && t.unposted == 0 && t.newSet == t.inFlight == []
    ensures t.contents == {} && s in t.subscribers && s.linked && s.working && s.events == []
    ensures t.all == {s} && t.reserved == t.lost == {}
  {
    t := new SetTopic();
    s := Join(t);
    t.RunTask();
    OnList(t, s);
  }

  lemma OnList(t: SetTopic, s: Subscription)
    requires t.Valid() && s in t.all && s.linked && s !in t.lost
    ensures s in t.subscribers
  {
    assert t.SubscriptionOk(s);
  }

  method StampAndSnapshot(t: SetTopic, s: Subscription, c: Content)
    requires t.Valid() && t.tasks == [PublishSnap(s)] && t.newSet == t.inFlight == []
    requires s in t.all && s.linked && s !in t.lost && t.unposted == 0 && t.reserved == {}
    requires c in t.contents && c.id in t.objects && t.objects[c.id] == c
    modifies t`tasks, t`newSet, t`snapSet, t`objects, t`inFlight, t`stamped, t`subscribers, t`tailCurrent,
      t`working, t`linked, t.all, c`timestamp
    ensures Misses(t, s, c)
  {
    t.Stamp(c);
    t.RunTask();
    NotInSnapshot(t, s, c.id);
  }

  lemma NotInSnapshot(t: SetTopic, s: Subscription, k: ObjectId)
    requires t.StoreOk() && t.newSet == [] && k in t.stamped && t.ToldSnapshot(s)
    ensures k !in Fold(s.events, map[])
  {
    assert t.KeyOk(k);
  }

  method StampAndDeliver(t: SetTopic, s: Subscription, c: Content)
    requires t.Valid() && t.tasks == [] && t.newSet == [] && t.inFlight == [c] && t.unposted == 0 && t.reserved == {}
    requires s in t.subscribers && s.linked && s.working && s !in t.lost && s.events == []
    requires c in t.contents && c.id in t.objects && t.objects[c.id] == c
    modifies t`stamped, t`inFlight, t.all`events, c`timestamp
    ensures Misses(t, s, c)
  {
    t.Stamp(c);
    assert Told(t.inFlight) == [Published(c, V_REMOVE)];
    t.DeliverNew();
    assert s.events == [Published(c, V_REMOVE)] && s.events[..0] == [];
  }

  /** One who comes while a removal is half done is not told the object: remove has stamped it when
      the snapshot is sent, and it is current until remove appends. */
  method SnapshotComesBetween(c: Content) returns (t: SetTopic, s: Subscription)
    requires !Removed(c.timestamp)
    modifies c`timestamp
    ensures Misses(t, s, c)
  {
    t := OnePublished(c);
    s := Join(t);
    StampAndSnapshot(t, s, c);
  }

  /** One who has long been working is not left with the object either, if it is stamped between the
      two steps of publish_new. */
  method DeliveryComesBetween(c: Content) returns (t: SetTopic, s: Subscription)
    requires !Removed(c.timestamp)
    modifies c`timestamp
    ensures Misses(t, s, c)
  {
    t, s := OneWorking();
    PublishAndPost(t, c);
    Move(t);
    StampAndDeliver(t, s, c);
  }
}
