/** Address-ordered locking (thread/Mutex.h): the constructors of ScopeLock, OrderLock, OrderRelock
    and OrdersLock as programs of mutex operations, interleaved one operation at a time by any
    number of threads.  A mutex is a recursive critical section.
 */
module LockOrder {

  type Tid = nat

  /** A mutex is known by its address.  An outer one, like the mutex of the topic server, is only
      taken by threads that hold no mutex of the other kind. */
  datatype Mutex = Mutex(outer: bool, address: nat)

  /** The order of waiting: outer mutexs first, then by address. */
  predicate Below(h: Mutex, m: Mutex) {
    if h.outer == m.outer then h.address < m.address else h.outer
  }

  /** What a thread has still to do inside a constructor or destructor. */
  datatype Program =
    | Return
    | Lock(mutex: Mutex, rest: Program)
    | Unlock(mutex: Mutex, rest: Program)
    | TryLock(mutex: Mutex, taken: Program, refused: Program)

  // The constructors.

  function ScopeLock(m: Mutex): Program {
    Lock(m, Return)
  }

  function OrderLock(m1: Mutex, m2: Mutex): Program {
    if m1 == m2 then Lock(m1, Return)
    else if m1.address < m2.address then Lock(m1, Lock(m2, Return))
    else Lock(m2, Lock(m1, Return))
  }

  /** m1 is already held. */
  function OrderRelock(m1: Mutex, m2: Mutex): Program {
    if m1 == m2 then Return
    else if m1.address < m2.address then Lock(m2, Return)
    else TryLock(m2, Return, Unlock(m1, Lock(m2, Lock(m1, Return))))
  }

  /** OrdersLock::lock over its list. */
  function LockAll(ms: seq<Mutex>): Program {
    if ms == [] then Return else Lock(ms[0], LockAll(ms[1..]))
  }

  ghost predicate Ascending(ms: seq<Mutex>) {
    forall i, j :: 0 <= i < j < |ms| ==> ms[i].address <= ms[j].address
  }

  class OrdersLock {
    var mutexs: seq<Mutex>

    constructor ()
      ensures mutexs == []
    {
      mutexs := [];
    }

    /** Insert before the first mutex with a greater address. */
    method PushBack(m: Mutex)
      requires Ascending(mutexs)
      modifies this
      ensures Ascending(mutexs)
      ensures multiset(mutexs) == multiset(old(mutexs)) + multiset{m}
    {
      var it := 0;
      while it < |mutexs|
        invariant 0 <= it <= |mutexs|
        invariant forall i :: 0 <= i < it ==> mutexs[i].address <= m.address
      {
        if m.address < mutexs[it].address {
          break;
        }
        it := it + 1;
      }
      InsertAscending(mutexs, it, m);
      mutexs := mutexs[..it] + [m] + mutexs[it..];
    }
  }

  lemma InsertAscending(ms: seq<Mutex>, it: nat, m: Mutex)
    requires Ascending(ms) && it <= |ms|
    requires forall i :: 0 <= i < it ==> ms[i].address <= m.address
    requires it < |ms| ==> m.address < ms[it].address
    ensures Ascending(ms[..it] + [m] + ms[it..])
    ensures multiset(ms[..it] + [m] + ms[it..]) == multiset(ms) + multiset{m}
  {
    var r := ms[..it] + [m] + ms[it..];
    forall i, j | 0 <= i < j < |r|
      ensures r[i].address <= r[j].address
    {
      InsertedAt(ms, it, m, i);
      InsertedAt(ms, it, m, j);
    }
    InsertCounts(ms, it, m);
  }

  lemma InsertedAt(ms: seq<Mutex>, it: nat, m: Mutex, i: nat)
    requires it <= |ms| && i <= |ms|
    ensures (ms[..it] + [m] + ms[it..])[i] == if i < it then ms[i] else if i == it then m else ms[i - 1]
  {
  }

  lemma InsertCounts(ms: seq<Mutex>, it: nat, m: Mutex)
    requires it <= |ms|
    ensures multiset(ms[..it] + [m] + ms[it..]) == multiset(ms) + multiset{m}
  {
    assert ms == ms[..it] + ms[it..];
  }

  // Ordered programs.

  /** Every blocking Lock asks for a mutex all those held at that point are below, or for one already
      held; every Unlock releases a held mutex. */
  ghost predicate Ordered(held: multiset<Mutex>, p: Program)
    decreases p
  {
    match p
    case Return => true
    case Lock(m, rest) => (m in held || forall h :: h in held ==> Below(h, m)) && Ordered(held + multiset{m}, rest)
    case Unlock(m, rest) => m in held && Ordered(held - multiset{m}, rest)
    case TryLock(m, taken, refused) => Ordered(held + multiset{m}, taken) && Ordered(held, refused)
  }

  /** Whatever the try-locks answer, the program ends holding exactly "final". */
  ghost predicate EndsHolding(held: multiset<Mutex>, p: Program, final: multiset<Mutex>)
    decreases p
  {
    match p
    case Return => held == final
    case Lock(m, rest) => EndsHolding(held + multiset{m}, rest, final)
    case Unlock(m, rest) => EndsHolding(held - multiset{m}, rest, final)
    case TryLock(m, taken, refused) => EndsHolding(held + multiset{m}, taken, final) && EndsHolding(held, refused, final)
  }

  lemma OrderLockIsOrdered(held: multiset<Mutex>, m1: Mutex, m2: Mutex)
    requires !m1.outer && !m2.outer
    requires forall h :: h in held ==> Below(h, m1) && Below(h, m2)
    ensures Ordered(held, OrderLock(m1, m2))
    ensures EndsHolding(held, OrderLock(m1, m2), held + if m1 == m2 then multiset{m1} else multiset{m1, m2})
  {
    assert held + multiset{m1} + multiset{m2} == held + multiset{m1, m2};
    assert held + multiset{m2} + multiset{m1} == held + multiset{m1, m2};
  }

  /** An OrderRelock started by a thread that holds "others" besides its first mutex is ordered
      exactly when all of them are below the second mutex; it always ends holding both. */
  lemma OrderRelockIsOrderedIff(others: multiset<Mutex>, m1: Mutex, m2: Mutex)
    requires !m1.outer && !m2.outer && m1 != m2 && m2 !in others
    ensures Ordered(others + multiset{m1}, OrderRelock(m1, m2)) <==> forall h :: h in others ==> Below(h, m2)
    ensures EndsHolding(others + multiset{m1}, OrderRelock(m1, m2), others + multiset{m1, m2})
  {
    var held := others + multiset{m1};
    assert held + multiset{m2} == others + multiset{m1, m2};
    if m2.address < m1.address {
      assert held - multiset{m1} == others;
      assert others + multiset{m2} + multiset{m1} == others + multiset{m1, m2};
      var again := Lock(m1, Return);
      assert EndsHolding(others + multiset{m2}, again, others + multiset{m1, m2});
      assert (forall h :: h in others ==> Below(h, m2)) ==> Ordered(others + multiset{m2}, again);
      assert Ordered(others, Lock(m2, again)) <==> forall h :: h in others ==> Below(h, m2);
      assert Ordered(held, Unlock(m1, Lock(m2, again))) <==> Ordered(others, Lock(m2, again));
    }
  }

  lemma {:induction false} LockAllIsOrdered(ms: seq<Mutex>, held: multiset<Mutex>)
    requires Ascending(ms) && forall i :: 0 <= i < |ms| ==> !ms[i].outer
    requires forall h, i :: h in held && 0 <= i < |ms| ==> h == ms[i] || Below(h, ms[i])
    ensures Ordered(held, LockAll(ms))
    ensures EndsHolding(held, LockAll(ms), held + multiset(ms))
  {
    if ms == [] {
      assert held + multiset(ms) == held;
    } else {
      var m, rest := ms[0], ms[1..];
      assert ms == [m] + rest;
      LockAllIsOrdered(rest, held + multiset{m});
      assert held + multiset{m} + multiset(rest) == held + multiset(ms);
    }
  }

  // What the call sites run.

  /** p, then q. */
  function Then(p: Program, q: Program): Program {
    match p
    case Return => q
    case Lock(m, rest) => Lock(m, Then(rest, q))
    case Unlock(m, rest) => Unlock(m, Then(rest, q))
    case TryLock(m, taken, refused) => TryLock(m, Then(taken, q), Then(refused, q))
  }

  lemma {:induction false} ThenIsOrderedIff(held: multiset<Mutex>, p: Program, final: multiset<Mutex>, q: Program)
    requires EndsHolding(held, p, final)
    ensures Ordered(held, Then(p, q)) <==> Ordered(held, p) && Ordered(final, q)
    decreases p
  {
    match p
    case Return =>
    case Lock(m, rest) => ThenIsOrderedIff(held + multiset{m}, rest, final, q);
    case Unlock(m, rest) => ThenIsOrderedIff(held - multiset{m}, rest, final, q);
    case TryLock(m, taken, refused) =>
      ThenIsOrderedIff(held + multiset{m}, taken, final, q);
      ThenIsOrderedIff(held, refused, final, q);
  }

  lemma {:induction false} ThenEndsHolding(held: multiset<Mutex>, p: Program, mid: multiset<Mutex>, q: Program, final: multiset<Mutex>)
    requires EndsHolding(held, p, mid)
    ensures EndsHolding(held, Then(p, q), final) <==> EndsHolding(mid, q, final)
    decreases p
  {
    match p
    case Return =>
    case Lock(m, rest) => ThenEndsHolding(held + multiset{m}, rest, mid, q, final);
    case Unlock(m, rest) => ThenEndsHolding(held - multiset{m}, rest, mid, q, final);
    case TryLock(m, taken, refused) =>
      ThenEndsHolding(held + multiset{m}, taken, mid, q, final);
      ThenEndsHolding(held, refused, mid, q, final);
  }

  /** Whatever the try-locks answer, at some point of the program both mutexs are held. */
  ghost predicate HoldsBoth(held: multiset<Mutex>, p: Program, m1: Mutex, m2: Mutex)
    decreases p
  {
    || (m1 in held && m2 in held)
    || match p
       case Return => false
       case Lock(m, rest) => HoldsBoth(held + multiset{m}, rest, m1, m2)
       case Unlock(m, rest) => HoldsBoth(held - multiset{m}, rest, m1, m2)
       case TryLock(m, taken, refused) => HoldsBoth(held + multiset{m}, taken, m1, m2) && HoldsBoth(held, refused, m1, m2)
  }

  /** What is held where p ends is held where q begins. */
  lemma {:induction false} ThenHoldsBoth(held: multiset<Mutex>, p: Program, mid: multiset<Mutex>, q: Program, m1: Mutex, m2: Mutex)
    requires EndsHolding(held, p, mid) && HoldsBoth(mid, q, m1, m2)
    ensures HoldsBoth(held, Then(p, q), m1, m2)
    decreases p
  {
    match p
    case Return =>
    case Lock(m, rest) => ThenHoldsBoth(held + multiset{m}, rest, mid, q, m1, m2);
    case Unlock(m, rest) => ThenHoldsBoth(held - multiset{m}, rest, mid, q, m1, m2);
    case TryLock(m, taken, refused) =>
      ThenHoldsBoth(held + multiset{m}, taken, mid, q, m1, m2);
      ThenHoldsBoth(held, refused, mid, q, m1, m2);
  }

  /** The loop of Topic::clear: relock each subscriber's mutex, and let go of it again. */
  function Relocks(topic: Mutex, subscribers: seq<Mutex>): Program {
    if subscribers == [] then Return
    else Then(OrderRelock(topic, subscribers[0]), Unlock(subscribers[0], Relocks(topic, subscribers[1..])))
  }

  /** Topic::clear, called with nothing held. */
  function Clear(topic: Mutex, subscribers: seq<Mutex>): Program {
    Lock(topic, Relocks(topic, subscribers))
  }

  /** publish_erase_topic locks the topic's mutex, and then Topic::clear locks it once more. */
  function EraseTopic(topic: Mutex, subscribers: seq<Mutex>): Program {
    Lock(topic, Clear(topic, subscribers))
  }

  lemma {:induction false} RelocksAreOrderedIff(others: multiset<Mutex>, topic: Mutex, subscribers: seq<Mutex>)
    requires !topic.outer && topic !in subscribers
    requires forall s :: s in subscribers ==> !s.outer && s !in others
    ensures Ordered(others + multiset{topic}, Relocks(topic, subscribers))
      <==> (forall h, s :: h in others && s in subscribers ==> Below(h, s))
  {
    if subscribers != [] {
      var s, rest := subscribers[0], subscribers[1..];
      assert forall r :: r in subscribers <==> r == s || r in rest;
      RelocksAreOrderedIff(others, topic, rest);
      OneRelockIsOrderedIff(others, topic, s, Relocks(topic, rest));
    }
  }

  lemma OneRelockIsOrderedIff(others: multiset<Mutex>, topic: Mutex, s: Mutex, rest: Program)
    requires !topic.outer && !s.outer && s != topic && s !in others
    ensures Ordered(others + multiset{topic}, Then(OrderRelock(topic, s), Unlock(s, rest)))
      <==> (forall h :: h in others ==> Below(h, s)) && Ordered(others + multiset{topic}, rest)
  {
    var held, both := others + multiset{topic}, others + multiset{topic, s};
    OrderRelockIsOrderedIff(others, topic, s);
    assert both - multiset{s} == held;
    ThenIsOrderedIff(held, OrderRelock(topic, s), both, Unlock(s, rest));
  }

  /** One round of the loop: both are held, and then what was held before. */
  lemma RelockHoldsBoth(others: multiset<Mutex>, topic: Mutex, s: Mutex, rest: Program)
    requires !topic.outer && !s.outer && s != topic && s !in others
    ensures var p := Then(OrderRelock(topic, s), Unlock(s, rest));
      && HoldsBoth(others + multiset{topic}, p, topic, s)
      && (forall final :: EndsHolding(others + multiset{topic}, p, final) <==> EndsHolding(others + multiset{topic}, rest, final))
      && (forall m :: HoldsBoth(others + multiset{topic}, rest, topic, m) ==> HoldsBoth(others + multiset{topic}, p, topic, m))
  {
    var held, both, q := others + multiset{topic}, others + multiset{topic, s}, Unlock(s, rest);
    OrderRelockIsOrderedIff(others, topic, s);
    assert both - multiset{s} == held;
    ThenHoldsBoth(held, OrderRelock(topic, s), both, q, topic, s);
    forall final
      ensures EndsHolding(held, Then(OrderRelock(topic, s), q), final) <==> EndsHolding(held, rest, final)
    {
      ThenEndsHolding(held, OrderRelock(topic, s), both, q, final);
    }
    forall m | HoldsBoth(held, rest, topic, m)
      ensures HoldsBoth(held, Then(OrderRelock(topic, s), q), topic, m)
    {
      ThenHoldsBoth(held, OrderRelock(topic, s), both, q, topic, m);
    }
  }

  /** The loop takes each subscriber's mutex, with the topic's, and holds nothing more at its end. */
  lemma {:induction false} RelocksHoldEach(others: multiset<Mutex>, topic: Mutex, subscribers: seq<Mutex>)
    requires !topic.outer && topic !in subscribers
    requires forall s :: s in subscribers ==> !s.outer && s !in others
    ensures EndsHolding(others + multiset{topic}, Relocks(topic, subscribers), others + multiset{topic})
    ensures forall s :: s in subscribers ==> HoldsBoth(others + multiset{topic}, Relocks(topic, subscribers), topic, s)
  {
    if subscribers != [] {
      var s, rest := subscribers[0], subscribers[1..];
      assert forall r :: r in subscribers <==> r == s || r in rest;
      RelocksHoldEach(others, topic, rest);
      RelockHoldsBoth(others, topic, s, Relocks(topic, rest));
    }
  }

  /** Clearing or erasing a topic: whatever the try-locks answer, each subscriber's mutex is taken while
      the topic's is held, and only the topic's is held at the end, once or twice. */
  lemma ClearHoldsEach(topic: Mutex, subscribers: seq<Mutex>)
    requires !topic.outer && topic !in subscribers && forall s :: s in subscribers ==> !s.outer
    ensures EndsHolding(multiset{}, Clear(topic, subscribers), multiset{topic})
    ensures EndsHolding(multiset{}, EraseTopic(topic, subscribers), multiset{topic, topic})
    ensures forall s :: s in subscribers ==>
      HoldsBoth(multiset{}, Clear(topic, subscribers), topic, s) && HoldsBoth(multiset{}, EraseTopic(topic, subscribers), topic, s)
  {
    RelocksHoldEach(multiset{}, topic, subscribers);
    RelocksHoldEach(multiset{topic}, topic, subscribers);
    assert multiset{} + multiset{topic} == multiset{topic};
    assert multiset{topic} + multiset{topic} == multiset{topic, topic};
  }

  /** Clearing a topic on its own is always ordered ... */
  lemma ClearIsOrdered(topic: Mutex, subscribers: seq<Mutex>)
    requires !topic.outer && topic !in subscribers && forall s :: s in subscribers ==> !s.outer
    ensures Ordered(multiset{}, Clear(topic, subscribers))
  {
    RelocksAreOrderedIff(multiset{}, topic, subscribers);
  }

  /** ... erasing it, with the mutex locked twice, only if its address is below that of every
      subscriber: the unlock of OrderRelock then does not let go of it. */
  lemma EraseTopicIsOrderedIff(topic: Mutex, subscribers: seq<Mutex>)
    requires !topic.outer && topic !in subscribers && forall s :: s in subscribers ==> !s.outer
    ensures Ordered(multiset{}, EraseTopic(topic, subscribers))
      <==> (forall s :: s in subscribers ==> topic.address < s.address)
  {
    RelocksAreOrderedIff(multiset{topic}, topic, subscribers);
    assert multiset{} + multiset{topic} == multiset{topic};
  }

  /** TopicServer::unsubscribe: the subscriber's lock and the relock of the topic, all under the
      server's own mutex. */
  lemma ServerUnsubscribeIsOrdered(server: Mutex, subscriber: Mutex, topic: Mutex)
    requires server.outer && !subscriber.outer && !topic.outer && subscriber != topic
    ensures Ordered(multiset{}, Lock(server, Then(ScopeLock(subscriber), OrderRelock(subscriber, topic))))
  {
    OrderRelockIsOrderedIff(multiset{server}, subscriber, topic);
    var held := multiset{} + multiset{server};
    assert held == multiset{server};
    ThenIsOrderedIff(held, ScopeLock(subscriber), multiset{server} + multiset{subscriber}, OrderRelock(subscriber, topic));
  }

  // The interleaving.

  datatype Thread = Thread(held: multiset<Mutex>, todo: Program)

  /** "owner" is the table of the operating system: which thread has entered which mutex. */
  datatype State = State(owner: map<Mutex, Tid>, threads: map<Tid, Thread>)

  ghost predicate Init(s: State) {
    s.owner == map[] && forall t :: t in s.threads ==> s.threads[t] == Thread(multiset{}, Return)
  }

  predicate Available(s: State, t: Tid, m: Mutex) {
    m !in s.owner || s.owner[m] == t
  }

  function Continue(s: State, t: Tid, todo: Program): State
    requires t in s.threads
  {
    s.(threads := s.threads[t := Thread(s.threads[t].held, todo)])
  }

  function Enter(s: State, t: Tid, m: Mutex, todo: Program): State
    requires t in s.threads
  {
    State(s.owner[m := t], s.threads[t := Thread(s.threads[t].held + multiset{m}, todo)])
  }

  function Leave(s: State, t: Tid, m: Mutex, todo: Program): State
    requires t in s.threads
  {
    var held := s.threads[t].held - multiset{m};
    State(if m in held then s.owner else s.owner - {m}, s.threads[t := Thread(held, todo)])
  }

  /** What a thread may run next: anything it holds it may let go of, and it may begin whatever
      waits only for mutexs that those it holds are below, or for one it has. */
  ghost predicate Upward(held: multiset<Mutex>, p: Program) {
    || (exists m :: m in held && p == Unlock(m, Return))
    || (exists m :: p == ScopeLock(m) && (m in held || forall h :: h in held ==> Below(h, m)))
    || (exists m1, m2 :: p == OrderLock(m1, m2) && BothAbove(held, m1, m2))
    || (exists ms :: p == LockAll(ms) && AllAbove(held, ms))
    || (exists others, m1, m2 :: p == OrderRelock(m1, m2) && held == others + multiset{m1} && RelockAbove(others, m1, m2))
  }

  ghost predicate BothAbove(held: multiset<Mutex>, m1: Mutex, m2: Mutex) {
    !m1.outer && !m2.outer && forall h :: h in held ==> Below(h, m1) && Below(h, m2)
  }

  ghost predicate AllAbove(held: multiset<Mutex>, ms: seq<Mutex>) {
    && Ascending(ms) && (forall i :: 0 <= i < |ms| ==> !ms[i].outer)
    && forall h, i :: h in held && 0 <= i < |ms| ==> h == ms[i] || Below(h, ms[i])
  }

  ghost predicate RelockAbove(others: multiset<Mutex>, m1: Mutex, m2: Mutex) {
    !m1.outer && !m2.outer && (m1 == m2 || forall h :: h in others ==> Below(h, m2))
  }

  const UNSUBSCRIBER: Tid := 0
  const PUBLISHER: Tid := 1

  /** What the threads of a run begin: anything upward; or one thread unsubscribes from a topic
      that the publishing thread erases, as the source has it. */
  datatype Rule = AnyUpward | EraseAndUnsubscribe(subscriber: Mutex, topic: Mutex)

  ghost predicate Begins(rule: Rule, t: Tid, held: multiset<Mutex>, p: Program) {
    match rule
    case AnyUpward => Upward(held, p)
    case EraseAndUnsubscribe(s, m) =>
      || (exists h :: h in held && p == Unlock(h, Return))
      || (t == UNSUBSCRIBER && held == multiset{} && p == ScopeLock(s))
      || (t == UNSUBSCRIBER && held == multiset{s} && p == OrderRelock(s, m))
      || (t == PUBLISHER && held in {multiset{}, multiset{m}} && p == ScopeLock(m))
      || (t == PUBLISHER && held == multiset{m, m} && p == OrderRelock(m, s))
  }

  ghost predicate Step(rule: Rule, s: State, t: Tid, s': State) {
    && t in s.threads
    && var th := s.threads[t];
      match th.todo
      case Return => exists p :: Begins(rule, t, th.held, p) && s' == Continue(s, t, p)
      case Lock(m, rest) => Available(s, t, m) && s' == Enter(s, t, m, rest)
      case Unlock(m, rest) => s' == Leave(s, t, m, rest)
      case TryLock(m, taken, refused) =>
        s' == if Available(s, t, m) then Enter(s, t, m, taken) else Continue(s, t, refused)
  }

  ghost predicate Next(rule: Rule, s: State, s': State) {
    exists t :: Step(rule, s, t, s')
  }

  ghost predicate IsRun(rule: Rule, run: seq<State>) {
    run != [] && Init(run[0]) && forall i :: 0 <= i < |run| - 1 ==> Next(rule, run[i], run[i + 1])
  }

  /** The owner table says exactly who holds what. */
  ghost predicate Consistent(s: State) {
    HoldersOwn(s) && OwnersHold(s)
  }

  ghost predicate HoldersOwn(s: State) {
    forall t, m :: t in s.threads && m in s.threads[t].held ==> m in s.owner && s.owner[m] == t
  }

  ghost predicate OwnersHold(s: State) {
    forall m :: m in s.owner ==> s.owner[m] in s.threads && m in s.threads[s.owner[m]].held
  }

  ghost predicate Inv(s: State) {
    Consistent(s) && forall t :: t in s.threads ==> Ordered(s.threads[t].held, s.threads[t].todo)
  }

  lemma ContinueConsistent(s: State, t: Tid, todo: Program)
    requires Consistent(s) && t in s.threads
    ensures Consistent(Continue(s, t, todo))
  {
  }

  lemma EnterConsistent(s: State, t: Tid, m: Mutex, todo: Program)
    requires Consistent(s) && t in s.threads && Available(s, t, m)
    ensures Consistent(Enter(s, t, m, todo))
  {
    var s' := Enter(s, t, m, todo);
    forall k
      ensures k in s'.threads[t].held <==> k == m || k in s.threads[t].held
    {
    }
    EnterHoldersOwn(s, t, m, s');
    EnterOwnersHold(s, t, m, s');
  }

  lemma EnterHoldersOwn(s: State, t: Tid, m: Mutex, s': State)
    requires HoldersOwn(s) && t in s.threads && Available(s, t, m) && t in s'.threads && s'.owner == s.owner[m := t]
    requires s'.threads.Keys == s.threads.Keys && forall u :: u in s.threads && u != t ==> s'.threads[u] == s.threads[u]
    requires forall k :: k in s'.threads[t].held <==> k == m || k in s.threads[t].held
    ensures HoldersOwn(s')
  {
    forall u, k | u in s'.threads && k in s'.threads[u].held
      ensures k in s'.owner && s'.owner[k] == u
    {
      assert u == t || k in s.threads[u].held;
    }
  }

  lemma EnterOwnersHold(s: State, t: Tid, m: Mutex, s': State)
    requires OwnersHold(s) && t in s.threads && t in s'.threads && s'.owner == s.owner[m := t]
    requires s'.threads.Keys == s.threads.Keys && forall u :: u in s.threads && u != t ==> s'.threads[u] == s.threads[u]
    requires forall k :: k in s'.threads[t].held <==> k == m || k in s.threads[t].held
    ensures OwnersHold(s')
  {
    forall k | k in s'.owner
      ensures s'.owner[k] in s'.threads && k in s'.threads[s'.owner[k]].held
    {
      assert k != m ==> k in s.threads[s.owner[k]].held;
    }
  }

  lemma LeaveConsistent(s: State, t: Tid, m: Mutex, todo: Program)
    requires Consistent(s) && t in s.threads && m in s.threads[t].held
    ensures Consistent(Leave(s, t, m, todo))
  {
    var s' := Leave(s, t, m, todo);
    assert s.owner[m] == t;
    assert forall k :: k in s'.threads[t].held ==> k in s.threads[t].held;
    assert forall k :: k in s.threads[t].held && k != m ==> k in s'.threads[t].held;
    LeaveHoldersOwn(s, t, m, s');
    LeaveOwnersHold(s, t, m, s');
  }

  lemma LeaveHoldersOwn(s: State, t: Tid, m: Mutex, s': State)
    requires HoldersOwn(s) && t in s.threads && m in s.threads[t].held && t in s'.threads
    requires s'.owner == if m in s'.threads[t].held then s.owner else s.owner - {m}
    requires s'.threads.Keys == s.threads.Keys && forall u :: u in s.threads && u != t ==> s'.threads[u] == s.threads[u]
    requires forall k :: k in s'.threads[t].held ==> k in s.threads[t].held
    ensures HoldersOwn(s')
  {
    forall u, k | u in s'.threads && k in s'.threads[u].held
      ensures k in s'.owner && s'.owner[k] == u
    {
      assert k in s.threads[u].held;
      assert s.owner[k] == u && s.owner[m] == t;
    }
  }

  lemma LeaveOwnersHold(s: State, t: Tid, m: Mutex, s': State)
    requires OwnersHold(s) && t in s.threads && m in s.owner && s.owner[m] == t && t in s'.threads
    requires s'.owner == if m in s'.threads[t].held then s.owner else s.owner - {m}
    requires s'.threads.Keys == s.threads.Keys && forall u :: u in s.threads && u != t ==> s'.threads[u] == s.threads[u]
    requires forall k :: k in s.threads[t].held && k != m ==> k in s'.threads[t].held
    ensures OwnersHold(s')
  {
    forall k | k in s'.owner
      ensures s'.owner[k] in s'.threads && k in s'.threads[s'.owner[k]].held
    {
      assert k in s.threads[s.owner[k]].held;
    }
  }

  lemma UpwardIsOrdered(held: multiset<Mutex>, p: Program)
    requires Upward(held, p)
    ensures Ordered(held, p)
  {
    if m1, m2 :| p == OrderLock(m1, m2) && BothAbove(held, m1, m2) {
      OrderLockIsOrdered(held, m1, m2);
    } else if ms :| p == LockAll(ms) && AllAbove(held, ms) {
      LockAllIsOrdered(ms, held);
    } else if others, m1, m2 :| p == OrderRelock(m1, m2) && held == others + multiset{m1} && RelockAbove(others, m1, m2) {
      if m1 != m2 {
        OrderRelockIsOrderedIff(others, m1, m2);
      }
    }
  }

  lemma StepKeepsConsistent(s: State, t: Tid, s': State)
    requires Consistent(s) && Step(AnyUpward, s, t, s')
    requires s.threads[t].todo.Unlock? ==> s.threads[t].todo.mutex in s.threads[t].held
    ensures Consistent(s')
  {
    match s.threads[t].todo
    case Return =>
      var p :| s' == Continue(s, t, p);
      ContinueConsistent(s, t, p);
    case Lock(m, rest) => EnterConsistent(s, t, m, rest);
    case Unlock(m, rest) => LeaveConsistent(s, t, m, rest);
    case TryLock(m, taken, refused) =>
      if Available(s, t, m) {
        EnterConsistent(s, t, m, taken);
      } else {
        ContinueConsistent(s, t, refused);
      }
  }

  lemma StepKeepsOrdered(s: State, t: Tid, s': State)
    requires t in s.threads && Ordered(s.threads[t].held, s.threads[t].todo) && Step(AnyUpward, s, t, s')
    ensures t in s'.threads && Ordered(s'.threads[t].held, s'.threads[t].todo)
    ensures s'.threads == s.threads[t := s'.threads[t]]
  {
    var th := s.threads[t];
    if th.todo.Return? {
      var p :| Upward(th.held, p) && s' == Continue(s, t, p);
      UpwardIsOrdered(th.held, p);
    }
  }

  lemma StepKeepsInv(s: State, t: Tid, s': State)
    requires Inv(s) && Step(AnyUpward, s, t, s')
    ensures Inv(s')
  {
    StepKeepsOrdered(s, t, s');
    StepKeepsConsistent(s, t, s');
  }

  lemma {:induction false} RunsKeepInv(run: seq<State>, i: nat)
    requires IsRun(AnyUpward, run) && i < |run|
    ensures Inv(run[i])
  {
    if i > 0 {
      RunsKeepInv(run, i - 1);
      assert Next(AnyUpward, run[i - 1], run[i - 1 + 1]);
      var t :| Step(AnyUpward, run[i - 1], t, run[i]);
      StepKeepsInv(run[i - 1], t, run[i]);
    }
  }

  /** What a program is to end with, and which mutexs it is to hold together, is what the thread that
      runs it comes to, step by step. */
  lemma StepKeepsEnd(rule: Rule, s: State, t: Tid, s': State, final: multiset<Mutex>, m1: Mutex, m2: Mutex)
    requires Step(rule, s, t, s') && !s.threads[t].todo.Return?
    ensures t in s'.threads && var th, th' := s.threads[t], s'.threads[t];
      && (EndsHolding(th.held, th.todo, final) ==> EndsHolding(th'.held, th'.todo, final))
      && (HoldsBoth(th.held, th.todo, m1, m2) ==> (m1 in th.held && m2 in th.held) || HoldsBoth(th'.held, th'.todo, m1, m2))
      && (th'.todo.Return? && EndsHolding(th.held, th.todo, final) ==> th'.held == final)
  {
  }

  /** No two threads ever hold the same mutex. */
  lemma MutualExclusion(run: seq<State>, i: nat, t: Tid, u: Tid, m: Mutex)
    requires IsRun(AnyUpward, run) && i < |run| && t in run[i].threads && u in run[i].threads
    requires m in run[i].threads[t].held && m in run[i].threads[u].held
    ensures t == u
  {
    RunsKeepInv(run, i);
    assert HoldersOwn(run[i]);
    assert run[i].owner[m] == t && run[i].owner[m] == u;
  }

  // Blocking.

  predicate Blocked(s: State, t: Tid) {
    t in s.threads && s.threads[t].todo.Lock? && !Available(s, t, s.threads[t].todo.mutex)
  }

  /** Every mutex a blocked thread holds is below the one it waits for. */
  lemma BlockedWaitsAbove(s: State, t: Tid)
    requires Inv(s) && Blocked(s, t)
    ensures forall h :: h in s.threads[t].held ==> Below(h, s.threads[t].todo.mutex)
  {
  }

  ghost predicate WaitsFor(s: State, t: Tid, u: Tid) {
    Blocked(s, t) && s.owner[s.threads[t].todo.mutex] == u
  }

  ghost predicate WaitChain(s: State, chain: seq<Tid>) {
    chain != [] && forall i :: 0 <= i < |chain| - 1 ==> WaitsFor(s, chain[i], chain[i + 1])
  }

  /** Along a chain of waiting threads the awaited mutexs strictly ascend ... */
  lemma {:induction false} ChainAscends(s: State, chain: seq<Tid>, i: nat, j: nat)
    requires Inv(s) && WaitChain(s, chain) && i < j < |chain| && Blocked(s, chain[j])
    ensures Blocked(s, chain[i]) && Below(s.threads[chain[i]].todo.mutex, s.threads[chain[j]].todo.mutex)
    decreases j
  {
    assert WaitsFor(s, chain[j - 1], chain[j - 1 + 1]);
    BlockedWaitsAbove(s, chain[j]);
    if i < j - 1 {
      ChainAscends(s, chain, i, j - 1);
    }
  }

  /** ... so no chain comes back to a thread it started from. */
  lemma WaitsForIsAcyclic(s: State, chain: seq<Tid>)
    requires Inv(s) && WaitChain(s, chain) && |chain| > 1
    ensures chain[0] != chain[|chain| - 1]
  {
    if chain[0] == chain[|chain| - 1] {
      assert WaitsFor(s, chain[0], chain[0 + 1]);
      ChainAscends(s, chain, 0, |chain| - 1);
    }
  }

  ghost predicate CanStep(s: State, t: Tid) {
    exists s' :: Step(AnyUpward, s, t, s')
  }

  lemma UnblockedCanStep(s: State, t: Tid)
    requires t in s.threads && !Blocked(s, t)
    ensures CanStep(s, t)
  {
    var th := s.threads[t];
    match th.todo
    case Return =>
      var p := if m :| m in th.held then Unlock(m, Return) else ScopeLock(Mutex(true, 0));
      assert Upward(th.held, p);
      assert Step(AnyUpward, s, t, Continue(s, t, p));
    case Lock(m, rest) => assert Step(AnyUpward, s, t, Enter(s, t, m, rest));
    case Unlock(m, rest) => assert Step(AnyUpward, s, t, Leave(s, t, m, rest));
    case TryLock(m, taken, refused) =>
      assert Step(AnyUpward, s, t, if Available(s, t, m) then Enter(s, t, m, taken) else Continue(s, t, refused));
  }

  /** The place of a mutex in the order of waiting. */
  function Rank(m: Mutex, top: nat): nat {
    if m.outer then m.address else top + 1 + m.address
  }

  ghost function Top(ms: set<Mutex>): (top: nat)
    ensures forall m :: m in ms ==> m.address <= top
  {
    if ms == {} then 0
    else
      var m :| m in ms;
      var rest := Top(ms - {m});
      assert forall n :: n in ms ==> n == m || n in ms - {m};
      if m.address < rest then rest else m.address
  }

  /** From a blocked thread, the owners it waits on lead to a thread that can step. */
  lemma {:induction false} BlockedChainEndsUnblocked(s: State, t: Tid, top: nat) returns (chain: seq<Tid>)
    requires Inv(s) && t in s.threads
    requires forall m :: m in s.owner ==> m.address <= top
    ensures WaitChain(s, chain) && chain[0] == t
    ensures var last := chain[|chain| - 1]; last in s.threads && !Blocked(s, last) && CanStep(s, last)
    decreases if Blocked(s, t) then 2 * top + 1 - Rank(s.threads[t].todo.mutex, top) else -1
  {
    if !Blocked(s, t) {
      UnblockedCanStep(s, t);
      return [t];
    }
    var u := s.owner[s.threads[t].todo.mutex];
    assert WaitsFor(s, t, u);
    if Blocked(s, u) {
      BlockedWaitsAbove(s, u);
    }
    var tail := BlockedChainEndsUnblocked(s, u, top);
    chain := [t] + tail;
    forall i | 0 <= i < |chain| - 1
      ensures WaitsFor(s, chain[i], chain[i + 1])
    {
      if i > 0 {
        assert WaitsFor(s, tail[i - 1], tail[i - 1 + 1]);
      }
    }
  }

  /** No deadlock: in every state of every run, each thread either can step or waits, through the
      owners of the awaited mutexs, for a thread that can. */
  lemma NoDeadlock(run: seq<State>, i: nat, t: Tid) returns (chain: seq<Tid>)
    requires IsRun(AnyUpward, run) && i < |run| && t in run[i].threads
    ensures WaitChain(run[i], chain) && chain[0] == t
    ensures CanStep(run[i], chain[|chain| - 1])
  {
    RunsKeepInv(run, i);
    chain := BlockedChainEndsUnblocked(run[i], t, Top(run[i].owner.Keys));
  }

  // Erasing a topic while a subscriber leaves it.

  ghost predicate Deadlocked(s: State) {
    exists chain :: |chain| > 1 && WaitChain(s, chain) && chain[0] == chain[|chain| - 1]
  }

  /** With the topic's address below the subscriber's, both threads only ever wait upward. */
  lemma {:induction false} EraseIsUpward(s: Mutex, m: Mutex, run: seq<State>)
    requires !s.outer && !m.outer && m.address < s.address && IsRun(EraseAndUnsubscribe(s, m), run)
    ensures IsRun(AnyUpward, run)
  {
    forall i | 0 <= i < |run| - 1
      ensures Next(AnyUpward, run[i], run[i + 1])
    {
      assert Next(EraseAndUnsubscribe(s, m), run[i], run[i + 1]);
      var t :| Step(EraseAndUnsubscribe(s, m), run[i], t, run[i + 1]);
      var th := run[i].threads[t];
      if th.todo.Return? {
        var p :| Begins(EraseAndUnsubscribe(s, m), t, th.held, p) && run[i + 1] == Continue(run[i], t, p);
        PairIsUpward(s, m, t, th.held, p);
      }
      assert Step(AnyUpward, run[i], t, run[i + 1]);
    }
  }

  lemma PairIsUpward(s: Mutex, m: Mutex, t: Tid, held: multiset<Mutex>, p: Program)
    requires !s.outer && !m.outer && m.address < s.address && Begins(EraseAndUnsubscribe(s, m), t, held, p)
    ensures Upward(held, p)
  {
    if t == UNSUBSCRIBER && held == multiset{s} && p == OrderRelock(s, m) {
      assert held == multiset{} + multiset{s} && RelockAbove(multiset{}, s, m);
    } else if t == PUBLISHER && held == multiset{m, m} && p == OrderRelock(m, s) {
      assert held == multiset{m} + multiset{m} && RelockAbove(multiset{m}, m, s);
    }
  }

  function Both(owner: map<Mutex, Tid>, unsubscriber: Thread, publisher: Thread): State {
    State(owner, map[UNSUBSCRIBER := unsubscriber, PUBLISHER := publisher])
  }

  /** The other way round they can wait for each other for ever: the unsubscriber has its own mutex
      and asks for the topic's; the publisher has the topic's twice, lets go of it once, and asks
      for the subscriber's. */
  function Stage(s: Mutex, m: Mutex, k: nat): State {
    var idle, mine, waiting := Thread(multiset{}, Return), Thread(multiset{s}, Return), Thread(multiset{s}, Lock(m, Return));
    var one, two := map[s := UNSUBSCRIBER], map[s := UNSUBSCRIBER, m := PUBLISHER];
    var again := Lock(s, Lock(m, Return));
    match k
    case 0 => Both(map[], idle, idle)
    case 1 => Both(map[], Thread(multiset{}, Lock(s, Return)), idle)
    case 2 => Both(one, mine, idle)
    case 3 => Both(one, waiting, idle)
    case 4 => Both(one, waiting, Thread(multiset{}, Lock(m, Return)))
    case 5 => Both(two, waiting, Thread(multiset{m}, Return))
    case 6 => Both(two, waiting, Thread(multiset{m}, Lock(m, Return)))
    case 7 => Both(two, waiting, Thread(multiset{m, m}, Return))
    case 8 => Both(two, waiting, Thread(multiset{m, m}, TryLock(s, Return, Unlock(m, again))))
    case 9 => Both(two, waiting, Thread(multiset{m, m}, Unlock(m, again)))
    case _ => Both(two, waiting, Thread(multiset{m}, again))
  }

  function DeadlockRun(s: Mutex, m: Mutex): (run: seq<State>)
    ensures |run| == 11 && forall k :: 0 <= k < 11 ==> run[k] == Stage(s, m, k)
  {
    seq(11, k requires 0 <= k < 11 => Stage(s, m, k))
  }

  lemma BeginStep(rule: Rule, a: State, t: Tid, p: Program, b: State)
    requires t in a.threads && a.threads[t].todo == Return && Begins(rule, t, a.threads[t].held, p)
    requires b == Continue(a, t, p)
    ensures Next(rule, a, b)
  {
    assert Step(rule, a, t, b);
  }

  lemma EnterStep(rule: Rule, a: State, t: Tid, m: Mutex, rest: Program, b: State)
    requires t in a.threads && a.threads[t].todo == Lock(m, rest) && Available(a, t, m) && b == Enter(a, t, m, rest)
    ensures Next(rule, a, b)
  {
    assert Step(rule, a, t, b);
  }

  lemma UnsubscriberSteps(s: Mutex, m: Mutex)
    requires !s.outer && !m.outer && s.address < m.address
    ensures forall k :: 0 <= k < 3 ==> Next(EraseAndUnsubscribe(s, m), Stage(s, m, k), Stage(s, m, k + 1))
  {
    var rule := EraseAndUnsubscribe(s, m);
    BeginStep(rule, Stage(s, m, 0), UNSUBSCRIBER, ScopeLock(s), Stage(s, m, 1));
    assert multiset{} + multiset{s} == multiset{s};
    EnterStep(rule, Stage(s, m, 1), UNSUBSCRIBER, s, Return, Stage(s, m, 2));
    BeginStep(rule, Stage(s, m, 2), UNSUBSCRIBER, OrderRelock(s, m), Stage(s, m, 3));
    assert Stage(s, m, 1) == Stage(s, m, 0 + 1);
  }

  lemma PublisherLocks(s: Mutex, m: Mutex)
    requires !s.outer && !m.outer && s.address < m.address
    ensures forall k :: 3 <= k < 5 ==> Next(EraseAndUnsubscribe(s, m), Stage(s, m, k), Stage(s, m, k + 1))
  {
    var rule := EraseAndUnsubscribe(s, m);
    BeginStep(rule, Stage(s, m, 3), PUBLISHER, ScopeLock(m), Stage(s, m, 4));
    assert multiset{} + multiset{m} == multiset{m};
    EnterStep(rule, Stage(s, m, 4), PUBLISHER, m, Return, Stage(s, m, 5));
  }

  lemma PublisherLocksAgain(s: Mutex, m: Mutex)
    requires !s.outer && !m.outer && s.address < m.address
    ensures forall k :: 5 <= k < 7 ==> Next(EraseAndUnsubscribe(s, m), Stage(s, m, k), Stage(s, m, k + 1))
  {
    var rule := EraseAndUnsubscribe(s, m);
    var two := map[s := UNSUBSCRIBER, m := PUBLISHER];
    BeginStep(rule, Stage(s, m, 5), PUBLISHER, ScopeLock(m), Stage(s, m, 6));
    assert multiset{m} + multiset{m} == multiset{m, m} && two[m := PUBLISHER] == two;
    EnterStep(rule, Stage(s, m, 6), PUBLISHER, m, Return, Stage(s, m, 7));
  }

  lemma PublisherRelocks(s: Mutex, m: Mutex)
    requires !s.outer && !m.outer && s.address < m.address
    ensures forall k :: 7 <= k < 9 ==> Next(EraseAndUnsubscribe(s, m), Stage(s, m, k), Stage(s, m, k + 1))
  {
    var rule := EraseAndUnsubscribe(s, m);
    BeginStep(rule, Stage(s, m, 7), PUBLISHER, OrderRelock(m, s), Stage(s, m, 8));
    assert Stage(s, m, 9) == Continue(Stage(s, m, 8), PUBLISHER, Unlock(m, Lock(s, Lock(m, Return))));
    assert Step(rule, Stage(s, m, 8), PUBLISHER, Stage(s, m, 9));
  }

  lemma PublisherUnlocks(s: Mutex, m: Mutex)
    requires !s.outer && !m.outer && s.address < m.address
    ensures Next(EraseAndUnsubscribe(s, m), Stage(s, m, 9), Stage(s, m, 10))
  {
    var before, after, again := Stage(s, m, 9), Stage(s, m, 10), Lock(s, Lock(m, Return));
    assert multiset{m, m} - multiset{m} == multiset{m};
    assert after.threads == before.threads[PUBLISHER := Thread(multiset{m}, again)];
    LeaveStep(EraseAndUnsubscribe(s, m), before, PUBLISHER, m, again, after);
  }

  lemma LeaveStep(rule: Rule, a: State, t: Tid, m: Mutex, rest: Program, b: State)
    requires t in a.threads && a.threads[t].todo == Unlock(m, rest) && b == Leave(a, t, m, rest)
    ensures Next(rule, a, b)
  {
    assert Step(rule, a, t, b);
  }

  lemma DeadlockIsRun(s: Mutex, m: Mutex)
    requires !s.outer && !m.outer && s.address < m.address
    ensures IsRun(EraseAndUnsubscribe(s, m), DeadlockRun(s, m))
  {
    var rule, run := EraseAndUnsubscribe(s, m), DeadlockRun(s, m);
    forall k | 0 <= k < 10
      ensures Next(rule, run[k], run[k + 1])
    {
      StageStep(s, m, k);
    }
  }

  lemma StageStep(s: Mutex, m: Mutex, k: nat)
    requires !s.outer && !m.outer && s.address < m.address && k < 10
    ensures Next(EraseAndUnsubscribe(s, m), Stage(s, m, k), Stage(s, m, k + 1))
  {
    if k < 3 {
      UnsubscriberSteps(s, m);
    } else if k < 5 {
      PublisherLocks(s, m);
    } else if k < 7 {
      PublisherLocksAgain(s, m);
    } else if k < 9 {
      PublisherRelocks(s, m);
    } else {
      PublisherUnlocks(s, m);
    }
  }

  lemma WaitingForEachOther(s: State, t: Tid, u: Tid)
    requires WaitsFor(s, t, u) && WaitsFor(s, u, t)
    ensures Deadlocked(s)
  {
    var chain := [t, u, t];
    assert WaitChain(s, chain);
  }

  lemma EraseDeadlocks(s: Mutex, m: Mutex)
    requires !s.outer && !m.outer && s.address < m.address
    ensures var run := DeadlockRun(s, m);
      && IsRun(EraseAndUnsubscribe(s, m), run)
      && WaitsFor(run[10], UNSUBSCRIBER, PUBLISHER) && WaitsFor(run[10], PUBLISHER, UNSUBSCRIBER)
      && Deadlocked(run[10])
  {
    DeadlockIsRun(s, m);
    WaitingForEachOther(Stage(s, m, 10), UNSUBSCRIBER, PUBLISHER);
  }

  /** A publish_erase_topic and an unsubscribe can deadlock if and only if the subscriber's mutex
      lies below the topic's in memory. */
  lemma EraseDeadlocksIff(s: Mutex, m: Mutex)
    requires !s.outer && !m.outer && s != m
    ensures (exists run, i :: IsRun(EraseAndUnsubscribe(s, m), run) && 0 <= i < |run| && Deadlocked(run[i]))
      <==> s.address < m.address
  {
    if s.address < m.address {
      EraseDeadlocks(s, m);
      assert Deadlocked(DeadlockRun(s, m)[10]);
    } else {
      forall run, i | IsRun(EraseAndUnsubscribe(s, m), run) && 0 <= i < |run|
        ensures !Deadlocked(run[i])
      {
        EraseIsUpward(s, m, run);
        RunsKeepInv(run, i);
        forall chain | |chain| > 1 && WaitChain(run[i], chain)
          ensures chain[0] != chain[|chain| - 1]
        {
          WaitsForIsAcyclic(run[i], chain);
        }
      }
    }
  }
}
