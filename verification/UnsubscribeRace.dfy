/** Any number of threads running Subscriber::unsubscribe on one subscription
    (thread/topic/Subscription.h:277-301), interleaved at every lock, unlock and try-lock.  Other
    threads may hold either mutex at any time, as a publishing thread holds the topic's.
 */
module UnsubscribeRace {
  import LockOrder

  type Tid = nat

  datatype Pc =
    | Start                  // about to lock the subscriber's mutex
    | Search                 // holds the subscriber's mutex, about to walk its list
    | Relock                 // found the node and registered &node on it; enters OrderRelock
    | LockUp                 // subscriber's mutex below the topic's: waits for the topic's, holding its own
    | Refused                // the try-lock failed: about to unlock the subscriber's mutex
    | WantTopic              // holds nothing, waits for the topic's mutex
    | WantSubscriber         // holds the topic's mutex, waits for the subscriber's
    | Locked                 // OrderRelock is constructed: about to test the local pointer
    | LeaveTopic             // ~OrderRelock
    | LeaveSubscriber(result: bool)  // ~ScopeLock
    | Done(result: bool)

  /** "node" is the thread's local pointer: is it not null? */
  datatype Thread = Thread(pc: Pc, node: bool)

  datatype Owner = Free | Held(tid: Tid) | Outside

  datatype State = State(
    threads: map<Tid, Thread>,
    subscriber: Owner,       // who holds the subscriber's mutex
    topic: Owner,            // who holds the topic's mutex
    linked: bool,            // the subscription is on both lists
    erasing: set<Tid>,       // m_erasing_nodes: the threads whose local pointer is registered
    removals: nat)           // how often Subscription::unsubscribe has run on it

  ghost predicate Init(s: State) {
    && (forall t :: t in s.threads ==> s.threads[t] == Thread(Start, false))
    && s.subscriber == Free && s.topic == Free && s.linked && s.erasing == {} && s.removals == 0
  }

  function At(s: State, t: Tid, pc: Pc): State
    requires t in s.threads
  {
    s.(threads := s.threads[t := s.threads[t].(pc := pc)])
  }

  /** Subscription::unsubscribe: null every registered local pointer, unlink the node. */
  function Unsubscribe(s: State): State {
    s.(threads := map u | u in s.threads :: s.threads[u].(node := s.threads[u].node && u !in s.erasing),
       linked := false, removals := s.removals + 1)
  }

  /** One operation of thread t.  "ascending" is whether the subscriber's mutex has the lower address. */
  ghost predicate Step(s: State, t: Tid, s': State, ascending: bool) {
    && t in s.threads
    && match s.threads[t].pc
       case Start => s.subscriber == Free && s' == At(s, t, Search).(subscriber := Held(t))
       case Search =>
         if s.linked then
           s' == s.(threads := s.threads[t := Thread(Relock, true)], erasing := s.erasing + {t})
         else s' == At(s, t, LeaveSubscriber(false))
       case Relock =>
         if ascending then s' == At(s, t, LockUp)
         else if s.topic == Free then s' == At(s, t, Locked).(topic := Held(t))
         else s' == At(s, t, Refused)
       case LockUp => s.topic == Free && s' == At(s, t, Locked).(topic := Held(t))
       case Refused => s' == At(s, t, WantTopic).(subscriber := Free)
       case WantTopic => s.topic == Free && s' == At(s, t, WantSubscriber).(topic := Held(t))
       case WantSubscriber => s.subscriber == Free && s' == At(s, t, Locked).(subscriber := Held(t))
       case Locked => s' == At(if s.threads[t].node then Unsubscribe(s) else s, t, LeaveTopic)
       case LeaveTopic => s' == At(s, t, LeaveSubscriber(true)).(topic := Free)
       case LeaveSubscriber(result) => s' == At(s, t, Done(result)).(subscriber := Free)
       case Done(_) => false
  }

  /** Threads that are not unsubscribing take and release the mutexs. */
  ghost predicate OutsideStep(s: State, s': State) {
    || (s.topic == Free && s' == s.(topic := Outside))
    || (s.topic == Outside && s' == s.(topic := Free))
    || (s.subscriber == Free && s' == s.(subscriber := Outside))
    || (s.subscriber == Outside && s' == s.(subscriber := Free))
  }

  ghost predicate Next(s: State, s': State, ascending: bool) {
    OutsideStep(s, s') || exists t :: Step(s, t, s', ascending)
  }

  ghost predicate IsRun(run: seq<State>, ascending: bool) {
    && run != [] && Init(run[0])
    && forall i :: 0 <= i < |run| - 1 ==> Next(run[i], run[i + 1], ascending)
  }

  predicate HoldsSubscriber(pc: Pc) {
    pc.Search? || pc.Relock? || pc.LockUp? || pc.Refused? || pc.Locked? || pc.LeaveTopic? || pc.LeaveSubscriber?
  }

  predicate HoldsTopic(pc: Pc) {
    pc.WantSubscriber? || pc.Locked? || pc.LeaveTopic?
  }

  /** The thread is between registering its local pointer and testing it, so the pointer is alive. */
  predicate Registered(pc: Pc) {
    pc.Relock? || pc.LockUp? || pc.Refused? || pc.WantTopic? || pc.WantSubscriber? || pc.Locked?
  }

  predicate Past(pc: Pc) {
    pc.LeaveTopic? || pc.LeaveSubscriber? || pc.Done?
  }

  ghost predicate ThreadOk(s: State, t: Tid)
    requires t in s.threads
  {
    var th := s.threads[t];
    && (HoldsSubscriber(th.pc) <==> s.subscriber == Held(t))
    && (HoldsTopic(th.pc) <==> s.topic == Held(t))
    && (Registered(th.pc) ==> t in s.erasing && (th.node <==> s.linked))
    && (t in s.erasing && s.linked ==> Registered(th.pc))
    && (Past(th.pc) ==> !s.linked)
    && (th.pc.Relock? || th.pc.LockUp? || th.pc.Refused? ==> s.linked)
    && (t in s.erasing <==> Registered(th.pc) || Found(th.pc))
  }

  /** The thread has found the node, and is past it: it returns true. */
  predicate Found(pc: Pc) {
    pc.LeaveTopic? || ((pc.LeaveSubscriber? || pc.Done?) && pc.result)
  }

  ghost predicate Inv(s: State) {
    && s.removals == (if s.linked then 0 else 1)
    && (forall t :: t in s.threads ==> ThreadOk(s, t))
    && s.erasing <= s.threads.Keys
    && (!s.linked ==> SomeoneFound(s))
  }

  ghost predicate SomeoneFound(s: State) {
    exists t :: t in s.threads && Found(s.threads[t].pc)
  }

  lemma StepKeepsFound(s: State, t: Tid, s': State, ascending: bool)
    requires Inv(s) && Step(s, t, s', ascending)
    ensures !s'.linked ==> SomeoneFound(s')
  {
    if s.linked {
      assert !s'.linked ==> Found(s'.threads[t].pc);
    } else {
      var u :| u in s.threads && Found(s.threads[u].pc);
      assert Found(s'.threads[u].pc);
    }
  }

  lemma StepKeepsInv(s: State, t: Tid, s': State, ascending: bool)
    requires Inv(s) && Step(s, t, s', ascending)
    ensures Inv(s')
  {
    assert ThreadOk(s, t);
    StepKeepsFound(s, t, s', ascending);
    forall u | u in s'.threads
      ensures ThreadOk(s', u)
    {
      assert ThreadOk(s, u);
    }
  }

  lemma {:induction false} RunsKeepInv(run: seq<State>, i: nat, ascending: bool)
    requires IsRun(run, ascending) && i < |run|
    ensures Inv(run[i])
  {
    if i > 0 {
      RunsKeepInv(run, i - 1, ascending);
      var s, s' := run[i - 1], run[i];
      assert Next(run[i - 1], run[i - 1 + 1], ascending);
      if OutsideStep(s, s') {
        forall t | t in s'.threads
          ensures ThreadOk(s', t)
        {
          assert ThreadOk(s, t);
        }
        assert SomeoneFound(s) ==> SomeoneFound(s');
      } else {
        var t :| Step(s, t, s', ascending);
        StepKeepsInv(s, t, s', ascending);
      }
    }
  }

  /** However many threads race, the node is unsubscribed at most once; as soon as any of them
      has returned, exactly once. */
  lemma RemovedExactlyOnce(run: seq<State>, i: nat, ascending: bool)
    requires IsRun(run, ascending) && i < |run|
    ensures run[i].removals <= 1
    ensures (exists t :: t in run[i].threads && run[i].threads[t].pc.Done?) ==> run[i].removals == 1
  {
    RunsKeepInv(run, i, ascending);
    if t :| t in run[i].threads && run[i].threads[t].pc.Done? {
      assert ThreadOk(run[i], t);
    }
  }

  /** A thread about to test its local pointer holds both mutexs, and the pointer is null exactly
      when another thread has removed the node. */
  lemma LoserFindsNull(run: seq<State>, i: nat, t: Tid, ascending: bool)
    requires IsRun(run, ascending) && i < |run|
    requires t in run[i].threads && run[i].threads[t].pc.Locked?
    ensures run[i].subscriber == Held(t) && run[i].topic == Held(t)
    ensures run[i].threads[t].node <==> run[i].removals == 0
  {
    RunsKeepInv(run, i, ascending);
    assert ThreadOk(run[i], t);
  }

  /** While a thread reads the node to find the topic's mutex, the node is still linked; and when
      the node is unsubscribed, every registered pointer belongs to a thread still inside
      unsubscribe, so only live variables are nulled. */
  lemma OnlyLivePointers(run: seq<State>, i: nat, t: Tid, ascending: bool)
    requires IsRun(run, ascending) && i < |run| && t in run[i].threads
    ensures run[i].threads[t].pc.Relock? ==> run[i].linked
    ensures run[i].threads[t].pc.Locked? && run[i].threads[t].node ==>
      forall u :: u in run[i].erasing ==> u in run[i].threads && Registered(run[i].threads[u].pc)
  {
    RunsKeepInv(run, i, ascending);
    assert ThreadOk(run[i], t);
    forall u | u in run[i].erasing
      ensures ThreadOk(run[i], u)
    {
    }
  }

  /** unsubscribe returns true exactly in the threads that found the node and registered on it, the
      losers among them; and once it has been removed, one of them is its remover. */
  lemma Results(run: seq<State>, i: nat, t: Tid, ascending: bool)
    requires IsRun(run, ascending) && i < |run| && t in run[i].threads && run[i].threads[t].pc.Done?
    ensures run[i].threads[t].pc.result <==> t in run[i].erasing
    ensures exists u :: u in run[i].threads && u in run[i].erasing && Past(run[i].threads[u].pc)
    ensures (forall u :: u in run[i].threads ==> run[i].threads[u].pc.Done?) ==>
      exists u :: u in run[i].threads && run[i].threads[u].pc == Done(true)
  {
    RunsKeepInv(run, i, ascending);
    assert ThreadOk(run[i], t);
    var u :| u in run[i].threads && Found(run[i].threads[u].pc);
    assert ThreadOk(run[i], u);
  }

  // The lock operations are those of OrderRelock.

  /** What is held, and what OrderRelock has still to do, m1 being the subscriber's mutex. */
  ghost function HeldAt(pc: Pc, m1: LockOrder.Mutex, m2: LockOrder.Mutex): multiset<LockOrder.Mutex> {
    if HoldsSubscriber(pc) then if HoldsTopic(pc) then multiset{m1, m2} else multiset{m1}
    else if HoldsTopic(pc) then multiset{m2} else multiset{}
  }

  function TodoAt(pc: Pc, m1: LockOrder.Mutex, m2: LockOrder.Mutex): LockOrder.Program
    requires Registered(pc)
  {
    match pc
    case Relock => LockOrder.OrderRelock(m1, m2)
    case LockUp => LockOrder.Lock(m2, LockOrder.Return)
    case Refused => LockOrder.Unlock(m1, LockOrder.Lock(m2, LockOrder.Lock(m1, LockOrder.Return)))
    case WantTopic => LockOrder.Lock(m2, LockOrder.Lock(m1, LockOrder.Return))
    case WantSubscriber => LockOrder.Lock(m1, LockOrder.Return)
    case Locked => LockOrder.Return
  }

  /** One operation of a program, for a thread to which only "free" is available. */
  ghost predicate Operation(held: multiset<LockOrder.Mutex>, p: LockOrder.Program, free: set<LockOrder.Mutex>,
                            held': multiset<LockOrder.Mutex>, p': LockOrder.Program) {
    match p
    case Return => false
    case Lock(m, rest) => m in free && held' == held + multiset{m} && p' == rest
    case Unlock(m, rest) => m in held && held' == held - multiset{m} && p' == rest
    case TryLock(m, taken, refused) =>
      if m in free then held' == held + multiset{m} && p' == taken else held' == held && p' == refused
  }

  function Unowned(s: State, m1: LockOrder.Mutex, m2: LockOrder.Mutex): set<LockOrder.Mutex> {
    (if s.subscriber == Free then {m1} else {}) + (if s.topic == Free then {m2} else {})
  }

  ghost predicate IsOperation(s: State, pc: Pc, pc': Pc, m1: LockOrder.Mutex, m2: LockOrder.Mutex)
    requires Registered(pc) && Registered(pc')
  {
    Operation(HeldAt(pc, m1, m2), TodoAt(pc, m1, m2), Unowned(s, m1, m2), HeldAt(pc', m1, m2), TodoAt(pc', m1, m2))
  }

  /** Every step of a thread in OrderRelock is the next operation of that program, or none for the
      comparison of the addresses; it ends holding both mutexs, with nothing to do. */
  lemma StepIsOperation(s: State, t: Tid, s': State, m1: LockOrder.Mutex, m2: LockOrder.Mutex)
    requires m1.address != m2.address && Step(s, t, s', m1.address < m2.address)
    requires Registered(s.threads[t].pc) && !s.threads[t].pc.Locked?
    ensures Registered(s'.threads[t].pc)
    ensures var pc, pc' := s.threads[t].pc, s'.threads[t].pc;
      if pc.Relock? && pc'.LockUp? then TodoAt(pc', m1, m2) == TodoAt(pc, m1, m2) && HeldAt(pc', m1, m2) == HeldAt(pc, m1, m2)
      else IsOperation(s, pc, pc', m1, m2)
  {
    var pc, pc' := s.threads[t].pc, s'.threads[t].pc;
    match pc
    case Relock => RelockIsOperation(s, pc', m1, m2);
    case LockUp => LastIsOperation(s, m1, m2);
    case Refused => RefusedIsOperation(s, m1, m2);
    case WantTopic => WantedIsOperation(s, m1, m2);
    case WantSubscriber => LastIsOperation(s, m1, m2);
  }

  lemma RelockIsOperation(s: State, pc': Pc, m1: LockOrder.Mutex, m2: LockOrder.Mutex)
    requires m1.address > m2.address ==> pc' == if s.topic == Free then Locked else Refused
    requires m1.address < m2.address ==> pc' == LockUp
    requires m1.address != m2.address
    ensures m1.address > m2.address ==> IsOperation(s, Relock, pc', m1, m2)
    ensures m1.address < m2.address ==> TodoAt(Relock, m1, m2) == TodoAt(pc', m1, m2) && HeldAt(pc', m1, m2) == HeldAt(Relock, m1, m2)
  {
    assert multiset{m1} + multiset{m2} == multiset{m1, m2};
  }

  lemma RefusedIsOperation(s: State, m1: LockOrder.Mutex, m2: LockOrder.Mutex)
    ensures IsOperation(s, Refused, WantTopic, m1, m2)
  {
    assert multiset{m1} - multiset{m1} == multiset{};
  }

  lemma WantedIsOperation(s: State, m1: LockOrder.Mutex, m2: LockOrder.Mutex)
    ensures s.topic == Free ==> IsOperation(s, WantTopic, WantSubscriber, m1, m2)
  {
    assert multiset{} + multiset{m2} == multiset{m2};
  }

  lemma LastIsOperation(s: State, m1: LockOrder.Mutex, m2: LockOrder.Mutex)
    ensures s.topic == Free ==> IsOperation(s, LockUp, Locked, m1, m2)
    ensures s.subscriber == Free ==> IsOperation(s, WantSubscriber, Locked, m1, m2)
  {
    assert multiset{m1} + multiset{m2} == multiset{m1, m2} == multiset{m2} + multiset{m1};
  }
}
