/** The bounded message queue and its worker loop (thread/MessageQueue.h, thread/MessageServer.h).
    The queue is a monitor: between two waits a thread runs alone, so each step below is one thread
    running from the moment it owns the mutex until it sleeps, returns, or leaves the monitor.
 */
module MessageQueue {

  type Tid = nat
  type Message = nat

  /** A thread that posts: "posting" holds the messages of the calls under way. */
  datatype Producer =
    | Entering(message: Message)   // called post, does not own the mutex yet
    | SleepingFull(message: Message)  // waits on m_full_cond_var
    | WokenFull(message: Message)  // has been notified, does not own the mutex yet
    | Posted                       // between two calls

  /** A worker thread of MessageServer::work. */
  datatype Worker =
    | Popping                      // called pop, does not own the mutex yet
    | SleepingEmpty                // waits on m_empty_cond_var
    | WokenEmpty                   // has been notified, does not own the mutex yet
    | Handling(delivery: Delivery) // popped a message, runs the handler on it
    | Exited                       // pop returned false

  /** A call of post. */
  datatype Call = Call(thread: Tid, message: Message)

  /** A message a worker was given, and its place among all that were popped. */
  datatype Delivery = Delivery(ticket: nat, message: Message)

  datatype State = State(
    capacity: nat,
    deque: seq<Message>,
    closed: bool,
    producers: map<Tid, Producer>,
    workers: map<Tid, Worker>,
    // History.
    calls: seq<Call>,              // every call of post, in the order in which they were begun
    pushed: seq<Call>,             // those whose message has been pushed, in that order
    popped: seq<Message>,          // every message popped, in order
    handled: seq<Delivery>,        // those whose handler has returned or thrown, in order
    pushedAtClose: nat)            // |pushed| when the queue was first closed

  function SleepingWorkers(s: State): set<Tid> {
    set t | t in s.workers && s.workers[t].SleepingEmpty?
  }

  function WokenWorkers(s: State): set<Tid> {
    set t | t in s.workers && s.workers[t].WokenEmpty?
  }

  function SleepingProducers(s: State): set<Tid> {
    set t | t in s.producers && s.producers[t].SleepingFull?
  }

  function WokenProducers(s: State): set<Tid> {
    set t | t in s.producers && s.producers[t].WokenFull?
  }

  ghost predicate Init(s: State) {
    && s.capacity > 0 && s.deque == [] && !s.closed
    && (forall t :: t in s.producers ==> s.producers[t] == Posted)
    && (forall t :: t in s.workers ==> s.workers[t] == Popping)
    && s.calls == [] && s.pushed == [] && s.popped == [] && s.handled == [] && s.pushedAtClose == 0
  }

  // Notification.

  function WakeWorker(s: State, t: Tid): State {
    s.(workers := s.workers[t := WokenEmpty])
  }

  function WakeProducer(s: State, t: Tid): State
    requires t in SleepingProducers(s)
  {
    s.(producers := s.producers[t := WokenFull(s.producers[t].message)])
  }

  /** notify_one wakes one sleeping thread, if there is one. */
  ghost predicate NotifiedWorker(s: State, s': State) {
    if SleepingWorkers(s) == {} then s' == s else exists t :: t in SleepingWorkers(s) && s' == WakeWorker(s, t)
  }

  ghost predicate NotifiedProducer(s: State, s': State) {
    if SleepingProducers(s) == {} then s' == s
    else exists t :: t in SleepingProducers(s) && s' == WakeProducer(s, t)
  }

  // Steps.

  function Push(s: State, t: Tid, m: Message): State {
    s.(deque := s.deque + [m], pushed := s.pushed + [Call(t, m)], producers := s.producers[t := Posted])
  }

  function Pop(s: State, t: Tid): State
    requires s.deque != []
  {
    s.(deque := s.deque[1..], popped := s.popped + [s.deque[0]],
       workers := s.workers[t := Handling(Delivery(|s.popped|, s.deque[0]))])
  }

  /** The body of raw_post, entered for the first time or after a wait. */
  ghost predicate PostStep(s: State, t: Tid, s': State) {
    && t in s.producers && (s.producers[t].Entering? || s.producers[t].WokenFull?)
    && var m := s.producers[t].message;
      if |s.deque| == s.capacity then
        s' == s.(producers := s.producers[t := SleepingFull(m)])
      else
        NotifiedWorker(Push(s, t, m), s')
  }

  /** The body of pop, entered for the first time or after a wait. */
  ghost predicate PopStep(s: State, t: Tid, s': State) {
    && t in s.workers && (s.workers[t].Popping? || s.workers[t].WokenEmpty?)
    && if s.deque == [] then
         s' == s.(workers := s.workers[t := if s.closed then Exited else SleepingEmpty])
       else
         NotifiedProducer(Pop(s, t), s')
  }

  /** The handler returns, or throws an exception that work() catches. */
  ghost predicate HandleStep(s: State, t: Tid, s': State) {
    && t in s.workers && s.workers[t].Handling?
    && s' == s.(handled := s.handled + [s.workers[t].delivery], workers := s.workers[t := Popping])
  }

  /** close(): wake everybody, the first time. */
  ghost predicate CloseStep(s: State, s': State) {
    s' == if s.closed then s else
      s.(closed := true, pushedAtClose := |s.pushed|,
         workers := map t | t in s.workers :: if s.workers[t].SleepingEmpty? then WokenEmpty else s.workers[t],
         producers := map t | t in s.producers ::
           if s.producers[t].SleepingFull? then WokenFull(s.producers[t].message) else s.producers[t])
  }

  /** A caller starts post; a condition variable wakes a thread for no reason. */
  ghost predicate CallStep(s: State, t: Tid, m: Message, s': State) {
    && t in s.producers && s.producers[t].Posted?
    && s' == s.(producers := s.producers[t := Entering(m)], calls := s.calls + [Call(t, m)])
  }

  ghost predicate SpuriousStep(s: State, t: Tid, s': State) {
    || (t in SleepingWorkers(s) && s' == WakeWorker(s, t))
    || (t in SleepingProducers(s) && s' == WakeProducer(s, t))
  }

  ghost predicate Next(s: State, s': State) {
    || CloseStep(s, s')
    || (exists t :: PostStep(s, t, s'))
    || (exists t :: PopStep(s, t, s'))
    || (exists t :: HandleStep(s, t, s'))
    || (exists t, m :: CallStep(s, t, m, s'))
    || (exists t :: SpuriousStep(s, t, s'))
  }

  ghost predicate IsRun(run: seq<State>) {
    run != [] && Init(run[0]) && forall i :: 0 <= i < |run| - 1 ==> Next(run[i], run[i + 1])
  }

  // Wake-ups.

  /** No lost wake-up: a worker sleeps only if the woken workers suffice for what is in the queue,
      a producer only if the woken producers suffice for the free space. */
  ghost predicate Wakeful(s: State) {
    && |s.deque| <= s.capacity
    && (SleepingWorkers(s) != {} ==> |s.deque| <= |WokenWorkers(s)|)
    && (SleepingProducers(s) != {} ==> s.capacity - |s.deque| <= |WokenProducers(s)|)
  }

  lemma WorkersUnchanged(s: State, s': State)
    requires s'.workers == s.workers
    ensures SleepingWorkers(s') == SleepingWorkers(s) && WokenWorkers(s') == WokenWorkers(s)
  {
  }

  lemma ProducersUnchanged(s: State, s': State)
    requires s'.producers == s.producers
    ensures SleepingProducers(s') == SleepingProducers(s) && WokenProducers(s') == WokenProducers(s)
  {
  }

  lemma WorkerMoved(s: State, t: Tid, w: Worker, s': State)
    requires s'.workers == s.workers[t := w]
    ensures SleepingWorkers(s') == SleepingWorkers(s) - {t} + if w.SleepingEmpty? then {t} else {}
    ensures WokenWorkers(s') == WokenWorkers(s) - {t} + if w.WokenEmpty? then {t} else {}
  {
  }

  lemma ProducerMoved(s: State, t: Tid, p: Producer, s': State)
    requires s'.producers == s.producers[t := p]
    ensures SleepingProducers(s') == SleepingProducers(s) - {t} + if p.SleepingFull? then {t} else {}
    ensures WokenProducers(s') == WokenProducers(s) - {t} + if p.WokenFull? then {t} else {}
  {
  }

  /** Waking a worker makes up for the message that was just pushed. */
  lemma WorkerNotified(s: State, s': State)
    requires NotifiedWorker(s, s')
    ensures s'.deque == s.deque && s'.capacity == s.capacity && s'.producers == s.producers
    ensures s'.calls == s.calls && s'.pushed == s.pushed
    ensures SleepingWorkers(s') <= SleepingWorkers(s)
    ensures SleepingWorkers(s) != {} ==> |WokenWorkers(s')| == |WokenWorkers(s)| + 1
  {
    if u :| u in SleepingWorkers(s) && s' == WakeWorker(s, u) {
      WorkerMoved(s, u, WokenEmpty, s');
      assert WokenWorkers(s') == WokenWorkers(s) + {u};
    }
  }

  lemma ProducerNotified(s: State, s': State)
    requires NotifiedProducer(s, s')
    ensures s'.deque == s.deque && s'.capacity == s.capacity && s'.workers == s.workers
    ensures SleepingProducers(s') <= SleepingProducers(s)
    ensures SleepingProducers(s) != {} ==> |WokenProducers(s')| == |WokenProducers(s)| + 1
  {
    if u :| u in SleepingProducers(s) && s' == WakeProducer(s, u) {
      ProducerMoved(s, u, WokenFull(s.producers[u].message), s');
      assert WokenProducers(s') == WokenProducers(s) + {u};
    }
  }

  lemma OneFewer(a: set<Tid>, t: Tid)
    ensures |a - {t}| >= |a| - 1
  {
    if t in a {
      assert a == (a - {t}) + {t};
    } else {
      assert a == a - {t};
    }
  }

  lemma PostStepWakeful(s: State, t: Tid, s': State)
    requires Wakeful(s) && PostStep(s, t, s')
    ensures Wakeful(s')
  {
    var m := s.producers[t].message;
    if |s.deque| == s.capacity {
      ProducerMoved(s, t, SleepingFull(m), s');
      WorkersUnchanged(s, s');
    } else {
      var mid := Push(s, t, m);
      ProducerMoved(s, t, Posted, mid);
      OneFewer(WokenProducers(s), t);
      WorkersUnchanged(s, mid);
      WorkerNotified(mid, s');
      ProducersUnchanged(mid, s');
    }
  }

  lemma PopStepWakeful(s: State, t: Tid, s': State)
    requires Wakeful(s) && PopStep(s, t, s')
    ensures Wakeful(s')
  {
    if s.deque == [] {
      WorkerMoved(s, t, if s.closed then Exited else SleepingEmpty, s');
      ProducersUnchanged(s, s');
    } else {
      var mid := Pop(s, t);
      WorkerMoved(s, t, Handling(Delivery(|s.popped|, s.deque[0])), mid);
      OneFewer(WokenWorkers(s), t);
      ProducersUnchanged(s, mid);
      ProducerNotified(mid, s');
      WorkersUnchanged(mid, s');
    }
  }

  lemma CloseStepWakeful(s: State, s': State)
    requires Wakeful(s) && CloseStep(s, s')
    ensures Wakeful(s')
    ensures s'.closed && (!s.closed ==> SleepingWorkers(s') == {})
  {
  }

  lemma SpuriousStepWakeful(s: State, t: Tid, s': State)
    requires Wakeful(s) && SpuriousStep(s, t, s')
    ensures Wakeful(s')
  {
    if t in SleepingWorkers(s) && s' == WakeWorker(s, t) {
      WorkerMoved(s, t, WokenEmpty, s');
      ProducersUnchanged(s, s');
    } else {
      ProducerMoved(s, t, WokenFull(s.producers[t].message), s');
      WorkersUnchanged(s, s');
    }
  }

  lemma StepWakeful(s: State, s': State)
    requires Wakeful(s) && Next(s, s')
    ensures Wakeful(s')
  {
    if CloseStep(s, s') {
      CloseStepWakeful(s, s');
    } else if t :| PostStep(s, t, s') {
      PostStepWakeful(s, t, s');
    } else if t :| PopStep(s, t, s') {
      PopStepWakeful(s, t, s');
    } else if t :| HandleStep(s, t, s') {
      WorkerMoved(s, t, Popping, s');
      ProducersUnchanged(s, s');
    } else if t, m :| CallStep(s, t, m, s') {
      ProducerMoved(s, t, Entering(m), s');
      WorkersUnchanged(s, s');
    } else {
      var t :| SpuriousStep(s, t, s');
      SpuriousStepWakeful(s, t, s');
    }
  }

  // Conservation, order and draining.

  function Messages(calls: seq<Call>): (r: seq<Message>)
    ensures |r| == |calls| && forall k :: 0 <= k < |r| ==> r[k] == calls[k].message
  {
    seq(|calls|, k requires 0 <= k < |calls| => calls[k].message)
  }

  /** The message popped with ticket k has been handled, or one worker is handling it. */
  ghost predicate Accounted(s: State, k: nat)
    requires k < |s.popped|
  {
    var d := Delivery(k, s.popped[k]);
    d in s.handled || exists t :: t in s.workers && s.workers[t] == Handling(d)
  }

  ghost predicate Given(s: State, d: Delivery) {
    d.ticket < |s.popped| && d.message == s.popped[d.ticket]
  }

  ghost predicate WorkerOk(s: State, t: Tid)
    requires t in s.workers
  {
    match s.workers[t]
    case Handling(d) => Given(s, d) && d !in s.handled
    case Exited => s.closed && s.pushedAtClose <= |s.popped|
    case SleepingEmpty => !s.closed
    case _ => true
  }

  /** Messages leave in the order they were pushed, and each is handled by one worker, once. */
  ghost predicate Conserved(s: State) {
    && Messages(s.pushed) == s.popped + s.deque
    && (s.closed ==> s.pushedAtClose <= |s.pushed|)
    && (forall k :: 0 <= k < |s.popped| ==> Accounted(s, k))
    && (forall d :: d in s.handled ==> Given(s, d))
    && (forall i, j :: 0 <= i < j < |s.handled| ==> s.handled[i] != s.handled[j])
    && (forall t :: t in s.workers ==> WorkerOk(s, t))
    && (forall t, u :: t in s.workers && u in s.workers && s.workers[t].Handling? && s.workers[t] == s.workers[u] ==>
         t == u)
  }

  /** Moving a worker that handles nothing, to a state that is not handling, keeps the accounts. */
  lemma IdleWorkerMoved(s: State, t: Tid, w: Worker, s': State)
    requires Conserved(s) && t in s.workers && !s.workers[t].Handling? && !w.Handling?
    requires s' == s.(workers := s.workers[t := w])
    requires w.Exited? ==> s.closed && s.pushedAtClose <= |s.popped|
    requires w.SleepingEmpty? ==> !s.closed
    ensures Conserved(s')
  {
    forall k | 0 <= k < |s'.popped|
      ensures Accounted(s', k)
    {
      assert Accounted(s, k);
      if u :| u in s.workers && s.workers[u] == Handling(Delivery(k, s.popped[k])) {
        assert s'.workers[u] == Handling(Delivery(k, s.popped[k]));
      }
    }
    forall u | u in s'.workers
      ensures WorkerOk(s', u)
    {
      assert u != t ==> WorkerOk(s, u);
    }
  }

  lemma SameAccounts(s: State, s': State)
    requires Conserved(s) && s'.workers == s.workers && s'.popped == s.popped && s'.handled == s.handled
    requires Messages(s'.pushed) == s'.popped + s'.deque
    requires s'.closed == s.closed && s'.pushedAtClose == s.pushedAtClose && |s.pushed| <= |s'.pushed|
    ensures Conserved(s')
  {
    forall k | 0 <= k < |s'.popped|
      ensures Accounted(s', k)
    {
      assert Accounted(s, k);
    }
    forall u | u in s'.workers
      ensures WorkerOk(s', u)
    {
      assert WorkerOk(s, u);
    }
  }

  lemma PopConserved(s: State, t: Tid)
    requires Conserved(s) && t in s.workers && !s.workers[t].Handling? && s.deque != []
    ensures Conserved(Pop(s, t))
  {
    var s' := Pop(s, t);
    forall k | 0 <= k < |s'.popped|
      ensures Accounted(s', k)
    {
      if k == |s.popped| {
        assert s'.workers[t] == Handling(Delivery(k, s'.popped[k]));
      } else {
        assert Accounted(s, k);
        if u :| u in s.workers && s.workers[u] == Handling(Delivery(k, s.popped[k])) {
          assert s'.workers[u] == Handling(Delivery(k, s'.popped[k]));
        }
      }
    }
    forall d | Given(s, d)
      ensures Given(s', d)
    {
    }
    forall u | u in s'.workers
      ensures WorkerOk(s', u)
    {
      assert u != t ==> WorkerOk(s, u);
    }
    forall u | u in s.workers && s.workers[u].Handling?
      ensures s.workers[u].delivery.ticket != |s.popped|
    {
      assert WorkerOk(s, u);
    }
  }

  lemma HandleConserved(s: State, t: Tid, s': State)
    requires Conserved(s) && HandleStep(s, t, s')
    ensures Conserved(s')
  {
    assert WorkerOk(s, t);
    forall k | 0 <= k < |s'.popped|
      ensures Accounted(s', k)
    {
      assert Accounted(s, k);
      if u :| u in s.workers && s.workers[u] == Handling(Delivery(k, s.popped[k])) {
        assert u != t ==> s'.workers[u] == Handling(Delivery(k, s.popped[k]));
      }
    }
    forall u | u in s'.workers
      ensures WorkerOk(s', u)
    {
      assert WorkerOk(s, u);
    }
  }

  lemma CloseConserved(s: State, s': State)
    requires Conserved(s) && CloseStep(s, s')
    ensures Conserved(s')
  {
    forall k | 0 <= k < |s'.popped|
      ensures Accounted(s', k)
    {
      assert Accounted(s, k);
      if u :| u in s.workers && s.workers[u] == Handling(Delivery(k, s.popped[k])) {
        assert s'.workers[u] == Handling(Delivery(k, s.popped[k]));
      }
    }
    forall u | u in s'.workers
      ensures WorkerOk(s', u)
    {
      assert WorkerOk(s, u);
    }
  }

  lemma PostConserved(s: State, t: Tid, s': State)
    requires Conserved(s) && PostStep(s, t, s')
    ensures Conserved(s')
  {
    if |s.deque| == s.capacity {
      SameAccounts(s, s');
    } else {
      var mid := Push(s, t, s.producers[t].message);
      assert Messages(mid.pushed) == Messages(s.pushed) + [s.producers[t].message];
      SameAccounts(s, mid);
      if u :| u in SleepingWorkers(mid) && s' == WakeWorker(mid, u) {
        IdleWorkerMoved(mid, u, WokenEmpty, s');
      }
    }
  }

  lemma PopStepConserved(s: State, t: Tid, s': State)
    requires Conserved(s) && PopStep(s, t, s')
    ensures Conserved(s')
  {
    if s.deque == [] {
      IdleWorkerMoved(s, t, if s.closed then Exited else SleepingEmpty, s');
    } else {
      PopConserved(s, t);
      SameAccounts(Pop(s, t), s');
    }
  }

  lemma SpuriousConserved(s: State, t: Tid, s': State)
    requires Conserved(s) && SpuriousStep(s, t, s')
    ensures Conserved(s')
  {
    if t in SleepingWorkers(s) && s' == WakeWorker(s, t) {
      IdleWorkerMoved(s, t, WokenEmpty, s');
    } else {
      SameAccounts(s, s');
    }
  }

  lemma StepConserved(s: State, s': State)
    requires Conserved(s) && Next(s, s')
    ensures Conserved(s')
  {
    if CloseStep(s, s') {
      CloseConserved(s, s');
    } else if t :| PostStep(s, t, s') {
      PostConserved(s, t, s');
    } else if t :| PopStep(s, t, s') {
      PopStepConserved(s, t, s');
    } else if t :| HandleStep(s, t, s') {
      HandleConserved(s, t, s');
    } else if t, m :| CallStep(s, t, m, s') {
      SameAccounts(s, s');
    } else {
      var t :| SpuriousStep(s, t, s');
      SpuriousConserved(s, t, s');
    }
  }

  // What the callers passed.

  /** The calls of one thread. */
  function By(calls: seq<Call>, t: Tid): seq<Call> {
    if calls == [] then []
    else
      var n := |calls| - 1;
      By(calls[..n], t) + if calls[n].thread == t then [calls[n]] else []
  }

  lemma ByPush(calls: seq<Call>, c: Call, t: Tid)
    ensures By(calls + [c], t) == By(calls, t) + if c.thread == t then [c] else []
  {
    assert (calls + [c])[..|calls|] == calls;
  }

  /** The call thread t has not returned from. */
  function UnderWay(s: State, t: Tid): seq<Call>
    requires t in s.producers
  {
    if s.producers[t].Posted? then [] else [Call(t, s.producers[t].message)]
  }

  function AllUnderWay(s: State): set<Call> {
    set t | t in s.producers && !s.producers[t].Posted? :: Call(t, s.producers[t].message)
  }

  ghost predicate CalledBy(s: State, t: Tid)
    requires t in s.producers
  {
    By(s.calls, t) == By(s.pushed, t) + UnderWay(s, t)
  }

  /** Whatever is pushed is what a caller passed, each call once, and for each thread in the order of
      its calls; what is not pushed yet is under way. */
  ghost predicate Passed(s: State) {
    AllPassed(s) && EachPassed(s)
  }

  ghost predicate AllPassed(s: State) {
    multiset(s.calls) == multiset(s.pushed) + multiset(AllUnderWay(s))
  }

  ghost predicate EachPassed(s: State) {
    forall t :: t in s.producers ==> CalledBy(s, t)
  }

  lemma InAllUnderWay(s: State)
    ensures forall c :: c in AllUnderWay(s) <==> c.thread in s.producers && c in UnderWay(s, c.thread)
  {
    forall c: Call
      ensures c in AllUnderWay(s) <==> c.thread in s.producers && c in UnderWay(s, c.thread)
    {
      if c.thread in s.producers && c in UnderWay(s, c.thread) {
        assert c == Call(c.thread, s.producers[c.thread].message);
      }
    }
  }

  lemma SameCalls(s: State, s': State)
    requires Passed(s) && s'.calls == s.calls && s'.pushed == s.pushed && s'.producers.Keys == s.producers.Keys
    requires forall t :: t in s.producers ==> UnderWay(s', t) == UnderWay(s, t)
    ensures Passed(s')
  {
    InAllUnderWay(s);
    InAllUnderWay(s');
    assert AllUnderWay(s') == AllUnderWay(s);
    forall t | t in s'.producers
      ensures CalledBy(s', t)
    {
      assert CalledBy(s, t);
    }
  }

  lemma OneMoved(s: State, t: Tid, s': State)
    requires t in s.producers && t in s'.producers && s'.producers == s.producers[t := s'.producers[t]]
    ensures s'.producers.Keys == s.producers.Keys
    ensures forall u :: u in s.producers && u != t ==> UnderWay(s', u) == UnderWay(s, u)
  {
  }

  lemma CallPassed(s: State, t: Tid, m: Message, s': State)
    requires Passed(s) && CallStep(s, t, m, s')
    ensures Passed(s')
  {
    OneMoved(s, t, s');
    CallAdded(s, Call(t, m), s');
    forall u | u in s'.producers
      ensures CalledBy(s', u)
    {
      assert CalledBy(s, u);
      ByPush(s.calls, Call(t, m), u);
    }
  }

  lemma CallAdded(s: State, c: Call, s': State)
    requires AllPassed(s) && c.thread in s.producers && s'.producers.Keys == s.producers.Keys
    requires UnderWay(s, c.thread) == [] && UnderWay(s', c.thread) == [c]
    requires forall u :: u in s.producers && u != c.thread ==> UnderWay(s', u) == UnderWay(s, u)
    requires s'.calls == s.calls + [c] && s'.pushed == s.pushed
    ensures AllPassed(s')
  {
    InAllUnderWay(s);
    InAllUnderWay(s');
    assert c !in AllUnderWay(s) && AllUnderWay(s') == AllUnderWay(s) + {c};
  }

  lemma PushPassed(s: State, t: Tid)
    requires Passed(s) && t in s.producers && !s.producers[t].Posted?
    ensures Passed(Push(s, t, s.producers[t].message))
  {
    var c, s' := Call(t, s.producers[t].message), Push(s, t, s.producers[t].message);
    OneMoved(s, t, s');
    CallPushed(s, c, s');
    forall u | u in s'.producers
      ensures CalledBy(s', u)
    {
      assert CalledBy(s, u);
      ByPush(s.pushed, c, u);
    }
  }

  lemma CallPushed(s: State, c: Call, s': State)
    requires AllPassed(s) && c.thread in s.producers && s'.producers.Keys == s.producers.Keys
    requires UnderWay(s, c.thread) == [c] && UnderWay(s', c.thread) == []
    requires forall u :: u in s.producers && u != c.thread ==> UnderWay(s', u) == UnderWay(s, u)
    requires s'.calls == s.calls && s'.pushed == s.pushed + [c]
    ensures AllPassed(s')
  {
    InAllUnderWay(s);
    InAllUnderWay(s');
    assert c in AllUnderWay(s) && AllUnderWay(s') == AllUnderWay(s) - {c};
  }

  lemma PostPassed(s: State, t: Tid, s': State)
    requires Passed(s) && PostStep(s, t, s')
    ensures Passed(s')
  {
    if |s.deque| == s.capacity {
      OneMoved(s, t, s');
      SameCalls(s, s');
    } else {
      PushPassed(s, t);
      var mid := Push(s, t, s.producers[t].message);
      WorkerNotified(mid, s');
      SameCalls(mid, s');
    }
  }

  lemma PopPassed(s: State, t: Tid, s': State)
    requires Passed(s) && PopStep(s, t, s')
    ensures Passed(s')
  {
    if s.deque == [] {
      SameCalls(s, s');
    } else {
      NotifiedPassed(s, Pop(s, t), s');
    }
  }

  lemma NotifiedPassed(s: State, mid: State, s': State)
    requires Passed(s) && mid.calls == s.calls && mid.pushed == s.pushed && mid.producers == s.producers
    requires NotifiedProducer(mid, s')
    ensures Passed(s')
  {
    if u :| u in SleepingProducers(mid) && s' == WakeProducer(mid, u) {
      OneMoved(s, u, s');
    }
    SameCalls(s, s');
  }

  lemma SpuriousPassed(s: State, t: Tid, s': State)
    requires Passed(s) && SpuriousStep(s, t, s')
    ensures Passed(s')
  {
    if t in SleepingProducers(s) && s' == WakeProducer(s, t) {
      OneMoved(s, t, s');
    }
    SameCalls(s, s');
  }

  lemma StepPassed(s: State, s': State)
    requires Passed(s) && Next(s, s')
    ensures Passed(s')
  {
    if CloseStep(s, s') {
      SameCalls(s, s');
    } else if t :| PostStep(s, t, s') {
      PostPassed(s, t, s');
    } else if t :| PopStep(s, t, s') {
      PopPassed(s, t, s');
    } else if t :| HandleStep(s, t, s') {
      SameCalls(s, s');
    } else if t, m :| CallStep(s, t, m, s') {
      CallPassed(s, t, m, s');
    } else {
      var t :| SpuriousStep(s, t, s');
      SpuriousPassed(s, t, s');
    }
  }

  // Runs.

  ghost predicate Inv(s: State) {
    Wakeful(s) && Conserved(s) && Passed(s)
  }

  lemma StepKeepsInv(s: State, s': State)
    requires Inv(s) && Next(s, s')
    ensures Inv(s')
  {
    StepWakeful(s, s');
    StepConserved(s, s');
    StepPassed(s, s');
  }

  lemma InitIsInv(s: State)
    requires Init(s)
    ensures Inv(s)
  {
    assert AllUnderWay(s) == {};
  }

  lemma {:induction false} RunsKeepInv(run: seq<State>, i: nat)
    requires IsRun(run) && i < |run|
    ensures Inv(run[i])
  {
    if i > 0 {
      RunsKeepInv(run, i - 1);
      assert Next(run[i - 1], run[i - 1 + 1]);
      StepKeepsInv(run[i - 1], run[i]);
    } else {
      InitIsInv(run[0]);
    }
  }

  /** The queue is first in, first out and never holds more than its capacity: what has been popped
      and what is in it are the messages pushed; and with the calls under way those are the calls
      there were, of each thread in the order in which it made them. */
  lemma FifoAndBounded(run: seq<State>, i: nat)
    requires IsRun(run) && i < |run|
    ensures run[i].popped + run[i].deque == Messages(run[i].pushed)
    ensures |run[i].deque| <= run[i].capacity
    ensures multiset(run[i].calls) == multiset(run[i].pushed) + multiset(AllUnderWay(run[i]))
    ensures forall t :: t in run[i].producers ==> By(run[i].calls, t) == By(run[i].pushed, t) + UnderWay(run[i], t)
  {
    RunsKeepInv(run, i);
    assert forall t :: t in run[i].producers ==> CalledBy(run[i], t);
  }

  /** While a worker sleeps and there is something to pop, another worker has been woken for it;
      while a producer sleeps and there is room, another producer has been woken for it. */
  lemma NoLostWakeup(run: seq<State>, i: nat)
    requires IsRun(run) && i < |run|
    ensures SleepingWorkers(run[i]) != {} ==> |run[i].deque| <= |WokenWorkers(run[i])|
    ensures SleepingProducers(run[i]) != {} ==> run[i].capacity - |run[i].deque| <= |WokenProducers(run[i])|
    ensures SleepingWorkers(run[i]) != {} && run[i].deque != [] ==>
      exists t :: t in run[i].workers && run[i].workers[t].WokenEmpty?
  {
    RunsKeepInv(run, i);
    if SleepingWorkers(run[i]) != {} && run[i].deque != [] {
      var t :| t in WokenWorkers(run[i]);
    }
  }

  ghost predicate WorkerCanStep(s: State, t: Tid) {
    exists s' :: PopStep(s, t, s') || HandleStep(s, t, s')
  }

  lemma AwakeCanStep(s: State, t: Tid)
    requires t in s.workers && !s.workers[t].Exited? && !s.workers[t].SleepingEmpty?
    ensures WorkerCanStep(s, t)
  {
    if s.workers[t].Handling? {
      assert HandleStep(s, t, s.(handled := s.handled + [s.workers[t].delivery], workers := s.workers[t := Popping]));
    } else if s.deque == [] {
      assert PopStep(s, t, s.(workers := s.workers[t := if s.closed then Exited else SleepingEmpty]));
    } else {
      var mid := Pop(s, t);
      var s' := if u :| u in SleepingProducers(mid) then WakeProducer(mid, u) else mid;
      assert NotifiedProducer(mid, s');
      assert PopStep(s, t, s');
    }
  }

  /** The workers never stop too early: while there is a message in the queue, and from the close on
      anyhow, if not all workers have exited one of them can go on. */
  lemma WorkersProceed(run: seq<State>, i: nat)
    requires IsRun(run) && i < |run| && (run[i].deque != [] || run[i].closed)
    requires exists t :: t in run[i].workers && !run[i].workers[t].Exited?
    ensures exists t :: t in run[i].workers && WorkerCanStep(run[i], t)
  {
    RunsKeepInv(run, i);
    var s := run[i];
    var t :| t in s.workers && !s.workers[t].Exited?;
    assert WorkerOk(s, t);
    if s.workers[t].SleepingEmpty? {
      assert t in SleepingWorkers(s);
      t :| t in WokenWorkers(s);
    }
    AwakeCanStep(s, t);
  }

  /** A thread between two calls may post any message. */
  lemma AnythingCanBePosted(s: State, t: Tid, m: Message)
    requires t in s.producers && s.producers[t].Posted?
    ensures exists s' :: Next(s, s') && s'.calls == s.calls + [Call(t, m)] && s'.deque == s.deque
  {
    var s' := s.(producers := s.producers[t := Entering(m)], calls := s.calls + [Call(t, m)]);
    assert CallStep(s, t, m, s');
  }

  /** Nor do the producers: while there is room, if a call is under way one of them gets its message in. */
  lemma ProducersProceed(run: seq<State>, i: nat)
    requires IsRun(run) && i < |run| && |run[i].deque| < run[i].capacity
    requires exists t :: t in run[i].producers && !run[i].producers[t].Posted?
    ensures exists t, s' :: PostStep(run[i], t, s') && s'.pushed == run[i].pushed + UnderWay(run[i], t)
  {
    RunsKeepInv(run, i);
    var s := run[i];
    var t :| t in s.producers && !s.producers[t].Posted?;
    if s.producers[t].SleepingFull? {
      assert t in SleepingProducers(s);
      t :| t in WokenProducers(s);
    }
    var mid := Push(s, t, s.producers[t].message);
    var s' := if u :| u in SleepingWorkers(mid) then WakeWorker(mid, u) else mid;
    assert NotifiedWorker(mid, s');
    assert PostStep(s, t, s');
  }

  ghost predicate Later(s: State, s': State) {
    && s.pushed <= s'.pushed && (s.closed ==> s'.closed)
    && (!s.closed && s'.closed ==> |s.pushed| <= s'.pushedAtClose)
  }

  ghost predicate LaterByOne(s: State, s': State) {
    && s.pushed <= s'.pushed && (s.closed ==> s'.closed)
    && s'.pushedAtClose == if !s.closed && s'.closed then |s.pushed| else s.pushedAtClose
  }

  lemma LaterStill(r: State, s: State, s': State)
    requires Later(r, s) && LaterByOne(s, s')
    ensures Later(r, s')
  {
  }

  lemma StepPushes(s: State, s': State)
    requires Next(s, s')
    ensures LaterByOne(s, s')
  {
    if t :| PostStep(s, t, s') {
      assert s.pushed <= s'.pushed;
    }
  }

  ghost predicate EachLater(run: seq<State>) {
    forall i :: 0 <= i < |run| - 1 ==> LaterByOne(run[i], run[i + 1])
  }

  lemma RunIsLater(run: seq<State>)
    requires IsRun(run)
    ensures EachLater(run)
  {
    forall i | 0 <= i < |run| - 1
      ensures LaterByOne(run[i], run[i + 1])
    {
      assert Next(run[i], run[i + 1]);
      StepPushes(run[i], run[i + 1]);
    }
  }

  lemma {:induction false} PushedGrows(run: seq<State>, c: nat, i: nat)
    requires EachLater(run) && c <= i < |run|
    ensures Later(run[c], run[i])
    decreases i
  {
    if c < i {
      PushedGrows(run, c, i - 1);
      assert LaterByOne(run[i - 1], run[i - 1 + 1]);
      LaterStill(run[c], run[i - 1], run[i]);
    }
  }

  /** When every worker has exited, whatever had been pushed at any moment before the close has been
      handled, in turn popped in that order, and nothing has been handled twice.  What had been pushed
      at that moment are all calls made until then, but for those under way. */
  lemma DrainedOnClose(run: seq<State>, c: nat, i: nat)
    requires IsRun(run) && c <= i < |run| && !run[c].closed
    requires run[i].workers != map[] && forall t :: t in run[i].workers ==> run[i].workers[t].Exited?
    ensures run[i].closed && run[c].pushed <= run[i].pushed
    ensures multiset(run[c].calls) == multiset(run[c].pushed) + multiset(AllUnderWay(run[c]))
    ensures forall t :: t in run[c].producers ==> By(run[c].calls, t) == By(run[c].pushed, t) + UnderWay(run[c], t)
    ensures forall k :: 0 <= k < |run[c].pushed| ==> Delivery(k, run[c].pushed[k].message) in run[i].handled
    ensures forall k, l :: 0 <= k < l < |run[i].handled| ==> run[i].handled[k].ticket != run[i].handled[l].ticket
  {
    RunsKeepInv(run, i);
    FifoAndBounded(run, c);
    RunIsLater(run);
    PushedGrows(run, c, i);
    var s := run[i];
    var t :| t in s.workers;
    assert WorkerOk(s, t);
    forall k | 0 <= k < |run[c].pushed|
      ensures Delivery(k, run[c].pushed[k].message) in s.handled
    {
      assert Accounted(s, k);
      assert s.popped[k] == Messages(s.pushed)[k];
    }
    forall k, l | 0 <= k < l < |s.handled|
      ensures s.handled[k].ticket != s.handled[l].ticket
    {
      assert Given(s, s.handled[k]) && Given(s, s.handled[l]);
    }
  }
}
