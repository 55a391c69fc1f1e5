# A verified model of eco

eco is a C++ application framework. This project models the parts of it whose behaviour is hard to see
from any one function, and proves what they are for. `dafny verify dfyconfig.toml` checks all of it.

- **Topics.** `SubscriptionGraph` is the many-to-many graph of topics and subscribers in its two
  intrusive lists, on the heap, with every `prev` field holding the address of the pointer that points
  at the node (the datatype `Cell`). `UnsubscribeRace` takes one of its operations apart, lock by lock.
  `TopicList` is what remains of a topic's list for its users: the nodes that can be reached, and whether
  `m_tail` is one of them. `TopicRole`, `SetTopic` and `SeqTopic` are the snapshot-plus-delta protocol that
  runs on it: producers append, one publishing thread moves, delivers, clears. A content is a heap object
  shared by up to three containers and the batch being delivered, and its timestamp is rewritten in place.
- **Locks and queues.** `LockOrder` is address-ordered locking with its try-lock fallback, interleaved by
  any number of threads. `MessageQueue` is the bounded queue with its two condition variables and the
  workers on it.
- **Codecs.** `Sha1Standard` is sections 2 to 7 of FIPS PUB 180-1, `Sha1Example` its appendix A, worked out, `Sha1`
  the block-buffering class. `Base64` holds section 4 of RFC 4648 and the two functions that implement it,
  `Base64Example` the examples of section 10. `Octets` has what SHA-1 needs to know of octets as numbers.
- **Wire formats.** `Sequences` holds facts about sequences. `ByteString` is the growing string and network byte order, `MessageFields` the optional
  fields of a message, `Framing` the two-step reader of a peer. `WebSocketStandard` and `Masking` are sections
  5.2 and 5.3 of RFC 6455; `WebSocket` and `Tcp` are the two protocols.
- **Logging and persistence.** `LogQueue` recycles packs of log text between threads, `LogPacks` says when a text
  joins a pack and when a pack is passed on. `Upgrade` is nested
  transactions and the upgrade loop on them. `JoinMapping` is a generated select statement and its decoder.

A class here is a class there, a method is a method, and a loop is a loop; where the source passes a
result out by reference the method returns it. `Valid()` and similar predicates are what every operation
keeps. Ghost fields record what the source does not keep (all texts ever posted, the nodes of a list in
order). A state machine (`UnsubscribeRace`, `LockOrder`, `MessageQueue`) has a `Step` or `Next` relation, and
its results hold in every state of every run. A byte is an integer from 0 to 255; a C++ `char` is signed, so
a byte from 128 up that the code widens comes back sign-extended.

## Where the code falls short

Each of these is proved, with the exact condition under which the code does what it should.

- Erasing the last node of a topic's list does not move `m_tail` back. The next subscriber is then hung on a
  node that has left: it is lost, on its own list, but out of the topic's reach (`NextIsLost`,
  `BehindOneThatLeft`). A new subscriber is on the list if and only if `m_tail` still is; one that is lost is told
  its snapshot and nothing later (`Topic.ReserveSubscribe`, `LostHoldsSnapshot`). Everything else works on with
  lost nodes about: they leave, others are hung behind them, the topic is cleared and filled again (`IntactIff`,
  `ValidAfterLost`, `Topic.Clear`).
- `publish_erase_topic` locks the topic's mutex, and `Topic::clear` locks it again. The unlock in `OrderRelock`
  then does not let go of it, and the publishing thread and a thread that unsubscribes can deadlock, if and
  only if the subscriber's mutex lies below the topic's in memory (`EraseTopicIsOrderedIff`,
  `EraseDeadlocksIff`).
- Between stamping and appending, the second and third step of `TopicServer::remove`, an object is still current,
  and its key is half removed. Whoever is told it then is not left with it: a subscriber whose snapshot runs then,
  and also one that has long been working, if the object is stamped before it is delivered
  (`SnapshotComesBetween`, `DeliveryComesBetween`). With nothing pending or in flight a subscriber agrees with the
  current objects at a key if and only if the key is not half removed, or it was told before (`Converged`).
- `TcpPeer` copies a head with `strncpy`, which turns every byte after a zero byte into zero. A message is handed
  on as it was sent if and only if nothing but zeros follows a zero byte in its head (`CopiedIff`). A TCP size
  below 256 and a WebSocket length from 126 to 255 are lost, but nothing decodes them again, so the messages
  arrive whole (`HandedOnDecodes`); a WebSocket heartbeat arrives as four zeros, and is none
  (`HeartbeatIsLost`).
- `hton` for 64 bits writes both halves at the same place. A WebSocket frame is what RFC 6455 says if and only
  if its payload fits 16 bits; a longer one is refused by every reader, and nothing after it is read
  (`WrittenIsFrameIff`, `StreamStopsAtLong`). `TcpProtocol` cuts a longer size to 16 bits (`LongIsCut`).
- The size of an unmasked WebSocket frame with a payload below two bytes wraps around 32 bits
  (`DelimitedIffReadable`); a masked frame that spells a length below two in 16 bits is read without its
  key (`ReaderGivesKeyIff`, `NoKey`).
- A model or option from 128 up is received sign-extended; a type above 16 bits and a 4-byte request above 32
  bits are cut, and of an 8-byte request the high half is lost (`RoundTripIff`, for both protocols).
- An upgrade function that swallows the failure of an inner transaction loses what it wrote, and still counts
  as done; an upgrade that returns is all or nothing if and only if it swallows none (`AllOrNothingIff`).
- A log pack that is not full when the queue closes is not written (`MissingAtClose`, `LossAtClose`). A producer
  that has waited does not look at the room again: its text is kept whole if and only if it still fits
  (`ResumePost`, `SecondIsCut`).
- A joined table whose mapping shares no key with the main one is not joined, yet its columns are selected
  (`JoinedIffShares`). There is no space between two join clauses: they can be told apart if and only if at most
  one joined mapping shares a key (`ClausesApartIff`, `TwoClausesRunTogether`). A property is decoded from its own
  column if and only if that is the last one of its name (`DecodeProjectedIff`, `DecodeDistinctIff`).

## Model

| member | source | states |
|---|---|---|
| SubscriptionGraph.Subscription.EraseSubscriberTopic | thread/topic/Subscription.h:164-173 | following only the node's own `prev` cell, its subscriber's list loses exactly that node and stays linked: order, every `next`, every `prev` cell |
| SubscriptionGraph.Subscription.EraseTopicSubscriber | thread/topic/Subscription.h:152-161 | the same for the topic's list, whose first cell is `m_head` or, while the topic is being cleared, a local variable; the tail stays where it was; a node that is not on the list is taken out from between the two it is hung between, and the topic does not change |
| SubscriptionGraph.Subscription.Unlink | thread/topic/Subscription.h:103-116 | its subscriber's list, and its topic's list if it is on it, lose the node, and every local pointer registered on it is null |
| SubscriptionGraph.Subscription.Unsubscribe | thread/topic/Subscription.h:103-116 | the whole graph stays valid, whether the node was on its topic's list or lost: every subscription is on its subscriber's list, and on its topic's list or lost, and no pair is joined twice |
| SubscriptionGraph.Subscription.AddTopicSubscriber | thread/topic/Subscription.h:120-136 | the node is appended to the topic's list if the list is empty or its tail is on it; otherwise the list is what it was and only the tail moves |
| SubscriptionGraph.Subscription.AddSubscriberTopic | thread/topic/Subscription.h:139-149 | the node becomes the first of the subscriber's list, which stays linked |
| SubscriptionGraph.Subscription.ReserveSubscribe | thread/topic/Subscription.h:87-94 | both insertions, neither disturbing the other list |
| SubscriptionGraph.WithoutAt | thread/topic/Subscription.h:152-173 | removing a node by value from a list without repetitions cuts exactly its position out |
| SubscriptionGraph.DropOneMore | thread/topic/Subscription.h:356-381 | dropping nodes one after another is dropping them all at once, in any list they are spread over |
| SubscriptionGraph.Subscriber.HasTopic | thread/topic/Subscription.h:305-318 | the walk over the subscriber's list finds the topic exactly when a node joins the two, on the topic's list or lost |
| SubscriptionGraph.Subscriber.Unsubscribe | thread/topic/Subscription.h:277-301 | true exactly when a node joins the two, lost or not; then that one node leaves the lists it is on, and what the topic's users see of its list changes as `TopicList.Left` says, or not at all if the node was lost; otherwise nothing changes; the graph stays valid |
| SubscriptionGraph.Subscriber.UnsubscribeAll | thread/topic/Subscription.h:259-273 | the list ends empty, every node on it, lost or not, is gone from both sides, every topic keeps its other nodes in order and its tail, and the graph stays valid |
| SubscriptionGraph.Topic.ReserveSubscribe | thread/topic/Subscription.h:330-345 | nothing if the pair is joined already; otherwise a new node, and the graph stays valid; no node is lost afterwards if and only if none was and the tail was on the list; what its users see of the list changes as `TopicList.Reserved` says |
| SubscriptionGraph.Topic.Redirect | thread/topic/Subscription.h:363-364 | hanging the list on a local variable keeps the graph valid, lost nodes or not |
| SubscriptionGraph.Topic.DrainOne | thread/topic/Subscription.h:374-378 | unlinking the first node moves the local variable to the next one |
| SubscriptionGraph.Topic.Drain | thread/topic/Subscription.h:365-379 | the loop ends with the list empty, all its nodes gone, and every subscriber keeping its other nodes in order |
| SubscriptionGraph.Topic.Clear | thread/topic/Subscription.h:356-381 | the topic is drained and usable again, every node that was on its list is gone, every subscriber keeps its other nodes in order, lost ones among them; the graph stays valid |
| SubscriptionGraph.Graph.AddTopic | thread/topic/Subscription.h:206-213 | a new topic, empty, leaves the graph valid |
| SubscriptionGraph.Graph.AddSubscriber | thread/topic/Subscription.h:250-251 | so does a new subscriber |
| SubscriptionGraph.Graph.ValidAfterUnlink | thread/topic/Subscription.h:103-116 | taking a listed node out of its two lists keeps every other list, placement and pair, and leaves lost what was |
| SubscriptionGraph.Graph.ValidAfterLost | thread/topic/Subscription.h:152-161 | taking a lost node out joins what it was hung on to what was hung on it: that stays lost, and every topic's list is what it was |
| SubscriptionGraph.Graph.ValidAfterReserve | thread/topic/Subscription.h:87-149 | adding one node keeps the graph valid; none is lost afterwards exactly if none was and the topic's tail is current |
| SubscriptionGraph.Graph.IntactIff | thread/topic/Subscription.h:47-173 | every subscription is on its topic's list exactly when it is on its subscriber's, if and only if the graph is valid and no node is lost |
| SubscriptionGraph.Graph.LostIff | thread/topic/Subscription.h:120-136 | of the nodes that have not left, the lost ones are exactly those their topics do not list |
| SubscriptionGraph.Graph.BehindOneThatLeft | thread/topic/Subscription.h:130-161 | following the `prev` cells from a lost node leads, older and older, to a node of the same topic that has left |
| SubscriptionGraph.TailLeaves | thread/topic/Subscription.h:152-161 | whenever the subscriber of the last of several nodes leaves, the tail is no longer on the list |
| SubscriptionGraph.NextIsLost | thread/topic/Subscription.h:120-136 | the next subscriber to come is on its own list but not on the topic's, in a graph that is still valid |
| UnsubscribeRace.StepKeepsInv | thread/topic/Subscription.h:277-301 | every lock, unlock and try-lock step of every thread keeps the invariant that ties the node's removal to the threads' local pointers |
| UnsubscribeRace.RemovedExactlyOnce | thread/topic/Subscription.h:277-301 | in every run, however many threads unsubscribe the same node, it is removed at most once, and once any thread has finished it has been removed exactly once |
| UnsubscribeRace.LoserFindsNull | thread/topic/Subscription.h:103-116 | a thread that relocked after another removed the node finds its own local pointer null |
| UnsubscribeRace.OnlyLivePointers | thread/topic/Subscription.h:293-297 | whenever a thread has read a pointer that was not null and is to read the node's topic, the node is linked; and the only local pointers the removal nulls are those of threads still inside the call |
| UnsubscribeRace.Results | thread/topic/Subscription.h:277-301 | a call returns true exactly if it found the node, losers included; when all calls are done one of them has |
| UnsubscribeRace.StepIsOperation | thread/Mutex.h:102-122 | step by step, the lock operations of the race are those of `OrderRelock`, in both orders of the addresses |
| TopicRole.DeliverToWorking | thread/topic/Role.h:341-354 | each working subscriber gets each new content in order, with the timestamp it has then; the others get nothing |
| TopicRole.TellWorking | thread/topic/Role.h:360-370 | each working subscriber is told once, the others are not |
| SetTopic.FoldAfterRestamp | thread/topic/Topic.h:219-243 | rewriting the timestamps of one key's pending entries and then adding an entry for the key is as good as only adding it |
| SetTopic.FoldMerges | thread/topic/Topic.h:264-276 | two receivers that differ only at keys a batch mentions agree after the batch |
| SetTopic.SetTopic.Append | thread/topic/Topic.h:211-244 | insert, update, remove or ignore; for every key, replaying what is pending on the snapshot by the timestamps as they are now gives the current object, or nothing if that is stamped |
| SetTopic.SetTopic.Publish | thread/topic/TopicServer.h:104-111 | appending at any moment, also between the steps of the publishing thread and of a removal, keeps all invariants, and the key is no longer half removed |
| SetTopic.SetTopic.StoreAfterAppend | thread/topic/Topic.h:219-243 | the store invariant survives any in-place rewriting of timestamps of the appended key |
| SetTopic.SetTopic.DoMove | thread/topic/Topic.h:255-279 | what was pending is handed over in order, and the snapshot becomes the current objects at every key but those half removed |
| SetTopic.SetTopic.DoSnap | thread/topic/Topic.h:247-253 | in whatever order the hash map yields it, a fresh receiver ends with the snapshot, without contents re-stamped as removed |
| SetTopic.SetTopic.MoveNew | thread/topic/Role.h:333-339 | the first step of publish_new: what was pending is in flight, and no receiver's view is wrong at a key that has nothing pending or in flight |
| SetTopic.SetTopic.DeliverNew | thread/topic/Role.h:340-355 | the second, whatever was appended, stamped, reserved or unsubscribed in between: every working subscriber on the list is told exactly what was in flight, with the timestamps of now; with nothing pending, it then agrees with the current objects at a key it was told of if and only if that object is not half removed |
| SetTopic.SetTopic.ViewAfterDelivery | thread/topic/Role.h:345-352 | although timestamps may have changed under way, the receiver then agrees with the snapshot wherever nothing is pending; of an object half removed it has that or nothing |
| SetTopic.SetTopic.PublishSnapshot | thread/topic/Role.h:321-330 | the subscription starts working exactly if it is still linked, and is left with exactly the contents of the snapshot not stamped as removed; with nothing pending, it agrees with the current objects at exactly the keys that are not half removed |
| SetTopic.SetTopic.PublishErase | thread/topic/Role.h:358-373 | every working subscriber on the list is told once, and all on it are unlinked |
| SetTopic.SetTopic.PublishClear | thread/topic/Role.h:376-391 | the three containers are emptied and every working subscriber is told once |
| SetTopic.SetTopic.Stamp | thread/topic/TopicServer.h:94-95 | stamping, without a lock, whatever content was found before keeps all invariants, and makes its key half removed if and only if it is the current object |
| SetTopic.SetTopic.StoreAfterStamp | thread/topic/TopicServer.h:94-96 | for every key replaying still gives the current object, or nothing if that is what was stamped; a content that is no longer current changes nothing |
| SetTopic.SetTopic.Reserve | thread/topic/TopicServer.h:132-148 | a new subscription is linked, not working, has been told nothing, and is on the list if `m_tail` is, else lost |
| SetTopic.SetTopic.Unsubscribe | thread/topic/TopicServer.h:160-177 | one subscription leaves the list it may be on, the tail stays behind as in the graph, and all others keep their place and their view |
| SetTopic.SetTopic.RunTask | thread/topic/Role.h:321-391 | any task keeps all invariants, with every container, the set of half removed keys and every subscription exactly as that task leaves them; a snapshot task tells a linked subscription the snapshot; one that is not linked is told nothing, a lost one nothing but its snapshot |
| SetTopic.SetTopic.Converged | thread/topic/Topic.h:211-287 | whenever nothing is pending or in flight, what a working subscriber that is not lost makes of all it was ever told agrees with the current objects at a key if and only if the key is not half removed, or it was told the object before that was stamped |
| SetTopic.SetTopic.LostHoldsSnapshot | thread/topic/Subscription.h:130-135 | one reserved behind a stale tail is told exactly its snapshot |
| SetTopic.SetTopic.ConvergedWhenDrained | thread/topic/TopicServer.h:86-148 | once every posted task has run and no current object is stamped, every linked subscriber works, and has exactly the current objects unless it is lost |
| SetTopic.SnapshotComesBetween | thread/topic/TopicServer.h:86-98 | the run: published, moved, delivered, reserved, stamped, snapshot: with nothing left to run the subscriber lacks a current object |
| SetTopic.DeliveryComesBetween | thread/topic/TopicServer.h:86-98 | the run: reserved, snapshot, published, moved, stamped, delivered: one that has long been working lacks it too |
| SeqTopic.HeldAfterDelivery | thread/topic/Topic.h:109-127 | delivering a batch appends it to what a receiver holds |
| SeqTopic.SeqTopic.PublishSnapshot | thread/topic/Role.h:321-330 | a subscription still linked is sent the history, whole and in order; one that is not is sent nothing |
| SeqTopic.SeqTopic.MoveNew | thread/topic/Role.h:333-339 | what was pending goes to the history, and is on its way to the subscribers |
| SeqTopic.SeqTopic.DeliverNew | thread/topic/Role.h:340-355 | each working subscriber on the list is told it, in order and once |
| SeqTopic.SeqTopic.RunTask | thread/topic/Role.h:321-391 | any task keeps the invariants, with history, list and subscriptions exactly as that task leaves them; a snapshot task sends a linked subscription the whole history; nothing is delivered through a subscription after it has left, and to a lost one nothing but its snapshot |
| SeqTopic.SeqTopic.DeliveredInOrder | thread/topic/Topic.h:94-134 | what a working subscriber that is not lost holds, followed by what is on its way and what is pending, is everything appended since the last clear, each once and in order |
| SeqTopic.SeqTopic.LostHoldsSnapshot | thread/topic/Subscription.h:130-135 | one reserved behind a stale tail is told exactly its snapshot |
| SeqTopic.SeqTopic.DeliveredWhenDrained | thread/topic/TopicServer.h:104-148 | once every posted task has run, every linked subscriber works, and holds all of it unless it is lost |
| SeqTopic.NextIsLost | thread/topic/Subscription.h:120-161 | whenever the last of several subscribers leaves, the next to come is lost |
| TopicRole.LeaveList | thread/topic/Subscription.h:152-161 | a subscription leaves the list it may be on, and the tail stays where it was |
| TopicRole.TasksAfterFront | thread/topic/TopicServer.h:132-148 | after any task every linked subscription that does not work yet still has its snapshot task coming, once |
| LockOrder.OrdersLock.PushBack | thread/Mutex.h:152-161 | the list stays sorted by address and gains exactly the new mutex |
| LockOrder.OrderLockIsOrdered | thread/Mutex.h:58-75 | both mutexes are taken upwards, whatever is held below them, and both are held at the end |
| LockOrder.OrderRelockIsOrderedIff | thread/Mutex.h:102-122 | for a thread that holds other mutexes too, relocking never waits below a held mutex if and only if all of them are below the second mutex; it always ends holding both, whatever try_lock answers |
| LockOrder.ClearIsOrdered | thread/topic/Subscription.h:356-381 | clearing a topic, with its relock of every subscriber, never waits below a held mutex |
| LockOrder.EraseTopicIsOrderedIff | thread/topic/Role.h:358-373 | erasing it, which locks the topic twice, never does if and only if the topic's mutex is below that of every subscriber |
| LockOrder.ClearHoldsEach | thread/topic/Subscription.h:356-381 | whatever the try-locks answer, clearing or erasing a topic takes each subscriber's mutex while it holds the topic's, and ends with the topic's alone, held once or twice |
| LockOrder.ServerUnsubscribeIsOrdered | thread/topic/TopicServer.h:160-168 | unsubscribing under the server's own mutex never does |
| LockOrder.UpwardIsOrdered | thread/Mutex.h:29-179 | scope locks, order locks, relocks and lists of locks, begun with anything held that is below what they ask for, stay ordered to their end |
| LockOrder.LockAllIsOrdered | thread/Mutex.h:164-170 | locking the list never waits below a held mutex and ends holding all of it |
| LockOrder.StepKeepsInv | thread/Mutex.h:29-179 | every mutex operation of every thread keeps owners and holders consistent and the rest of every program ordered |
| LockOrder.StepKeepsEnd | thread/Mutex.h:29-179 | what is proved of a program's end, and of what it holds together, is what a thread that runs it comes to |
| LockOrder.MutualExclusion | thread/Mutex.h:29-179 | in every run no two threads hold the same mutex |
| LockOrder.BlockedWaitsAbove | thread/Mutex.h:58-122 | every mutex a blocked thread holds is below the one it waits for |
| LockOrder.WaitsForIsAcyclic | thread/Mutex.h:58-122 | no chain of waiting threads returns to its start |
| LockOrder.BlockedChainEndsUnblocked | thread/Mutex.h:58-170 | following owners from any thread ends at one that can step |
| LockOrder.NoDeadlock | thread/Mutex.h:29-179 | in every state of every run, nested scope locks and relocks included, each thread can step or waits, through owners, for one that can |
| LockOrder.EraseDeadlocks | thread/topic/Role.h:358-373 | a run of the publishing thread and one that unsubscribes, step by step, that ends with each waiting for the other |
| LockOrder.EraseDeadlocksIff | thread/topic/Subscription.h:277-381 | there is such a run if and only if the subscriber's mutex lies below the topic's |
| MessageQueue.StepWakeful | thread/MessageQueue.h:112-170 | every step, spurious wake-ups included, keeps: a worker sleeps only if woken workers suffice for the queue, a producer only if woken producers suffice for the room |
| MessageQueue.NoLostWakeup | thread/MessageQueue.h:112-170 | in every reachable state, a sleeping worker beside a message means another worker has been woken for it; likewise for producers and room |
| MessageQueue.FifoAndBounded | thread/MessageQueue.h:112-180 | in every reachable state what has been popped and what is in the queue are the messages pushed, in order, and no more than the capacity are in it; the calls pushed and those under way are exactly the calls of post there were, and of each thread those pushed are the first ones it made, in order |
| MessageQueue.StepConserved | thread/MessageQueue.h:67-170 | every step keeps the accounts: each message popped is handled by one worker, once, that message and no other, and a worker sleeps only while the queue is open |
| MessageQueue.StepPassed | thread/MessageQueue.h:159-174 | every step keeps the ledger: whatever is pushed is what some caller passed, call by call |
| MessageQueue.DrainedOnClose | thread/MessageServer.h:177-197 | once all workers have exited, every message whose call of post had returned at any moment before the close has been handled, popped in the order in which it was pushed, and nothing has been handled twice |
| MessageQueue.WorkersProceed | thread/MessageQueue.h:101-118 | while a message is in the queue, and from the close on anyhow, some worker can go on unless all have exited |
| MessageQueue.ProducersProceed | thread/MessageQueue.h:162-174 | while there is room and a call is under way, some producer can push its message |
| Sha1.CircularShiftRotates | codec/sha1.cpp:587-590 | the shift is the rotation of section 2 of FIPS PUB 180-1 |
| Sha1.TurnIsStep | codec/sha1.cpp:411-498 | one turn of any of the four loops is one step of section 7 |
| Sha1.BufferedFull | codec/sha1.cpp:205-208 | hashing a full block carries on the fold over the message |
| Sha1.PadInOneBlock | codec/sha1.cpp:521-566 | with at most 55 bytes waiting, one padded block completes the padded message of section 4 |
| Sha1.PadInTwoBlocks | codec/sha1.cpp:529-545 | with more than 55 bytes waiting, two blocks do |
| Sha1Standard.BlocksExtend | codec/sha1.cpp:411-498 | folding over a message is folding over its blocks one at a time |
| Sha1Standard.PaddedLength | codec/sha1.cpp:521-566 | a padded message is the message, a "1" bit, zeros, and in the last eight bytes its length in bits as one big-endian number |
| Sha1Example.DigestOfAbc | codec/sha1.cpp:411-498 | appendix A of the standard: the digest of "abc", through all 80 words and 80 steps |
| Sha1.SHA1.ExpandWords | codec/sha1.cpp:411-445 | the 80 words are the message schedule |
| Sha1.SHA1.ProcessMessageBlock | codec/sha1.cpp:411-498 | the registers are updated by the compression of section 7, and the block is free |
| Sha1.SHA1.CountByte | codec/sha1.cpp:193-203 | the two 32-bit words hold the length in bits, and the object is corrupted exactly from 2^64 bits on |
| Sha1.SHA1.Input | codec/sha1.cpp:175-212 | the bytes are appended to the message, up to the limit; input after a result corrupts the object |
| Sha1.SHA1.PadMessage | codec/sha1.cpp:521-566 | the registers are the fold over the padded message, in both cases |
| Sha1.SHA1.Result | codec/sha1.cpp:134-155 | the digest of all input since the last reset, the same each time it is asked for |
| Sha1.HashInPieces | codec/sha1.cpp:134-212 | for every way of splitting a message into calls of Input, the digest is that of the whole; it is given exactly for messages below 2^64 bits |
| Base64.AlphabetIsTable1 | codec/base64.cpp:31-34 | the string is table 1 of RFC 4648 |
| Base64Example.Examples | codec/base64.cpp:41-82 | the examples of section 10 of RFC 4648, and one for the last two characters of the table |
| Base64Example.ValuesStop | codec/base64.cpp:84-123 | decoding reads the characters before the first that is not in the table |
| Base64.RoundTrip | codec/base64.cpp:41-123 | decoding what was encoded gives every byte string back |
| Base64.EncodedLength | codec/base64.cpp:41-82 | four characters for every three bytes begun |
| Base64.Padding | codec/base64.cpp:62-78 | characters of the alphabet, then one `=` for each byte the last group lacks |
| Base64.Base64Encode | codec/base64.cpp:41-82 | the encoding of section 4 |
| Base64.Base64Decode | codec/base64.cpp:84-123 | the decoding of section 4 up to the first character outside the alphabet |
| ByteString.String.Reserve | Type.h:409-434 | grows to double or to what is asked for, keeping the bytes |
| ByteString.String.Append | Type.h:361-367 | the bytes follow those there were |
| ByteString.String.Put64 | net/Net.h:151-158 | only the low half arrives, and in the place of the high half |
| ByteString.Read32Be32 | net/Net.h:97-113 | reading what was written gives the value modulo 2^32, whatever follows |
| ByteString.Be32Spelled | prj/src/net/Net.cpp:76-94 | network byte order, digit by digit: the most significant byte first |
| MessageFields.FlagBits | net/protocol/Protocol.h:76-89 | which bit each flag of category and option is, by the "&" of the source |
| MessageFields.OptionalSpelled | net/protocol/TcpProtocol.h:328-343 | byte by byte, what the bits of the option announce: session id, type, request data, in this order |
| MessageFields.AppendOptional | net/protocol/TcpProtocol.h:328-343 | exactly the fields the option announces are appended, in order; 8-byte request data goes out as its low half and four stale bytes |
| MessageFields.FlagsSurvive | net/protocol/WebSocketProtocol.h:582-591 | cut to a byte and sign-extended, an option announces the same fields |
| MessageFields.OptionalRoundTrip | net/protocol/TcpProtocol.h:256-285 | the decoder takes exactly the bytes the encoder appended, and gets each field modulo its width; absent fields keep what the receiver had |
| MessageFields.ReceivedIsSent | net/protocol/TcpProtocol.h:326-343 | whatever stale bytes the buffer holds, all of the meta arrives if and only if each field fits its place on the wire and request data is not sent in 8 bytes |
| Framing.ReadConcat | prj/src/net/TcpPeer.cpp:142-167 | messages that announce their size are taken off the stream as they were sent, in order, whatever follows |
| Framing.ReadInPieces | prj/src/net/TcpPeer.cpp:130-201 | bytes may arrive in any pieces: what is taken early is what would be taken late |
| Framing.ReadKeepsBytes | prj/src/net/TcpPeer.cpp:142-167 | the messages taken off the stream and what is unread are the stream: no byte is skipped or taken twice |
| Framing.ReadDelimits | prj/src/net/TcpPeer.cpp:142-167 | every message taken off the stream has the size its head, as it was read, announces |
| Framing.CopiedIff | prj/src/net/TcpPeer.cpp:155-158 | the copy of a head is the head if and only if nothing but zero bytes follows a zero byte in it |
| Framing.SurvivesIff | prj/src/net/TcpPeer.cpp:155-158 | so a message is handed on as it was sent exactly under that condition on its first four bytes |
| Masking.XorIsBitwise | net/protocol/WebSocketProtocol.h:195-198 | bit by bit, the arithmetic of Xor is exclusive or |
| Masking.MaskedTwice | net/protocol/WebSocketProtocol.h:188-199 | masking with the same key twice changes nothing |
| WebSocketStandard.MaskedHello | net/protocol/WebSocketProtocol.h:188-199 | the masked example of section 5.7 of RFC 6455; the other ones are beside it |
| WebSocket.MaskData | net/protocol/WebSocketProtocol.h:188-199 | in place, everything from the start on is masked as section 5.3 of RFC 6455 says, and nothing before it |
| WebSocket.PlaceLength | net/protocol/WebSocketProtocol.h:242-263 | the head stands right before the payload, at offset 8, 6 or 0 |
| WebSocket.EncodeMask | net/protocol/WebSocketProtocol.h:237-274 | the bytes from the returned start on are head, key and masked payload |
| WebSocket.WrittenIsFrameIff | net/protocol/WebSocketProtocol.h:237-274 | they are the frame of section 5.2 if and only if the payload fits 16 bits, and then only can a peer read them |
| WebSocket.DelimitedIffReadable | net/protocol/WebSocketProtocol.h:103-146 | for any final or unfinished frame of RFC 6455 of any opcode, masked or not: decode_data_size gives its size if and only if it is no close frame, its payload fits 16 bits, and it is masked or has two bytes of payload |
| WebSocket.PayloadOfFrame | net/protocol/WebSocketProtocol.h:333-354 | unmasking gives back what was put into the frame |
| WebSocket.Encode | net/protocol/WebSocketProtocol.h:559-602 | the string holds the written frame of the message from the returned start on |
| WebSocket.Decode | net/protocol/WebSocketProtocol.h:501-557 | unmasks in place and reads the meta, or says what is too short |
| WebSocket.MessageRoundTrip | net/protocol/WebSocketProtocol.h:501-602 | decoding an encoded message gives each field as received and the payload whole, or a refusal when the payload of the frame exceeds 16 bits |
| WebSocket.RoundTripIff | net/protocol/WebSocketProtocol.h:501-602 | whatever stale bytes the buffer holds, the message received is the message sent if and only if the frame payload fits 16 bits and every field is carried |
| WebSocket.HeadRoundTrip | net/protocol/WebSocketProtocol.h:148-176 | version 1, and the category with its encrypted bit saying whether the frame is masked |
| WebSocket.FixedSpelled | net/protocol/WebSocketProtocol.h:559-582 | version 1, the category with its bit 0x10 set exactly if the frame is masked, model, option |
| WebSocket.MaskedStart | net/protocol/WebSocketProtocol.h:237-274 | a short masked message starts with 0x82, mask bit and length, and the key |
| WebSocket.HeartbeatIsHeartbeat | net/protocol/WebSocketProtocol.h:178-185 | the four bytes of a heartbeat: the bit 0x02 of the category is set, 0x01 is not |
| WebSocket.HeartbeatIsFrame | net/protocol/WebSocketProtocol.h:178-185 | a heartbeat is a frame of RFC 6455, read back as the heartbeat category |
| WebSocket.StreamRoundTrip | net/protocol/WebSocketProtocol.h:103-274 | frames and heartbeats sent one after another are taken off the stream exactly, masked or not |
| WebSocket.FrameSurvivesIff | prj/src/net/TcpPeer.cpp:155-158 | which readable frames of RFC 6455 are handed on as sent: by the first byte, the length, and the first bytes of key or payload |
| WebSocket.HandedOnDecodes | prj/src/net/TcpPeer.cpp:155-199 | every message that fits is decoded whole from what is handed on, even when the copy of its length is not |
| WebSocket.HeartbeatIsLost | prj/src/net/TcpPeer.cpp:155-158 | a heartbeat is handed on as four zeros, with category 0 |
| WebSocket.StreamDecodes | net/protocol/WebSocketProtocol.h:501-602 | end to end: the k-th message handed on decodes to the k-th message sent |
| WebSocket.StreamStopsAtLong | net/protocol/WebSocketProtocol.h:258-263 | a frame that does not fit ends the stream: all before it is read, nothing from it on |
| WebSocket.ReaderGivesKeyIff | net/protocol/WebSocketProtocol.h:127-145 | a frame handed on by the reader carries its key unless it spells a length below two in 16 bits |
| WebSocket.NoKey | net/protocol/WebSocketProtocol.h:127-145 | such a frame, and that it is handed on |
| Tcp.Encode | net/protocol/TcpProtocol.h:293-368 | head, fields and payload, with the size of all that follows the head in its last two bytes |
| Tcp.MessageSpelled | net/protocol/TcpProtocol.h:293-368 | byte by byte: version 1, category, two bytes of size, model, option, fields, payload |
| Tcp.HeartbeatIsHeartbeat | net/protocol/TcpProtocol.h:104-111 | the four bytes of a heartbeat: the bit 0x02 of the category is set, 0x01 is not, and it is read back so |
| Tcp.MessageRoundTrip | net/protocol/TcpProtocol.h:213-368 | decoding an encoded message gives each field as received and the payload whole |
| Tcp.RoundTripIff | net/protocol/TcpProtocol.h:213-368 | whatever stale bytes the buffer holds, the message decoded is the message sent if and only if every field is carried |
| Tcp.HeadRoundTrip | net/protocol/TcpProtocol.h:87-102 | version and category come back, and the head is refused exactly when the category sent is neither message nor heartbeat |
| Tcp.DelimitedIffFits | net/protocol/TcpProtocol.h:77-118 | the size announced is the size sent if and only if it fits 16 bits |
| Tcp.StreamRoundTrip | net/protocol/TcpProtocol.h:77-118 | messages and heartbeats sent one after another are taken off the stream exactly |
| Tcp.PacketSurvivesIff | prj/src/net/TcpPeer.cpp:155-158 | a message is handed on as sent if and only if it is empty or has at least 256 bytes (and a category) |
| Tcp.HandedOnDecodes | prj/src/net/TcpPeer.cpp:155-199 | version, category and message decode the same from what is handed on, for every size |
| Tcp.StreamDecodes | net/protocol/TcpProtocol.h:213-368 | end to end: the k-th message handed on decodes to the k-th message sent |
| Tcp.LongIsCut | net/protocol/TcpProtocol.h:114-118 | a longer message is taken off the stream cut to its size modulo 2^16 |
| LogQueue.FixBuffer.Append | Type.h:570-580 | what fits is appended, the rest dropped, and the count is returned |
| LogQueue.Queue.Post | prj/src/log/Queue.h:97-128 | for any number of producers: a text too large is refused and changes nothing; any other waits exactly when no pack can take it and none may be added, and else is kept whole, with the packs exactly as they are to be |
| LogQueue.Queue.ResumePost | prj/src/log/Queue.h:115-127 | a woken producer waits again exactly when there still is no pack and no room; of its text is kept what fits, all of it if and only if there is room |
| LogQueue.Queue.Pop | prj/src/log/Queue.h:130-154 | the pack brought back is recycled, and the first pack to be logged is handed over, holding whole texts |
| LogQueue.Queue.ResumePop | prj/src/log/Queue.h:141-153 | after a timeout the pack being filled is passed on too; it sleeps again exactly when there still is nothing to write |
| LogQueue.Queue.MoveAvail | prj/src/log/Queue.h:187-193 | only a pack with text is passed on, and then every pack available is empty |
| LogQueue.Queue.Recycle | prj/src/log/Queue.h:195-202 | an emptied pack goes right before the one being filled |
| LogQueue.Queue.StreamPreserved | prj/src/log/Queue.h:97-202 | what was handed over, the packs to be logged and the pack being filled are exactly what is kept of the texts, in order and unsplit; with one producer that is all of them |
| LogQueue.FillsFirst | prj/src/log/Queue.h:107-127 | while a text fits it joins the pack being filled, and no other is begun |
| LogPacks.PassedOnIff | prj/src/log/Queue.h:105-111 | the pack being filled is passed on before a text if and only if the text does not fit the 8191 bytes |
| LogPacks.JoinsPack | prj/src/log/Queue.h:121-127 | a text that fits is kept whole behind what is there, and the pack is passed on at once if and only if it is full |
| LogQueue.TurnComes | prj/src/log/Queue.h:114-139 | a producer that waits is served once the writer has brought back a pack: the one it has, or the one it takes next |
| LogQueue.SecondIsCut | prj/src/log/Queue.h:114-122 | two producers wait for one pack, and the text of the second is cut to the room the first has left |
| LogQueue.Queue.MissingAtClose | prj/src/log/Queue.h:141-193 | when the writer is told that the queue is closed, all bytes kept have been handed over if and only if there is no pack being filled or it is empty |
| LogQueue.LossAtClose | prj/src/log/Queue.h:88-146 | one short text, posted before the close, is never handed over |
| Upgrade.Database.RunAll | persist/Database.h:38-89 | statements and nested transactions in place behave as the transaction semantics says |
| Upgrade.InnerRun | persist/Database.h:41-79 | inside a transaction, whatever is thrown and caught, unless the failure of an inner transaction is swallowed: nothing is committed, and the level and what is written are as they should be or all is rolled back |
| Upgrade.AllOrNothing | persist/Database.h:41-79 | the outermost transaction commits all that was written at every level if the statements run to their end and the commit succeeds, and otherwise leaves the database as it was |
| Upgrade.AfterSwallowing | persist/Database.h:52-79 | once such a failure is swallowed, wherever it happens, the level is 0 and every statement from then on takes effect at once and stays |
| Upgrade.SwallowedFailure | persist/Database.h:52-79 | so the commit of the upgrade fails, and its version row is stored all the same if the function returns and the row can be saved |
| Upgrade.AllOrNothingIff | prj/src/persist/Persist.cpp:144-149 | of an upgrade whose function returns and whose row can be saved: all or nothing, if and only if no failure is swallowed |
| Upgrade.SwallowedChange | prj/src/persist/Persist.cpp:144-149 | one change and one caught inner failure: the change is lost, the version stored |
| Upgrade.SwallowedCountsAsDone | prj/src/persist/Persist.cpp:135-142 | the version read the next time is not below it, so it is not run again |
| Upgrade.RowsAfterUpgrade | prj/src/persist/Persist.cpp:144-149 | whatever an upgrade function catches, unless it writes version rows itself: the version table gains that upgrade's row, or nothing, and exactly when |
| Upgrade.PendingMember | prj/src/persist/Persist.cpp:139-151 | the versions the loop is to run are exactly the registered ones above the stored one |
| Upgrade.PendingAscends | prj/src/persist/Persist.cpp:139-151 | each of them once, ascending |
| Upgrade.AboveStored | prj/src/persist/Persist.cpp:130-143 | a version is above the one read if and only if it is above 0 and above every version row |
| Upgrade.Persist.RunUpgrade | prj/src/persist/Persist.cpp:144-149 | for any upgrade function: what the transaction semantics says; unless it swallows a failure, the changes and the version row are committed together if the function, the save and the commit succeed, and otherwise nothing is; if it does, the upgrade fails |
| Upgrade.Persist.OnLive | prj/src/persist/Persist.cpp:106-153 | for any upgrade functions, however the connection, upgrades, saves and commits fail: the invariants are kept, nothing committed is undone, nothing recorded or applied forgotten, and the state is set once all upgrades still to come succeed |
| Upgrade.Persist.ExactlyOnce | prj/src/persist/Persist.cpp:125-153 | over any number of calls, whatever failures are swallowed: unless a function has written version rows itself, the versions recorded are distinct, ascending and exactly the registered ones that are above 0 and all version rows of the start and not above all of now, and once the state is set none is left; unless one has swallowed a failure, the database is what it was plus exactly those upgrades, each whole |
| Upgrade.Persist.FromScratch | prj/src/persist/Persist.cpp:125-153 | from a database without version rows, once the state is set exactly the registered versions above 0 have been recorded |
| JoinMapping.FindKey | persist/ObjectMapping.h:460-471 | the first primary or foreign key of that name |
| JoinMapping.IsKeyIff | persist/ObjectMapping.h:460-471 | a property is a key exactly if it is a primary or foreign key of the main mapping |
| JoinMapping.ColumnMember | persist/ObjectMapping.h:237-251 | the columns are all of the main mapping's and those of each joined one that are no key of the main one |
| JoinMapping.SplitTrimmed | persist/JoinMapping.h:147-154 | read at its commas, the select list is the columns in order |
| JoinMapping.JoinedIffShares | persist/ObjectMapping.h:255-289 | a table is joined exactly when its mapping shares a key with the main one |
| JoinMapping.GetSelectJoinSql | persist/JoinMapping.h:140-174 | the statement for these columns, or the error for the first mapping without properties |
| JoinMapping.StatementFetches | persist/JoinMapping.h:140-174 | the statement, read back: for every tuple of the database each text of its select list fetches, by alias and field name, exactly the value the decoder takes for that column; "A" names the main table; joins and condition follow |
| JoinMapping.AliasesApartIff | persist/JoinMapping.h:100-104 | the aliases of n tables are letters from "A" on and differ if and only if n is at most 191 |
| JoinMapping.ClauseReadIff | persist/ObjectMapping.h:255-289 | a join clause, read back: it names its table, and a tuple satisfies its equations if and only if every property that is a key of the main mapping has the value of that key |
| JoinMapping.ErrorIff | persist/ObjectMapping.h:230-234 | there is a statement exactly if every mapping has properties; the error names the first that has none |
| JoinMapping.DecodeRow | persist/JoinMapping.h:189-215 | value k of a record goes to the property of column k, for every k, and there are no others |
| JoinMapping.DecodeJoin | persist/JoinMapping.h:178-219 | one object for each record |
| JoinMapping.ClausesApartIff | persist/JoinMapping.h:161-166 | read at spaces, the join clauses are the clauses meant if and only if at most one joined mapping shares a key with the main one |
| JoinMapping.TwoClausesRunTogether | persist/JoinMapping.h:161-166 | two tables that refer to the same key, and the statement they give |
| JoinMapping.DecodeProjectedIff | persist/JoinMapping.h:140-219 | for every tuple of the database, decoding its projection leaves a property with the value of a given field of a given mapping, if and only if the last column of that name selects that field; however often a mapping names a property |
| JoinMapping.DecodeDistinctIff | persist/JoinMapping.h:140-219 | if no mapping names a property twice: a selected property has the value of its own field if and only if no later mapping has one of that name that is no key of the main one |
| JoinMapping.DecodedIffSelected | persist/JoinMapping.h:178-219 | a property of the object is set exactly if some mapping has a column for it |

## Left out

- Sockets, timers, files, the database engine, sql execution, XML and configuration, Qt, generated messages and
  the export macros: input, output and library behaviour. A message object is given by its bytes, a hash map by
  its contents, a failure by a parameter.
- `OneTopic` and the typed, shared-pointer and multi-id variants of the publishing functions: they add easy members.
- `SetTopic` and `SeqTopic` keep of a topic's list what `TopicList` says; `SubscriptionGraph` proves that of the list
  itself for every operation on it, with lost nodes or without. A node that has left is taken to stay in memory while
  `m_tail` points at it or a node is hung behind it.
- Graph operations and each step of a publishing operation are single steps. `remove` of an object that is not there
  dereferences null and is not part of this model.
- `Subscriber::unsubscribe_all` and `Topic::clear` at lock granularity: after relocking they act on whichever node
  is first then. Only `Subscriber::unsubscribe` is taken apart, in `UnsubscribeRace`.
- Reference counts of subscriptions (`AutoRefPtr`) and the time at which a node is freed.
- `OrdersLock::unlock` followed by its destructor, which unlocks once more.
- `post_unique`, `release`, a changing capacity, and posting to a message queue after its close.
- Sha1.SHA1.Input takes byte strings below 2^32 bytes, the width of its length argument; the stream operators only call it.
- Ciphers and checksums of `TcpProtocol`: neither is ever installed.
- `eco::cpy_pos` is not part of the repository; it is taken to copy and to advance the position.
- WebSocket.Decode and WebSocket.DecodeFrame assume that a frame with the mask bit has its key, as the source does;
  `ReaderGivesKeyIff` says when that holds. `encode_text` and `decode_websocket` are the same steps again.
- `WebSocketShakeHand` is not part of this model. A size that does not fit 32 bits together with its head ends the
  reading here; what the source then does to the smaller string is not modelled.
- WebSocket.Encode and Tcp.Encode: the source computes the size of the whole string in 32 bits; payloads that make it
  wrap around are not distinguished from others.
- LogQueue.Queue packs are values, because a pack has one owner at a time; what a pack does in memory is
  `LogQueue.FixBuffer`.
- Upgrade.Persist.OnLive: a `begin` or `rollback` that itself throws, and the second half of `on_live`, are left out;
  a failed `commit` is taken to have changed nothing, and `read` to yield the highest version, as its sql asks.
- Upgrade.Persist.ExactlyOnce: says nothing of what is stored once an upgrade function has written version rows
  itself (`meddled`), since the version read is then whatever it wrote.
- `save`, `update` and the sql of insert, update, delete and create table: easy members of the same shape as the
  select list. `get_select_sql` and `decode_some` are the case of a main mapping without joins.
- Escaping: names and conditions are taken as they are.
