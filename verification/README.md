# Verification of the queue, the server table and the key/value store

This Dafny project models three parts of the repository and proves properties of them over all inputs and all runs.

**The thread-safe queue (`boost_asio_olc/NetCommon/net_tsqueue.h`).** `TsqueueProtocol` is the locking protocol as a
state machine: any number of threads, any calls, one transition per lock, unlock, access to the deque, notification,
going to sleep or waking up, spuriously or not. A member function touches the deque twice, first to find or read an end
and then to change the deque and give its result, and other threads may run in between; only `muxQueue` keeps them off
the deque (`raced` records if it does not). A push takes `muxQueue`, changes the deque, takes `muxBlocking` as well and
notifies; `wait` checks under `muxQueue`, releases it, and takes `muxBlocking` to sleep. Reading or popping an end of an
empty deque, which the C++ standard leaves undefined, is a state of the machine (`undefined`), not a precondition.
`AtomicDeque` is the sequential deque; class `TsQueue` has the bodies of the member functions, proved against it;
`Linearizability` shows that every interleaving is a run of it. `LostWakeup` says exactly when `wait` sleeps through a
push, and `SoloCalls` what a thread can always do and how calls complete. `MessagePump` puts the loop of
`server_interface::Update` on top of the machine as its one consumer.

**The server (`boost_asio_olc/NetCommon/net_server.h`).** Class `ServerInterface` updates the connection table, the id
counter and the incoming queue in place, with the compaction (`std::remove` and `erase`) as a real two-index loop. Its
methods are proved against the functions of `ConnectionTable` and, for `Update`, of `Arrivals`; `ServerRuns` proves what
holds over every run of the accept handler, `MessageClient` and `MessageAllClients`.

**The key/value store (`MemDB.cpp`).** Class `MemDB` over a map of strings, with `%d`, `%f` and `atoi` written out in
`Decimal`. A float is a sign and a whole number of millionths, which is what `%f` prints.

## Findings

- `wait` can lose a wakeup. A push that runs between the emptiness check (net_tsqueue.h:74) and the lock of
  `muxBlocking` (line 76) notifies nobody, and the waiter goes to sleep on a non-empty deque
  (`LostWakeup.LostWakeupHappens`). With one consumer this is the only way (`LostWakeup.LostExactlyInTheGap`), and the
  next completed push repairs it (`LostWakeup.CompletedPushWakes`). A push that does wake the consumer is never in vain
  (`MessagePump.PushWakesOnce`).
- `MessageClient` does not remove a disconnected client, although the comment at net_server.h:141 says so: line 139
  resets the pointer that line 143 searches for, and the table has no null entries
  (`ServerRuns.MessageClientRemovesNobody`). The model follows the code. The client is therefore reported to
  `OnClientDisconnect` again by the broadcast that does remove it (`ServerRuns.ReportedTwice`).
- `Update` is safe because there is one consumer; with two, the same check-then-pop pattern pops an empty deque
  (`MessagePump.TwoConsumersPopEmpty`), for any two of any number of threads.
- The 32-bit id counter keeps ids increasing for exactly 2^32 - 10000 approvals (`ServerRuns.IdsIncreaseExactly`).
  After that it starts again from 0, and two clients share an id exactly if they were approved a multiple of 2^32
  approvals apart (`ServerRuns.SameIdExactly`). One client that stays while 2^32 - 1 others come and go is enough
  (`ServerRuns.NewcomerSharesId`).
- A number in the store never reads as true; since C++ passes a `bool` to the `int` overload of `SetValue`, this
  includes `true` itself (`MemDBClass.BoolReads`).

## Assumptions

- Mutexes and condition variables behave as section 30.5.1 of ISO C++14 says; the deque operations and
  `std::remove` as its sections 23.3.3 and 25.3.8 say.
- The accept handler and the user's calls run one at a time: the code takes no lock around `m_deqConnections`.
  `OnClientDisconnect` does not change the table, and `OnMessage` does not re-enter `Update`. `OnMessage` may send and
  broadcast (boost_asio_olc/NetServer/SimpleServer.cpp:60), since `Update` never reads the table.
- An approved connection takes over the id handed out: its socket has just been accepted, so it is open in
  `ConnectToClient`.
- Everything that comes from outside is a parameter: the result of an accept, the answers of `OnClientConnect` and of
  `IsConnected` (asked once per visit), and what other threads push while `Update` runs. Calls that leave the server are
  recorded in `effects` and `handled`.
- Inductions are written out; automatic induction is switched off in every lemma.

## Model

| member | source | states |
|---|---|---|
| `TsqueueProtocol.Reachable` | boost_asio_olc/NetCommon/net_tsqueue.h:32-97 | in every reachable state of any number of threads each mutex is owned by exactly the thread whose position says so, no thread has ever touched the deque while another was between its two accesses, what an operation under way has read is still at that end, and a push that still owes its notification leaves the deque non-empty |
| `TsqueueProtocol.CompletesWhatItBegan` | boost_asio_olc/NetCommon/net_tsqueue.h:82-97 | the second access of an operation finds the deque as the first found it, so both together are the sequential operation: the item a pop returns is the item it removes |
| `TsqueueProtocol.OverlappingPops` | boost_asio_olc/NetCommon/net_tsqueue.h:82-88 | a state in which two `pop_front` have both begun violates the invariant, hence is unreachable; from it both would return the same item and the next one would be lost unseen |
| `TsqueueProtocol.MutualExclusion` | boost_asio_olc/NetCommon/net_tsqueue.h:32-79 | no two threads own the same mutex, and nobody holds `muxBlocking` while waiting for `muxQueue` |
| `TsqueueProtocol.DeadlockFree` | boost_asio_olc/NetCommon/net_tsqueue.h:32-79 | some thread can take an internal step if and only if some thread is neither outside the queue nor asleep in `wait` |
| `TsqueueProtocol.BoundedWork` | boost_asio_olc/NetCommon/net_tsqueue.h:32-97 | in every schedule the internal steps number at most 15 per call plus 8 per spurious wakeup, so the locks and the wait loop cannot keep threads busy by themselves |
| `SoloCalls.AnyCallAnytime` | boost_asio_olc/NetCommon/net_tsqueue.h:18-97 | in every reachable state a thread outside the queue can make any call, whoever sleeps or works |
| `SoloCalls.AnySleeperMayWake` | boost_asio_olc/NetCommon/net_tsqueue.h:76-77 | a spurious wakeup can happen to any sleeper at any moment |
| `SoloCalls.NotifyWakesAny` | boost_asio_olc/NetCommon/net_tsqueue.h:37-38 | a push about to notify can wake any of the sleepers, and cannot wake nobody if there is one |
| `SoloCalls.OnlyMutexesHoldUp` | boost_asio_olc/NetCommon/net_tsqueue.h:32-97 | a thread inside the queue has a next step of its own if and only if it is not asleep and not waiting for an owned mutex, which is then owned by another thread |
| `SoloCalls.CallAlone` | boost_asio_olc/NetCommon/net_tsqueue.h:18-97 | while everybody else is idle or asleep, every member function but `wait` completes with the result and the deque of the sequential operation, and a push wakes the chosen sleeper and nobody else |
| `SoloCalls.WaitAlone` | boost_asio_olc/NetCommon/net_tsqueue.h:72-79 | such a `wait` returns at once if there is an item and sleeps if there is none |
| `SoloCalls.SpuriousAlone` | boost_asio_olc/NetCommon/net_tsqueue.h:72-79 | after a spurious wakeup `wait` sleeps again on an empty deque and returns on any other |
| `SoloCalls.PushReturnsWait` | boost_asio_olc/NetCommon/net_tsqueue.h:32-79 | from every reachable state with w asleep and nobody else inside, a push that wakes w and then w's own steps end with `wait` returned and the item in the deque |
| `Linearizability.Linearizable` | boost_asio_olc/NetCommon/net_tsqueue.h:18-97 | every interleaving of the separate accesses maps to a run of the sequential deque with the same results, without a data race; each call takes effect exactly once between call and return, inside its own section of `muxQueue`, and each push notifies once before it returns |
| `Linearizability.UndefinedExactly` | boost_asio_olc/NetCommon/net_tsqueue.h:18-29 | undefined behaviour is reached exactly when a pop or a look at an end makes its first access after as many items were popped and cleared as were pushed |
| `Linearizability.NothingLostOrDuplicated` | boost_asio_olc/NetCommon/net_tsqueue.h:32-97 | with both ends in use and any interleaving, the multiset pushed equals popped plus cleared plus still queued |
| `Linearizability.PushesAreCalls` | boost_asio_olc/NetCommon/net_tsqueue.h:32-49 | what a thread has pushed is, item by item and in order, what it has called to be pushed, except for a call still under way |
| `Linearizability.InOrder` | boost_asio_olc/NetCommon/net_tsqueue.h:32-39 | with `push_back` and `pop_front` alone, pushed equals popped followed by queued, the items popped are those of the first pushes, and those of them that came from thread t are in order the items of the first `push_back` calls of t |
| `Linearizability.CountsAreExact` | boost_asio_olc/NetCommon/net_tsqueue.h:52-63 | `count` and `empty` report the pushes minus the pops and clears that took effect before them |
| `AtomicDeque.Conservation` | boost_asio_olc/NetCommon/net_tsqueue.h:32-97 | the sequential deque neither loses nor duplicates an item, over all histories |
| `AtomicDeque.FirstInFirstOut` | boost_asio_olc/NetCommon/net_tsqueue.h:32-39 | a history that pushes at the back and pops at the front pops a prefix of what it pushed, the rest being queued |
| `AtomicDeque.ThreadOrder` | boost_asio_olc/NetCommon/net_tsqueue.h:32-39 | in such a history what has been popped of one thread's items is a prefix of what that thread pushed |
| `AtomicDeque.EndsInOrder` | boost_asio_olc/NetCommon/net_tsqueue.h:18-29 | in such a history `front` shows the oldest item not yet popped and `back` the latest item pushed |
| `AtomicDeque.LastInFirstOut` | boost_asio_olc/NetCommon/net_tsqueue.h:42-97 | either end alone is a stack: in every history, if the operations since a push are all at its end, never reach below it and have popped as much as they pushed, the next pop there returns its item and restores the deque from before the push |
| `TsQueueClass.TsQueue.PushFront` | boost_asio_olc/NetCommon/net_tsqueue.h:42-49 | the deque changes in place as the sequential deque does |
| `TsQueueClass.TsQueue.PopFront` | boost_asio_olc/NetCommon/net_tsqueue.h:82-88 | returns and removes the front item, as the sequential deque does |
| `TsQueueClass.TsQueue.PopBack` | boost_asio_olc/NetCommon/net_tsqueue.h:91-97 | returns and removes the back item, as the sequential deque does |
| `LostWakeup.LostExactlyInTheGap` | boost_asio_olc/NetCommon/net_tsqueue.h:72-79 | whenever the one consumer sleeps, the deque is non-empty if and only if a push has still to notify or a notification ran between the consumer's check and its lock of `muxBlocking` |
| `LostWakeup.QuietSleep` | boost_asio_olc/NetCommon/net_tsqueue.h:72-79 | once all other threads are outside the queue, the consumer sleeps on a non-empty deque exactly if it missed a notification in that gap |
| `LostWakeup.LostWakeupHappens` | boost_asio_olc/NetCommon/net_tsqueue.h:74-77 | a concrete run that ends with the consumer asleep, an item in the deque and the producer gone |
| `LostWakeup.SleepsOn` | boost_asio_olc/NetCommon/net_tsqueue.h:72-79 | without a notification or a spurious wakeup a sleeper sleeps on, whatever the others do |
| `LostWakeup.OneNotifyPerPush` | boost_asio_olc/NetCommon/net_tsqueue.h:32-49 | over every run a thread has notified once per push it started, except for a push still before its notification |
| `LostWakeup.CompletedPushWakes` | boost_asio_olc/NetCommon/net_tsqueue.h:32-49 | between the start and the end of any later push there is a moment at which the consumer is not asleep |
| `MessagePump.NeverPopsEmpty` | boost_asio_olc/NetCommon/net_server.h:188-191 | with one consumer and any number of pushing threads, the separate `empty` and `pop_front` never pop an empty deque |
| `MessagePump.WaitReturnsNonEmpty` | boost_asio_olc/NetCommon/net_server.h:184 | when `wait` returns there is something to pop, spurious wakeups notwithstanding |
| `MessagePump.UpdateDelivers` | boost_asio_olc/NetCommon/net_server.h:182-198 | an `Update` delivers a prefix of the queue at entry followed by the arrivals, at most the bound, short of it only after seeing the deque empty with all earlier arrivals delivered, and at least one message if it waited and the bound allows |
| `MessagePump.CountStaysInRange` | boost_asio_olc/NetCommon/net_server.h:187-196 | the counter equals the messages handled and is below the bound when it is incremented, so it never wraps |
| `MessagePump.PushWakesOnce` | boost_asio_olc/NetCommon/net_server.h:182-198 | a push wakes the consumer at most once in an `Update`, and not in vain: until `wait` returns, the deque stays non-empty and the consumer does not go to sleep again |
| `MessagePump.UpdateEnds` | boost_asio_olc/NetCommon/net_server.h:182-198 | an `Update` takes at most 10 own steps per message of its bound, even if producers never stop; if it waits, 15 more, however often others push, and 8 per spurious wakeup |
| `MessagePump.UpdateGoesOn` | boost_asio_olc/NetCommon/net_server.h:182-198 | in every reachable state some step towards the end of the `Update` is possible if and only if w is still in it and not asleep, or others are inside the queue |
| `MessagePump.UpdateFinishes` | boost_asio_olc/NetCommon/net_server.h:182-198 | an `Update` that did not wait, or that a push has woken, has returned once no such step is left |
| `MessagePump.NextCallAnytime` | boost_asio_olc/NetCommon/net_server.h:184-191 | between two calls of an `Update` the next one, `wait`, `empty` or `pop_front`, can be made at once |
| `MessagePump.UpdateAnytime` | boost_asio_olc/NetCommon/net_server.h:182 | an `Update` can be started with any bound, waiting or not, whenever none is running |
| `MessagePump.ArrivalsAnytime` | boost_asio_olc/NetCommon/net_server.h:182-198 | every other thread outside the queue can push any item at any moment of an `Update` |
| `MessagePump.PumpIsARun` | boost_asio_olc/NetCommon/net_server.h:182-198 | every run of `Update` against pushing threads is a run of the locking protocol with one consumer, so the results above apply to it |
| `MessagePump.UpdateOversleeps` | boost_asio_olc/NetCommon/net_server.h:184 | an `Update` that waits sleeps on a non-empty queue exactly if a push has still to notify or a notification ran in the gap of `wait`, having delivered nothing |
| `MessagePump.TwoConsumersPopEmpty` | boost_asio_olc/NetCommon/net_server.h:188-191 | among any number of threads, any two that check and then pop have a run in which both are told the deque is not empty and the second pops an empty one |
| `ConnectionTable.WithoutKeeps` | boost_asio_olc/NetCommon/net_server.h:177-178 | removing a value keeps all other entries with their multiplicity, and is the identity if the value is absent |
| `ConnectionTable.CompactedIsFiltered` | boost_asio_olc/NetCommon/net_server.h:153-178 | nulling the unusable slots and then removing the nulls leaves exactly the usable slots |
| `ConnectionTable.SplitsTable` | boost_asio_olc/NetCommon/net_server.h:153-172 | every slot of a broadcast survives or is lost, none both and none twice |
| `ConnectionTable.SurvivorsInOrder` | boost_asio_olc/NetCommon/net_server.h:153-178 | the surviving slots keep their order |
| `ConnectionTable.BroadcastRefinesFilter` | boost_asio_olc/NetCommon/net_server.h:148-179 | the message goes to the usable slots other than the ignored one, once each in table order; `OnClientDisconnect` gets the other slots, once each in table order |
| `ServerInterfaceClass.ServerInterface.Remove` | boost_asio_olc/NetCommon/net_server.h:142-143 | the in-place two-index loop leaves the entries other than the value at the front, in order |
| `ServerInterfaceClass.ServerInterface.VisitAllClients` | boost_asio_olc/NetCommon/net_server.h:150-172 | the visiting loop nulls exactly the unusable slots and makes the specified outgoing calls |
| `ServerInterfaceClass.ServerInterface.MessageAllClients` | boost_asio_olc/NetCommon/net_server.h:148-179 | loop, flag and compaction together perform the specified broadcast |
| `ServerInterfaceClass.ServerInterface.MessageClient` | boost_asio_olc/NetCommon/net_server.h:123-145 | sends, or notifies and erases the null entries, as written |
| `ServerInterfaceClass.ServerInterface.OnAccept` | boost_asio_olc/NetCommon/net_server.h:75-119 | each verdict changes the table, the wrapping counter and the outstanding accepts as specified |
| `Arrivals.WaitsForFirst` | boost_asio_olc/NetCommon/net_server.h:184 | `wait` ends with the first batch of arrivals that brings something, and blocks if and only if nothing is queued and nothing ever arrives |
| `Arrivals.OneOutcome` | boost_asio_olc/NetCommon/net_server.h:184-196 | what is queued, what arrives when, and the bound determine how many messages an `Update` delivers and when it stops |
| `ServerInterfaceClass.ServerInterface.Update` | boost_asio_olc/NetCommon/net_server.h:182-198 | delivered messages followed by the queue are the old queue followed by the arrivals; at most the bound; it stops at its first emptiness check that finds nothing, and only there if short of the bound, which fixes the batches used up; blocked if and only if it waits and nothing ever arrives; terminates for every 64-bit bound |
| `ServerRuns.TableIsClean` | boost_asio_olc/NetCommon/net_server.h:91-98 | between handlers the table has no null and no duplicate, only approved connections, in order of approval |
| `ServerRuns.IdsFrom10000` | boost_asio_olc/NetCommon/net_server.h:98 | in every run the k-th client approved, from 0, is given id (10000 + k) mod 2^32, and the counter is one further |
| `ServerRuns.IdByApproval` | boost_asio_olc/NetCommon/net_server.h:98-100 | every client in the table has the id of its own approval |
| `ServerRuns.IdsIncreaseBeforeWrap` | boost_asio_olc/NetCommon/net_server.h:98 | in every run with at most 2^32 - 10000 approvals the ids handed out increase strictly along the table |
| `ServerRuns.IdsIncreaseExactly` | boost_asio_olc/NetCommon/net_server.h:234 | the bound is sharp: with n approvals in a row the ids increase if and only if n is at most 2^32 - 10000 |
| `ServerRuns.SameIdExactly` | boost_asio_olc/NetCommon/net_server.h:98 | in every run two entries of the table were handed the same id if and only if the number of approvals from one to the other is a multiple of 2^32 |
| `ServerRuns.IdsDistinct` | boost_asio_olc/NetCommon/net_server.h:98 | up to 2^32 approvals all ids in the table differ, wrapped or not |
| `ServerRuns.NewcomerSharesId` | boost_asio_olc/NetCommon/net_server.h:98 | while client 0 stays and n others come and go, the next client gets the id of client 0 if and only if n + 1 is a multiple of 2^32, with only these two in the table |
| `ServerRuns.AcceptAccounting` | boost_asio_olc/NetCommon/net_server.h:69-120 | between handlers there is one outstanding accept per `Start`, and the counter is 10000 plus the approvals modulo 2^32 |
| `ServerRuns.KeepsAccepting` | boost_asio_olc/NetCommon/net_server.h:116-118 | after one `Start` the next accept handler can always run, and again leaves one accept outstanding |
| `ServerRuns.NotificationAccount` | boost_asio_olc/NetCommon/net_server.h:123-179 | in every run a connection is passed to `OnClientDisconnect` once per `MessageClient` that found it disconnected, plus once if it was approved and has left the table |
| `ServerRuns.BroadcastRunsPartition` | boost_asio_olc/NetCommon/net_server.h:91-179 | in runs of accepts and broadcasts the approved connections are the disjoint union of those in the table and those notified, none notified twice |
| `ServerRuns.MessageClientRemovesNobody` | boost_asio_olc/NetCommon/net_server.h:136-143 | in every reachable state `MessageClient` leaves the table unchanged |
| `ServerRuns.OnlyBroadcastRemoves` | boost_asio_olc/NetCommon/net_server.h:123-179 | an entry leaves the table if and only if a broadcast visits it and finds it disconnected |
| `ServerRuns.ReportedTwice` | boost_asio_olc/NetCommon/net_server.h:136-166 | a client reported by `MessageClient` is reported again by the broadcast that removes it |
| `ServerRuns.NotifiedIffDown` | boost_asio_olc/NetCommon/net_server.h:127-166 | over every run `OnClientDisconnect` was called for a connection if and only if the connection has answered no to `IsConnected` |
| `ServerRuns.NothingSentAfterNotice` | boost_asio_olc/NetCommon/net_server.h:123-179 | if no connection that has answered no to `IsConnected` ever answers yes later, nothing is sent to a connection after it was notified, in any run |
| `ServerRuns.BroadcastsAskNobodyGone` | boost_asio_olc/NetCommon/net_server.h:153-178 | in runs of accepts and broadcasts nobody who has answered no is ever asked again, whatever the answers are |
| `ServerRuns.BroadcastsNeverSendAfterNotice` | boost_asio_olc/NetCommon/net_server.h:153-178 | so these runs send nothing after a notification, without any condition on the answers |
| `ServerRuns.ReopenedIsSentTo` | boost_asio_olc/NetCommon/net_server.h:127-136 | with `MessageClient` the condition is needed: in every run, a client in the table that answers no and then yes gets a message after its notification |
| `MemDBClass.MemDB.SetValue` | MemDB.cpp:89-99 | inserts or overwrites the key and nothing else |
| `MemDBClass.MemDB.GetIntValue` | MemDB.cpp:32-41 | returns the default for an empty text, else the number at its start, undefined if that does not fit an int |
| `MemDBClass.LastWriteIsRead` | MemDB.cpp:78-99 | a key reads as the text of the last write to it, over all histories without a later reset |
| `MemDBClass.BlankIsEmpty` | MemDB.cpp:16-19 | a key not written since the last reset reads as the empty string |
| `MemDBClass.WrittenOrBlank` | MemDB.cpp:78-87 | exactly one of these two cases holds for every history and key |
| `MemDBClass.StringRoundTrip` | MemDB.cpp:78-99 | a string is read back exactly as written, whatever is written to other keys |
| `MemDBClass.IntReadAsText` | MemDB.cpp:54-64 | an int reads as its decimal numeral without superfluous zeros, after a minus sign exactly if it is negative, and nothing else |
| `MemDBClass.FloatReadAsText` | MemDB.cpp:66-76 | a float reads as its sign if negative, the numeral of its whole part, a point and the six digits of its millionths |
| `MemDBClass.StringReadAsInt` | MemDB.cpp:32-41 | a non-empty string read as an int gives the number at its start, after white space and with its sign, and is undefined exactly if that does not fit |
| `MemDBClass.DefaultExactlyWhenEmpty` | MemDB.cpp:21-41 | a typed reader returns its default, whatever it is, exactly when the text is empty |
| `MemDBClass.IntTextFits` | MemDB.cpp:54-64 | a printed int has 1 to 11 characters, so neither the default nor the buffer's end comes into play |
| `MemDBClass.FloatTextFits` | MemDB.cpp:66-76 | a printed finite float has 8 to 47 characters |
| `MemDBClass.IntRoundTrip` | MemDB.cpp:32-64 | every 32-bit int is read back as itself, for every default and whatever is written to other keys |
| `MemDBClass.FloatReadAsInt` | MemDB.cpp:32-76 | a float read as an int gives the printed value, in whole millionths, truncated toward zero, and is undefined exactly if that does not fit |
| `MemDBClass.BoolReads` | MemDB.cpp:21-30 | a key reads as true for every default if and only if the last write was the text "true", and as false for every default if and only if it was another non-empty text or any number |
| `Decimal.AtoiReads` | MemDB.cpp:40 | `atoi` returns the signed positional value of the digits after white space and an optional sign, and 0 without digits |
| `Decimal.EveryTextHasParts` | MemDB.cpp:40 | every text splits into white space, sign, digits and rest, so the previous row covers every text |
| `Decimal.Characters` | MemDB.cpp:40 | white space is characters 9 to 13 and 32, the digits are 0 to 9 with their own values, and each is printed as it is read |
| `Decimal.IntText` | MemDB.cpp:54-60 | `%d` writes the numeral of every integer, after a minus sign exactly if it is negative |
| `Decimal.FloatText` | MemDB.cpp:66-72 | `%f` writes sign, whole part, point and six decimals, each with the right value |
| `Decimal.AtoiOfPrintInt` | MemDB.cpp:40-60 | `atoi` undoes `%d` for every integer |
| `Decimal.AtoiOfPrintFloat` | MemDB.cpp:40-72 | `atoi` of a `%f` text is its value truncated toward zero, also below one and with a minus sign |

## Left out

- asio, sockets, the resolver and the context thread: only "an accept handler runs, with this result" remains.
- `connection` and `message` apart from identity, `IsConnected` and the id: their sending and receiving is I/O.
- The data race on `m_deqConnections` between the asio thread and user calls: handlers are taken as serialised.
- `front` and `back` return references that outlive the lock: only the value read under the lock is modelled.
- `wait` as a method of class `TsQueue`: it blocks on other threads, so it exists in `TsqueueProtocol`; `AwaitMessage`
  of class `ServerInterface` is its sequential image.
- `LostWakeup` covers one consumer; with several, `notify_one` may also wake the wrong one.
- The destructor of `tsqueue`, which only clears it, `Stop`, console output, and an exception thrown by
  `remote_endpoint` inside the accept handler.
- `GetFloatValue`, infinities and NaNs: binary rounding of `atof` and `%f` is not modelled.
- The singleton `GetInstance` of `MemDB`, and the client side (`net_client.h`, `SimpleClient.cpp`).
- `net_common.h` and the vendored `asio` sources are not part of this model.
