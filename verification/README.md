# AODV routing daemon: model and proofs

This project models an Ad hoc On-Demand Distance Vector (AODV) routing daemon, an implementation of sections 6.1 to
6.7, 6.9 and 6.11 of RFC 3561 in C, and proves what its handlers keep over whole runs of one node and of a network.

## How it is built

The model has three layers.

- **Code in place.** `TimeFuncs`, `LinkedList` and `RoutingDaemon` keep the form of the source: a `Timespec`, a doubly
  linked list and a `Daemon` object whose methods assign fields behind a 256-slot array of `RoutingEntry` objects, with
  the loops the source has. Each method is proved to do to the object's value exactly what a function on values does;
  `Daemon.Handle` sums this up for every event.
- **One node as a value.** `RoutingTable`, `SendMessages`, `RecvMessages` and `Callbacks` define a node's state
  (counters, table, kernel routes, live threads) and the effect of each handler as a function. An event is one atomic
  step: a received message, a data packet in, through or out, a wake-up of a thread, a turn of the hello thread.
  `Operations` splits each event into a few table operations, so that an invariant is shown operation by operation and
  then holds over every run from `Boot`. `Deadlines` says what the handlers leave in an entry, and that no entry stays
  for ever.
- **The network.** A network is a map from addresses to nodes and the set of all packets ever sent. Any of them may be
  delivered any number of times, in any order, or never.

Main results, over all inputs or all runs, with every restriction named here or in the table:

- reverse routes are free of loops, in runs in which no reply and no error is received, no entry is removed and no hello
  brings a new number for a route that leads through another node (`LoopFreedom.Harmless`); `LoopRuns` holds a run from
  the start to a loop for replies, for deletions and for such hellos, each alone, in which no node ever acts on a valid
  route past its deadline;
- numbers recorded for a node never exceed the node's own, before rollover, in runs without errors and
  without a request more than half a word behind its destination;
- no request travels further than its originator allowed, and floods end;
- in a network a neighbour that was handed a route is told when an error takes it away, without a limit on how many
  losses come together; a single node that is sent an error of 128 pairs or more may keep silent, and which reports
  it loses is said exactly (`LossRuns` holds such a run from the start);
- table and kernel agree, timers and search threads belong to entries one to one, and no entry stays without a timer
  or a search;
- an answer to a node's own search leaves it a valid route with a number at least the one it had recorded, over the
  hops the answer has come (`OwnSearch`, `EndToEnd`);
- what each handler records, sends and renews is said of the whole handler (`RequestHandling`, `ReplyHandling`,
  `DataRoutes`, `Questions`, `Hellos`, `ActiveRoutes`);
- copies of a request are dropped, and answered again by its destination only over ways that are no longer;
- recorded numbers do not go back unless an error or a removal intervenes, a search sends what its plan says and ends,
  and a reverse route lives long enough.

## Assumptions

- The addresses in play are not zero and have distinct top bytes (`DataStructures/data_structure.c:27` uses nothing
  else). Both are hypotheses (`DistinctSlots`) only of the theorems that need them; slots are modelled as they are.
- `seq_compare` is the two's-complement difference wrapped to 32 bits. In C the overflow is undefined; the comment
  above the macro asks for signed 32-bit arithmetic.
- `rreq_id` of a fresh entry is not set by the source, so it is an arbitrary input (`junk`) of each step that may
  create an entry.
- Adding a kernel route binds a destination, deleting unbinds it. The gateway is not tracked.
- Each handler, and each stretch of a thread between two sleeps, is atomic. Mutexes are erased. A thread is an element
  of a ledger under a handle; cancelling takes it out. Handles are never reused and 0 is no handle.
- A timer is a wake-up time and a thread may run at any later time. Where a result needs a clock that does not go back,
  it says so (`NetMonotone`).
- A packet in the network is a message value. Packing and unpacking are proved to be inverse, and the daemon's handlers
  work on the packed words and change them in place.
- The hello thread waits for an active route, sleeps for a second and says hello, also when the route is gone by then.

## Where the code and its comments disagree

The model follows the code.

- `recv_rrep` accepts an equal number whatever the hop count (`Messages/recv_messages.c:264`), the comment above it only
  a greater one. `Freshness.ReplyMayWorsen` and `ForwardLoop` say exactly what this permits, and `LoopRuns` gives a run
  that ends in a loop.
- A hello stands for a route straight to its sender, but `recv_rrep` takes over its number and leaves a next hop that is
  another node (`Messages/recv_messages.c:199-209`). `LoopRuns.HelloMakesLoop` shows what follows.
- `recv_rreq` says it ignores a repeat not better than the current route, but compares the hop count before it is
  incremented (`Messages/recv_messages.c:49-58`), so a copy over a way of the same length is answered again
  (`NodeRuns.EqualCopyIsAnswered`). Its comment lets an intermediate node answer with an equal number; the code wants a
  newer one (`Messages/recv_messages.c:135-149`).
- `recv_rreq` compares numbers unsigned (`Messages/recv_messages.c:80`), `recv_rrep` with `seq_compare`.
- `max_timespec` is not a maximum on equal seconds (`DataStructures/time_funcs.c:120-132`), `subtract_time` clamps whole
  seconds only (`DataStructures/time_funcs.c:13-26`), `add_time_ms` can leave 10^9 nanoseconds
  (`DataStructures/time_funcs.c:77`). The exact conditions are proved.
- Any non-zero flags cause a gratuitous reply: the test is `flags && RREQ_GRAT` (`Messages/send_messages.c:95`).
- A request straight from a known originator can shorten the route to it by more than a second, because the sender's
  deadline is overwritten first (`Messages/recv_messages.c:26-30`). `Lifetime.DirectRequestLives` says exactly when,
  `NodeRuns.DirectRequestShortens` gives a run.
- An error for an invalid route of a known destination carries the destination's address as its number (`AODV.c:316`).
- `recv_rerr` counts words in 8 bits, so with 128 or more destinations to report it loses reports
  (`Messages/recv_messages.c:349-368`). `RouteErrors.RerrNamesLast` and `NoSilentLoss` say exactly which,
  `LossRuns` gives a run in which all are lost, and `NetworkLoss` shows that no node of a network is sent an error that
  long.
- `send_rrep_destination` is meant to take the larger of two numbers; a request more than half a word behind makes the
  destination fall back instead. `Authority.DestinationAdvertisesNext` says exactly when, `NodeRuns.NumberFallsBack`
  gives a run.

## Model

| member | source | states |
|---|---|---|
| Aodv.SeqCompareIsDifference | AODV.h:42-54 | on truncations of two unbounded counters seq_compare is their difference if and only if they are less than half a word apart |
| Aodv.SeqCompareSign | AODV.h:42-54 | within such a window the comparison has the sign of the difference across any number of rollovers, so it orders the window strictly and totally |
| Aodv.SeqCompareInWindow | AODV.h:54 | before rollover, numbers less than half a word apart compare like integers |
| Aodv.SeqCompareCycle | AODV.h:54 | outside a window the order is not transitive: three numbers, each older than the next, in a circle |
| TimeFuncs.SubtractTime | DataStructures/time_funcs.c:13-26 | in place, current becomes end minus current with the clamp on whole seconds |
| TimeFuncs.AddTimeMs | DataStructures/time_funcs.c:73-81 | the carry loop adds the milliseconds, exactly in nanoseconds |
| TimeFuncs.ConvertMsToTimespec | DataStructures/time_funcs.c:89-98 | the loop produces the timespec of the milliseconds |
| TimeFuncs.ConvertTimespecToMs | DataStructures/time_funcs.c:106-111 | the 32-bit sum of both parts, with its truncation |
| TimeFuncs.MaxTimespec | DataStructures/time_funcs.c:120-132 | returns one of the two arguments, chosen as the nested division does |
| TimeFuncs.AddMsIsExact | DataStructures/time_funcs.c:73-81 | a normal time stays normal if and only if the nanoseconds do not add up to exactly 10^9 |
| TimeFuncs.SubtractClampsSeconds | DataStructures/time_funcs.c:13-26 | subtraction is the difference clamped at 0 if and only if the end is not earlier within the same second; there it is the negative difference |
| TimeFuncs.SubtractNeverEarly | DataStructures/time_funcs.c:13-26 | sleeping for the computed time never wakes up before the end, and exactly then unless the end lies in an earlier second |
| TimeFuncs.MsRoundTrip | DataStructures/time_funcs.c:89-111 | milliseconds to timespec and back is the identity, and the timespec is exact |
| TimeFuncs.ToMsRoundsDown | DataStructures/time_funcs.c:106-111 | a time below 2^32 ms converts to the next lower millisecond |
| TimeFuncs.MaxIsMaximum | DataStructures/time_funcs.c:120-132 | the result is at least both arguments if and only if it is not the case that the seconds are equal and the first has fewer nanoseconds |
| LinkedLists.LinkedList.AddEntryToList | DataStructures/linked_list.c:23-41 | appends the value, keeps every old entry and all links |
| LinkedLists.LinkedList.RemoveEntryFromList | DataStructures/linked_list.c:43-79 | on a non-empty list, removes the first occurrence if there is one and leaves a well-linked list at both ends |
| LinkedLists.LinkedList.GetAllEntries | DataStructures/linked_list.c:81-102 | a new array with the values in list order |
| LinkedLists.LinkedList.IsInList | DataStructures/linked_list.c:104-112 | true if and only if the value is in the list |
| LinkedLists.RemoveFirstAt | DataStructures/linked_list.c:43-79 | removing at the first occurrence keeps what is before and after it, in order |
| LinkedLists.RemoveFirstCounts | DataStructures/linked_list.c:43-79 | removal takes away one occurrence if there is one, and nothing else |
| Messages.RreqRoundTrip | Messages/rreq.h:61-73 | a packed request, whatever follows it, is dispatched as a request with the same fields |
| Messages.RrepRoundTrip | Messages/rrep.h:53-62 | the same for a reply with any unset prefix size, also with the extra word an intermediate node sends |
| Messages.RerrRoundTrip | Messages/rerr.h:30-37 | the same for an error with up to 255 pairs |
| Messages.RreqLayout | Messages/rreq.h:49-74 | every field of a packed request stands where the struct has it, bit by bit |
| Messages.RrepLayout | Messages/rrep.h:41-66 | the same for a reply |
| Messages.RerrLayout | Messages/rerr.h:24-38 | the same for an error and its pairs |
| Messages.IncrementHop | Messages/rreq.h:99-101 | changes the low 8 bits of the first word only, 255 becoming 0 |
| Messages.IncrementHopRreq | Messages/rreq.h:99-101 | in the packet, the request changes in its hop count only |
| Messages.IncrementHopRrep | Messages/rrep.c:17-19 | in the packet, the reply changes in its hop count only |
| Messages.DecrementTtl | Messages/recv_messages.c:162 | in the packet, the request changes in its TTL only, one less |
| Messages.GenerateRerrMessageBuff | Messages/rerr.c:38-62 | nothing for no destinations, otherwise the packed error for the first pairs of the buffer |
| Messages.UnpackThenPack | Messages/rerr.c:51-54 | packing the pairs read from a buffer gives back the words of the buffer |
| RoutingDaemon.RoutingEntry.BecomeNeighbour | Messages/recv_messages.c:18-30 | the sender's entry in place: valid, subject noted once, deadline renewed if it was known |
| RoutingDaemon.RoutingEntry.TakeRequest | Messages/recv_messages.c:66-112 | the originator's entry in place: updated if new or improved, and valid |
| RoutingDaemon.RoutingEntry.TakeReply | Messages/recv_messages.c:262-299 | the destination's entry in place: updated if new or accepted, and valid |
| RoutingDaemon.Daemon.CreateOrGetRoutingEntry | DataStructures/routing_table.c:32-63 | returns the object in the slot or stores a new one there; every other slot is unchanged |
| RoutingDaemon.Daemon.SetExpirationTimer | DataStructures/time_funcs.c:141-159 | cancels the entry's timer, sets the deadline unless ms is 0, and starts the one new timer |
| RoutingDaemon.Daemon.StartRreqTimer | DataStructures/time_funcs.c:165-176 | replaces the timer that forgets the request id |
| RoutingDaemon.Daemon.ReverseLifetimeMs | Messages/recv_messages.c:114-121 | the in-place time functions compute the lifetime used by ReverseRoute, with every truncation |
| RoutingDaemon.Daemon.RecvRreq | Messages/recv_messages.c:10-171 | the handler in place, with its early returns and the packet changed under way, has the effect and the messages of the function on values |
| RoutingDaemon.Daemon.RecvRrep | Messages/recv_messages.c:173-334 | the same for replies and hellos, with the packet changed and passed on |
| RoutingDaemon.Daemon.RecvRerr | Messages/recv_messages.c:336-407 | the loop with its array, 8-bit counter and two locals has the effect of the scan, and the packet built from the array is the error of the model |
| RoutingDaemon.Daemon.SendRrepDestination | Messages/send_messages.c:23-56 | the node's number and the reply, as the function says |
| RoutingDaemon.Daemon.SendRrepIntermediate | Messages/send_messages.c:65-104 | both precursors and both replies, as the function says |
| RoutingDaemon.Daemon.SendRreq | Messages/send_messages.c:112-146 | refused and dropped after a recent failure, else one new search thread in place of the expiration, or the search that is on; the verdict waits |
| RoutingDaemon.Daemon.SendRreqOutcome | Messages/send_messages.c:147-173 | after a failure the entry expires in 500 ms and the packet is dropped, else the search is forgotten and the packet accepted |
| RoutingDaemon.Daemon.SendRings | Messages/send_messages.c:219-231 | the first loop sends exactly the growing rings of the plan and leaves the retries |
| RoutingDaemon.Daemon.SendRetries | Messages/send_messages.c:232-243 | the second loop sends exactly the network-wide attempts, each waiting twice as long |
| RoutingDaemon.Daemon.SendRreqThread | Messages/send_messages.c:186-256 | the thread, left alone, has the effect and the messages of its single turns in a row, and ends in failure |
| RoutingDaemon.Daemon.ExpirationFunc | DataStructures/routing_table.c:124-166 | frees an invalid entry with its other threads, makes a valid one invalid and sleeps on |
| RoutingDaemon.Daemon.RreqIdFunc | DataStructures/routing_table.c:173-186 | forgets the request id and its timer |
| RoutingDaemon.Daemon.HelloInterval | AODV.c:325-341 | a turn of the hello thread has the effect of the function: with an active route it goes to sleep for an interval, and after that it says hello with the node's number |
| RoutingDaemon.Daemon.IncomingDataMessage | AODV.c:69-82 | renews the route to the source of a packet for this node, and accepts |
| RoutingDaemon.Daemon.OutgoingMessage | AODV.c:121-167 | passes, renews, or gives up the route and starts a search, with the verdict on the packet |
| RoutingDaemon.Daemon.ForwardedMessages | AODV.c:170-318 | renews both ends and accepts, or reports the destination and drops |
| RoutingDaemon.Daemon.IncomingControlMessage | AODV.c:86-119 | a payload is handled as the event its bytes stand for; own and unknown ones do nothing |
| RoutingDaemon.Daemon.Handle | AODV.c:35-66 | for every event the object does what the event does to its value, so every theorem about runs of nodes holds of it |
| Verdicts.OutgoingAtOnce | AODV.c:133-145 | a packet of this node passes at once if and only if it needs no route or has an active one that leads somewhere, and is dropped at once if and only if a search has just failed and no route stands against that |
| Verdicts.ForwardedOrReported | AODV.c:192-219 | a packet to pass on is accepted if and only if nothing is reported; else its destination is reported to all |
| Verdicts.SearchDecides | Messages/send_messages.c:147-173 | a packet that waits for a search is accepted when an answer ends it and dropped when its plan is used up |
| Operations.EventIsOperations | Messages/recv_messages.c:10-407 | every event is the sequence of its table operations, each allowed when its turn comes |
| TableRefinement.RunPlaces | DataStructures/data_structure.c:25-31 | in every reachable state each entry sits in the slot of its own address, whatever the addresses |
| TableRefinement.MapIsTable | DataStructures/data_structure.c:39-43 | over addresses with distinct top bytes the table is a map: one binding for each entry, under its address |
| TableRefinement.StoreRefines | DataStructures/data_structure.c:25-31 | storing binds one address and changes no other |
| TableRefinement.RemoveRefines | DataStructures/data_structure.c:32-38 | removing unbinds one address and changes no other |
| TableRefinement.CreateOrGetRefines | DataStructures/routing_table.c:32-63 | create-or-get returns the entry bound to the address, or a new invalid one for it with its deadline |
| KernelAgreement.EventKeeps | Messages/recv_messages.c:112-113 | every event keeps table and kernel in agreement |
| KernelAgreement.KernelAgreement | DataStructures/routing_table.c:148-152 | in every reachable state a destination has a kernel route if and only if it has a valid entry |
| Threads.EventKeeps | DataStructures/time_funcs.c:141-176 | every event keeps threads and entries matched |
| Threads.ThreadsOfEntries | DataStructures/routing_table.c:18-30 | in every reachable state each thread works on an entry in the table, an entry has at most one thread for each purpose, and it has a search thread if and only if it is searching |
| Expiry.RemovedOnlyWhenExpired | DataStructures/routing_table.c:140-147 | an entry leaves the table if and only if its own timer finds it invalid, and never before its deadline |
| Expiry.ValidEntryExpires | DataStructures/routing_table.c:148-165 | a timer on a valid entry makes it invalid, drops the kernel route and sleeps under the same handle until exactly DELETE_PERIOD later; all else stays |
| Deadlines.TimerIsSet | DataStructures/time_funcs.c:141-159 | the old timer is gone; the one new timer wakes up exactly at the new deadline, or with 0 ms not before the old one |
| Deadlines.ReplyInstallsRoute | Messages/recv_messages.c:287-305 | a reply leaves a valid kernel route to its destination, marked active, that ends with the lifetime named |
| Deadlines.NoEntryIsForEver | DataStructures/routing_table.c:124-166 | in every reachable state of a node whose address is not 0, an entry has a live timer of its own that wakes up at its deadline or later and then makes a valid entry invalid for exactly DELETE_PERIOD and removes an invalid one, or else it is no active route and has a live search thread |
| Deadlines.ReplyWatches | Messages/recv_messages.c:173-305 | a reply, also one that ends a search, leaves every entry with a timer or a search if they had one before and the node's address is not 0 |
| Deadlines.FailureIsRemembered | Messages/send_messages.c:147-173 | a failed search keeps its entry for 5600 ms, cut to 500 ms when the waiting sender resumes, and its thread is gone |
| SeenRequests.RepeatIsSeen | Messages/recv_messages.c:42-55 | a repeat whose id is remembered does no more than meet its sender |
| SeenRequests.TakingRemembers | Messages/recv_messages.c:63-64 | a request that is taken is remembered, with a timer that forgets it PATH_DISCOVERY_TIME later |
| SeenRequests.EventRemembers | DataStructures/routing_table.c:173-186 | before that time no event forgets the id but the removal of the entry or another request of the originator |
| SeenRequests.RepeatsAreDropped | Messages/recv_messages.c:42-55 | in every run, within PATH_DISCOVERY_TIME a node that is not the destination answers no copy of a request it took, from whichever neighbour, and keeps the route the first one made |
| RequestHandling.Dropped | Messages/recv_messages.c:38-55 | a request that is the node's own, or has the recorded id of its originator without being a shorter way to this destination, is not answered and changes nothing but the entry of its sender |
| RequestHandling.SenderIsMet | Messages/recv_messages.c:11-35 | any request makes its sender a valid kernel neighbour for exactly 3000 ms from now, with the originator listed once, and leaves what was known of the way to it |
| RequestHandling.OriginatorIsRecorded | Messages/recv_messages.c:57-113 | any other request leaves a valid route to its originator with its id; the way is the one of the request unless a greater number was recorded, or the same with no more hops |
| RequestHandling.LifetimeIsChosen | Messages/recv_messages.c:114-121 | that route ends with MinimalLifetime or with its old deadline, whichever is later, up to a second of rounding, and never later; a new one exactly with MinimalLifetime |
| RequestHandling.DestinationAnswers | Messages/send_messages.c:43-55 | the destination takes its next number, or the requested one if that is not older, and answers the sender alone with it, at 0 hops and for 6000 ms |
| RequestHandling.OthersAnswerOrPass | Messages/recv_messages.c:134-169 | another node answers if and only if it has a valid route with a number strictly newer than asked for, or none is asked for, and may; the answer has the recorded hops and number and the milliseconds left, rounded down, and a second reply goes to the next hop if and only if a flag is set; otherwise the request goes on while its TTL lasts, one hop further and with a newer number if one is known |
| RequestHandling.DestinationRepeats | Messages/recv_messages.c:49-55 | a destination that knows the id answers the copy, once, if and only if the recorded way has more hops than the copy has come; if not, its number and the way stay |
| Copies.CopiesAreNotLonger | Messages/recv_messages.c:49-55 | in every run, within PATH_DISCOVERY_TIME after a destination has answered a request, a copy is answered if and only if it has come fewer hops than the way then recorded, and only if no more than the copy answered first |
| NodeRuns.EqualCopyIsAnswered | Messages/recv_messages.c:52 | it does happen: a copy over a way of the same length is answered again, with another new number |
| Copies.IdIsForgotten | DataStructures/routing_table.c:173-186 | when its time is over the timer forgets the id and nothing else, and any copy of the request is taken again |
| ReplyHandling.ReplyIsPassedOn | Messages/recv_messages.c:307-325 | a reply for another node with a recorded way is passed on to the next hop on it, one hop further and otherwise as it came; both ends are then active and each lists the next hop to the other as a precursor; any other reply is not passed on |
| ReplyHandling.DestinationIsRecorded | Messages/recv_messages.c:243-305 | a reply leaves a valid, active kernel route to its destination that ends with the lifetime named; the way is the one of the reply unless a valid newer number was recorded |
| ReplyHandling.HelloIsRecorded | Messages/recv_messages.c:195-215 | a hello sends nothing and changes only the record of its subject: a new one gets no route, a known one keeps way and status and takes number and lifetime unless its valid number is newer |
| DataRoutes.IncomingRenews | AODV.c:69-82 | a packet for this node renews the route to its source: it ends exactly 3000 ms from now, by a new timer, and nothing else changes; any other packet changes nothing |
| DataRoutes.OutgoingRenews | AODV.c:133-145 | a packet of this node renews a one-hop route in this way, and changes nothing when its route leads on through another node or it needs none |
| DataRoutes.OutgoingSearches | AODV.c:148-166 | without a route that leads on, the route there is is given up for DELETE_PERIOD and leaves the kernel, and a search with its own thread replaces the timer, unless one is on or has just failed |
| DataRoutes.WaitIsOver | Messages/send_messages.c:153-173 | the waiting sender forgets a search that has succeeded, and lets an entry end in 500 ms after one that has failed |
| DataRoutes.ThroughRenews | AODV.c:192-219 | a packet passed on renews both its ends; any other changes nothing and is reported to all, with number 0 for an unknown destination and with its address for a known one |
| Hellos.HelloIsGuarded | AODV.c:331-341 | in every run a turn of the hello thread either goes to sleep, and then there is an active route, or broadcasts one hello with the node's address and number for 2000 ms, and then it saw an active route at least 1000 ms before; nothing else in the node changes |
| ActiveRoutes.CounterIsExact | AODV.c:332 | until a route is lost or an entry runs out, active_routes is the number of entries marked as active, so the hello thread waits until the first mark |
| ActiveRoutes.ErrorCounts | Messages/recv_messages.c:375-379 | an error lowers the counter by the number of marked entries it takes away, but not below 0, and leaves the marks |
| ActiveRoutes.WakeCounts | DataStructures/routing_table.c:148-160 | a timer that ends a valid route with a valid number lowers it by the entry's mark; no other thread changes it |
| Questions.PlanIs | Messages/send_messages.c:214-243 | the growing rings start at 1, or two beyond the hop count known, grow by 2 up to 7 and wait 80 ms for each hop and two more; then three for the whole network wait 2800, 5600 and 11200 ms |
| Questions.SearchAsksWhatIsRecorded | Messages/send_messages.c:194-214 | in every reachable state all requests a search has sent, and the next, ask for the entry's address with exactly the number that was valid when it began, or with none known, in the name and with the new number of the node |
| SearchRun.PlanShape | Messages/send_messages.c:214-243 | whatever hop count was known: three to seven requests, TTLs that never shrink and stay within the network diameter, at most 21520 ms of waiting |
| SearchRun.SearchSends | Messages/send_messages.c:194-243 | in every reachable state before the id counter rolls over, a search has sent at most seven requests with one source number, growing ids and TTLs that never shrink |
| SearchRun.SearchEnds | Messages/recv_messages.c:178-189 | a live search ends by an answer, by the removal of its entry or by using up its plan, and by nothing else; each leaves the matching status and no search thread |
| SearchRun.TurnsTakeTheWaits | Messages/send_messages.c:219-243 | the turns of a search left alone last exactly the waits still planned |
| SearchRun.TurnsAreARun | Messages/send_messages.c:219-243 | they are a legal run with the effect of the whole thread, and end in failure |
| SearchRun.UnansweredSearchFails | Messages/send_messages.c:186-256 | a search nobody interrupts sends one request for each ring of its plan and fails within 21520 ms |
| RouteErrors.ScanTable | Messages/recv_messages.c:351-391 | exactly the listed entries valid through the sender become invalid, with the number listed first and a deadline DELETE_PERIOD away; all others are unchanged |
| RouteErrors.RerrNames | Messages/recv_messages.c:356-405 | the error sent on names exactly the lost destinations with precursors, in order and with the received numbers, if and only if there are fewer than 128 |
| RouteErrors.RerrNamesLast | Messages/recv_messages.c:366-368 | with 128 or more it names exactly those from the 129th on |
| RouteErrors.RerrGoes | Messages/recv_messages.c:392-403 | whether nothing is sent, one neighbour gets it or all do, as an exact condition |
| RouteErrors.ForOneMeansOne | Messages/recv_messages.c:358-364 | with no address 0 among the precursors it is unicast if and only if one destination with one precursor is lost |
| RouteErrors.RerrIsShort | Messages/recv_messages.c:366-368 | no error sent on names more than 127 destinations |
| NoSilentLoss.EventHands | Messages/recv_messages.c:308-324 | a neighbour that is sent a reply for another destination is a precursor of that destination then |
| NoSilentLoss.RunCovers | Messages/send_messages.c:74-91 | along every run a neighbour stays a precursor of what it was handed while the entry lives |
| NoSilentLoss.NoSilentRouteLoss | Messages/recv_messages.c:351-403 | in every run, for every error of up to 255 pairs: when it takes away a route handed to a neighbour, the report of that loss is due, and the neighbour is told of the destination it was promised if and only if fewer than 128 reports are due or this is one of those from the 129th on |
| NoSilentLoss.ForwardingPromises | Messages/recv_messages.c:307-325 | passing a reply on hands the route to the next hop towards the originator |
| NetworkLoss.EventSendsShort | Messages/recv_messages.c:351-403 | no event sends an error of more than 127 pairs |
| NetworkLoss.EveryNeighbourIsTold | Messages/recv_messages.c:351-403 | in every run of a network whose users ask for addresses in play: when an error takes away a route that a node has handed to a neighbour, the neighbour is told of the destination it was promised, with the number received, however many reports are due |
| LossRuns.LosesAllReports | Messages/recv_messages.c:349-405 | it does happen: a run from the start of a node, with one request and 128 replies it passes on to a neighbour, after which an error that takes away all 128 promised routes leaves it silent |
| Freshness.EventFresh | Messages/recv_messages.c:80-103 | with the numbers for a node in one window, no step but a received error lowers a valid recorded number |
| Freshness.EventNotWorse | Messages/recv_messages.c:80-103 | no step but a received reply or error makes a record worse: on an equal number the hop count never grows |
| Freshness.ReplyMayWorsen | Messages/recv_messages.c:262-266 | within one window a reply makes the record of its destination worse if and only if it repeats the number with more hops; a hello never does, and no other record changes |
| Freshness.FreshnessGrows | Messages/recv_messages.c:262-293 | over any stretch of any run in which the entry stays, a valid recorded number does not go back |
| Freshness.ErrorLowersNumber | Messages/recv_messages.c:380 | a received error is the exception: its number is copied even when it is lower |
| NextHopIndex.EventIndexed | Messages/recv_messages.c:19-22 | every event keeps the index, its entries in their slots and its addresses in play |
| NextHopIndex.NextHopsAreIndexed | Messages/recv_messages.c:225-228 | until an entry is removed, every route through another node is in that node's list and no list has duplicates |
| InPlay.StepInPlay | Messages/send_messages.c:186-206 | as long as users ask for addresses in play, all messages of a network name such addresses and a reply without originator is a hello about its sender |
| InPlay.KernelsAgree | Messages/recv_messages.c:112-113 | so table and kernel agree at every node of every run of a network |
| InPlay.NextHopsAreIndexedEverywhere | Messages/recv_messages.c:225-228 | and so does the next-hop index, with no assumption about hellos, until an entry is removed |
| Lifetime.MinimalLifetimeRange | Messages/recv_messages.c:117 | the unsigned subtraction is exact if and only if the hop count is at most 70; within the diameter it lies in [2800, 5520] ms |
| Lifetime.ReverseRouteLives | Messages/recv_messages.c:114-121 | a reverse route lives for MinimalLifetime at least and loses at most a second of a longer life |
| Lifetime.RequestLives | Messages/recv_messages.c:10-171 | the same for the whole handler when the request comes through another node |
| Lifetime.DirectRequestLives | Messages/recv_messages.c:26-32 | a request straight from a known originator fixes the deadline at MinimalLifetime; the route loses more than a second if and only if it had more than 6520 ms left |
| NodeRuns.DirectRequestShortens | Messages/recv_messages.c:26-32 | it does happen: a node from its start hears a neighbour, loses the route when its timer is due and is to keep the entry for 15 s; the next request straight from the neighbour leaves it 5520 ms |
| Lifetime.DeliveredRequestLives | Messages/recv_messages.c:114-121 | in every run of the network under a clock that does not go back, the hop count is in range and a taken request leaves a route valid that long |
| Network.RequestsSent | Messages/recv_messages.c:158-169 | a node sends requests only by relaying one, with one hop more and one less to go, or from its own search, and always to all |
| Flood.StepFloods | Messages/recv_messages.c:158-169 | every step of the network keeps hops made plus hops left equal to the originator's TTL |
| Flood.FloodConservation | Messages/send_messages.c:219-243 | in every run every request sent has a hop left and its hops made and left add up to the TTL its originator sent it with, at most NET_DIAMETER; the 8-bit hop count never wraps |
| FloodTermination.ArrivalLightens | Messages/recv_messages.c:158-169 | what an arriving request causes weighs less than the request, by the sum of N^ttl |
| FloodTermination.FloodEnds | Messages/recv_messages.c:158-169 | in every run without new requests and duplication the number of deliveries is at most the weight of what is pending |
| LoopFreedom.RelayerKnows | Messages/recv_messages.c:57-110 | whoever passes a request on knows the way to its originator at least as well as the request says |
| LoopFreedom.HarmlessMeans | Messages/recv_messages.c:195-215 | a harmless hello (from a node without an entry, or with a number not newer than the valid one recorded, or with one not below it from a node that is its own next hop) makes no record worse and changes no route but one straight to its sender |
| LoopFreedom.StepLoopFree | Messages/recv_messages.c:57-110 | every step without reply, error or deletion, and with hellos only where they are harmless, keeps each next hop at the originator or strictly closer |
| LoopFreedom.WalkImproves | Messages/recv_messages.c:57-110 | along next hops every later node is strictly closer, and from a node with the highest number recorded the way is no longer than its hop count |
| LoopFreedom.ReverseRoutesAreLoopFree | Messages/recv_messages.c:57-110 | in every run of such steps following next hops from any node with a valid number meets no node twice, comes strictly closer with each node and ends at the originator |
| ForwardLoop.GratuitousReplyLoops | Messages/recv_messages.c:264 | a node that answers a request with a route through its sender reaches the originator through that sender, and its gratuitous reply turns the sender back to it if and only if the sender has no entry, has that next hop already or accepts the reply |
| LoopRuns.ReplyMakesLoop | Messages/recv_messages.c:262-293 | a run of seven nodes from their start, with replies but no hello, error or deletion, and never a step on a valid route past its deadline, that ends with two valid routes to a third node through each other |
| LoopRuns.HelloMakesLoop | Messages/recv_messages.c:199-209 | a run with one hello heard but no reply, error or deletion that ends so too: the hello, sent a second after its sender had its first active route, gives a node the newer number for a route through another |
| LoopRuns.DeletionMakesLoop | DataStructures/routing_table.c:140-147 | a run with deletions, each exactly when its timer is due, but no reply, hello or error that ends so too: a node takes back its own copy of an old request |
| Authority.StepAuthoritative | Messages/send_messages.c:43-51 | every step but an error, before rollover and without a request more than half a word behind its destination, keeps all numbers for a node at most its own |
| Authority.SequenceNumberAuthority | Messages/send_messages.c:194-210 | in every such run no number recorded or on the way for a node exceeds the node's own |
| Authority.DestinationAdvertisesNext | Messages/send_messages.c:43-51 | a destination that takes a request in such a state answers, with its old number plus one if and only if the request is at most half a word behind it, else with the number of the request |
| NodeRuns.NumberFallsBack | Messages/send_messages.c:43-51 | it does happen: a node from its start takes over greater numbers from requests, and falls back from 0x90000000 to 0 when it is asked with 0 |
| EndToEnd.RequestStepIsFresh | Messages/recv_messages.c:149-168 | a node that passes on or answers a request with a known number never lowers it, and keeps both addresses |
| EndToEnd.RequestPathIsFresh | Messages/recv_messages.c:167-168 | along any path a request takes its destination number never goes back |
| EndToEnd.ReplyPathCountsHops | Messages/recv_messages.c:241 | along any path back a reply changes in its hop count alone, which grows by one for each node, in 8 bits |
| EndToEnd.OriginatorAccepts | Messages/recv_messages.c:262-293 | an originator whose record has not changed takes the route of any reply with a number not older |
| EndToEnd.EndToEndFreshness | Messages/send_messages.c:43-51 | request, answer and reply together: an originator whose record has not changed ends up with a route whose number is at least the one it asked with, and whose hop count is that of the answer plus the hops back |
| OwnSearch.SearchEndsFresher | Messages/send_messages.c:186-256 | the same from the originator's own search, over every run before, during and after it without errors and with the entry in place: whatever it has heard meanwhile, when an answer to any of its requests arrives it has a valid route with a number at least the one recorded when the search began, and it is the route of the answer unless a greater number is known by then |

## Left out

- The branch of `forwarded_messages` that repairs a broken link (`AODV.c:223-301`): it locks mutexes it already holds and its pair indices skip a slot; a data packet that would take it is not an event of the model.
- The MANET testbed library (packet queue, sending, kernel routes): it is not part of this model; sends are emitted messages, routes a set.
- Threads as such: asynchronous cancellation in the middle of a handler, use after free, busy waits, leaks, and a sleep refused because of 10^9 nanoseconds.
- What `active_routes` counts after a loss: the mark of an entry is never cleared, so a route that comes back is not counted again. ActiveRoutes says what each event does to the counter.
- Loop freedom of forward routes, and of reverse routes after deletions or after hellos that bring a new number for a route through another node: false, see LoopRuns. Loop freedom of reverse routes after received errors is not claimed.
- The gateway of a kernel route: `recv_rreq` and `recv_rrep` install the sender even when they keep the old next hop.
- `move_routing_entry`, `free_linked_list`, `get_ms_difference` and `add_time`, which no handler relies on, and the checks for lists and entries that are null.
- The variadic `generate_rerr_message`: a report of a single pair, modelled as the message it builds.
- RREP_ACK, multicast repair and prefix sizes: not implemented by the source. Big-endian layouts: dispatch reads byte 3.
- `command_infrastructure.c`, the evaluation scripts, debug printing and timing reports.
- RoutingDaemon.Daemon.SendRreqThread: states the effect of a thread nobody cancels and no event interrupts; interleavings are covered turn by turn by RunThread and the theorems of SearchRun.
- RoutingDaemon.RoutingEntry.BecomeNeighbour: keeps precursor and next-hop lists as sequences; the linked list that holds them is proved apart, in LinkedLists.
- RoutingDaemon.Daemon.ForwardedMessages: excludes the link-break branch by its precondition.
- RoutingDaemon.Daemon.Handle: has no event for that branch.
- RoutingDaemon.Daemon.IncomingControlMessage: drops a payload shorter than its type needs, where the source reads past its end.
- SearchRun.PlanShape: does not model 32-bit wrap-around of hop count plus TTL_INCREMENT, because hop counts come from 8-bit header fields.
- NextHopIndex.NextHopsAreIndexed: assumes of a single node that the hellos it receives are sent by their own subject; InPlay.NextHopsAreIndexedEverywhere proves it of networks.
