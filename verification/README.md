# Verification of the pthread labs and the caching proxy

Dafny models, with proofs, of the concurrent protocols and incremental parsers in this
repository. `dafny verify dfyconfig.toml` checks everything. Thread counts, loop counts, list
lengths and queue capacities are parameters everywhere. Of the constants in the `enum`s two are
used, with their values: the size of one read and the number of hash buckets.

How the two kinds of code are modelled:

* **Threads.** A program is a step system: a `State` value with one phase per thread, an `Event`
  datatype, `Enabled`, `Apply`, `Legal` (runs) and `After`. A step is what a thread does between
  two synchronisation calls. Mutexes, condition variables and semaphores have their POSIX
  meaning: a signal wakes some waiter if there is one, a broadcast wakes all, a woken thread must
  take the mutex again and can be overtaken, and a wait may return spuriously. Results are about
  all runs, for any number of threads.
* **Sequential code over mutable data** (ring buffer, vector, hash map, connection context) is a
  class with the fields of the C struct. Each method is tied to a function on values; the hard
  properties are proved of those functions and of runs of them. `str_comp` and `find_header` are
  loops with invariants.

The modules, by component:

| component | modules |
|---|---|
| bounded blocking queue | `BlockingQueue` (ring buffer and class), `QueueProtocol` (mutex and two condition variables), `QueueCompletion` (counted clients) |
| concurrent list sorter | `StrComp`, `ListSorter` (lock coupling), `ListSorting`, `ListWalks`, `ListStatus` (the whole program), `ListCalls` (how long its calls take, what they leave) |
| philosophers | `Philosophers` (trylock and condition variable), `OrderedPhilosophers`, `Table` |
| ping-pong | `SemaphorePingPong` (abstract machine), `TwoMonitors`, `OneMonitor` (both refine it) |
| proxy | `CStrings`, `Numbers` (strtol), `HttpHead`, `HttpHeadPrint`, `ChunkScanner`, `Connection`, `ConnectionRuns`, `ConnectionEvents` (what one event does), `Framing`, `Completion`, `HandlerContext` (the C struct and its steps) |
| response cache | `Vector`, `HashMap`, `ResponseCache` |
| shared | `Sums`, `Locks`, `Wrappers` |

## What the proofs show about the code

Where the code does not do what one might expect of it, the code was kept and the exact behaviour
proved.

* `task18.c:137`: the loop runs while `is_end` is 1, and `is_end` is never 1 in a reachable state
  (`ListWalks.IsEndIsNeverTrue`), so a walk stops after its first pair. A call returns with the
  first two strings in order and all else as it was (`AsWrittenReturns`); so the list is sorted on
  return if and only if nothing but the first pair was out of order (`AsWrittenSortsIff`), and
  three strings pushed in ascending order stay unsorted (`DescendingStaysUnsorted`). The first two
  are proved of the sorters and, in `ListCalls`, of the whole program. In the model
  going on is a free choice wherever a further node exists, so the other results cover the code as
  written and the walk that was plainly meant; for the latter, a returning sorter leaves the list
  sorted.
* `task18.c:115` with an empty list: `count - 1` is 2^64 - 1 and `base->next` is NULL
  (`ListStatus.EmptyListIsFatal`). A sorter that calls before the first string comes gets there
  (`EmptyListIsReached`). Over all runs from `list_init`, or from any list at rest, the program
  stops with a call unfinished if and only if a sorter has been let in while the list is empty
  (`StopsIffLetIntoEmptyList`).
* `task12.c`: `main` and a worker wait on the same flag during start-up. A spurious wakeup that
  takes `main`'s flag deadlocks the program; `Calm` is the condition that rules these wakeups out
  and no others. Without them every run, with any number of other spurious wakeups, refines the
  semaphore machine.
* `task12_.c`: forwarding a signal never loses it, but two threads can forward it to each other
  for ever while the third sleeps, without a spurious wakeup (`ForwardingCanCycle`, reached in
  `CycleIsReached`). Nothing else makes a run long: 10 n + 18 steps, and four more for each
  spurious wakeup and each forwarded signal (`RunsAreBounded`). The runs without spurious wakeups
  are bounded if and only if there are no rounds to play (`RunsEndIffNoRounds`).
* The queue with capacity 0 blocks for ever. Every run completes if and only if there is nothing to
  do, or the capacity is positive and the puts exceed the takes by nothing to a queue full
  (`CompletionNeedsCapacity`); where the other runs stop is in `StuckRunsDeliverAll`.
* The proxy takes Content-Length before Transfer-Encoding and looks for a body behind every status
  line, against section 3.3.3 of RFC 7230; `Content-Length: -1` selects the chunk scanner. For a
  response with a status of 1xx, 204 or 304 the two rules frame the same bodies if and only if it
  has a Content-Length of 0; for any other, if and only if there is no Content-Length, or it reads
  as -1 exactly when there is a Transfer-Encoding (`Framing.FramingIsThatOfTheRfcIff`; responses on
  which they differ are in `BothHeadersDisagree` and `NoBodyDisagrees`).
* It tests the body length for equality, so a response of which more has come than was announced
  is never completed (`OverreadIsNeverHandled`). `OverreadIffExtraBytes` says exactly when a
  connection is in that state, and `Completion.OverreadIsReached` that any bytes behind a sized
  response can bring it there. A good response with nothing behind it can always be completed,
  from any point of any run (`CanBeCompleted`).
* While the client has all that has arrived of a body, its readiness makes the poll loop spin
  (`BodySpins`, reached in `SpinIsReached`); no other event leaves a connection as it is
  (`SpinsIff`). If `connect` succeeds at once, exactly more input from the client (or its end of
  stream) lets the connection go on (`ConnectedAtOnceWaitsForClient`, reached in
  `ConnectedAtOnceIsReached`).
* On a blank chunk size line `strtol` reads past the line end, so its value depends on what has
  been read; on every other line it does not (`ChunkScanner.SizeIsOfTheLineIffNotBlank`). A size
  line of -3 sets `chunk_size` to the -1 that stands for "at a size line". So a body is scanned alike
  in whatever pieces it is read if and only if the scanner passes no blank line that `strtol` reads
  past to a number, and no -3 with bytes behind it (`ReadsDoNotMatterIff`). Otherwise two runs on
  the same bytes can differ, even in whether the response is complete (`BlankLineDependsOnCut`,
  `Completion.CutMattersInRuns`). `Settled`, in the results on connections, is that condition; every
  good response meets it.
* When a response is complete, nothing of it has been sent and the first write to the client fails,
  the context is destroyed twice; in no other case is it (`ConnectionRuns.DestroyedTwiceIff`, reached
  in `Completion.DestroyedTwiceIsReached`).
* `hash_map_put` returns a pointer to storage it has just overwritten, so what the caller reads
  there is the new value, not the old one.
* `request_hash` is constant, and a request without a Host header equals nothing, itself included.

## Model

| member | source | states |
|---|---|---|
| BlockingQueue.SlotIsModular | task25_26/task26/blockingqueue_implementation.h:26-30 | the comparison-and-reset indices are arithmetic modulo the capacity: put_index = (take_index + count) mod capacity |
| BlockingQueue.StoreAppends | task25_26/task26/blockingqueue_implementation.h:68-72 | writing at put_index and wrapping keeps the ring well formed and appends to the FIFO |
| BlockingQueue.RemoveTakesOldest | task25_26/task26/blockingqueue_implementation.h:26-30 | reading at take_index and wrapping keeps the ring well formed and removes the oldest item |
| BlockingQueue.BoundedQueue.constructor | task25_26/task26/blockingqueue_implementation.h:85-107 | a new queue is empty and has the given capacity |
| BlockingQueue.BoundedQueue.Put | task25_26/task26/blockingqueue_implementation.h:56-72 | waits exactly when full; otherwise the contents gain the item at the end |
| BlockingQueue.BoundedQueue.Take | task25_26/task26/blockingqueue_implementation.h:15-30 | waits exactly when empty; otherwise returns the oldest item and keeps the rest in order |
| QueueProtocol.NoWakeupIsLost | task25_26/task26/blockingqueue_implementation.h:15-35 | in every reachable state with the mutex free, a consumer asleep on not_empty means every queued item has a woken consumer on its way, and dually for producers, with overtaking and spurious wakeups |
| QueueProtocol.RunsAreFifo | task25_26/task26/blockingqueue_implementation.h:56-79 | over every concurrent run the taken items followed by the buffer are the put items in critical-section order |
| QueueProtocol.ConsumersHoldWhatTheyTook | task25_26/task.c:103-111 | over every run what a consumer has received is, in order, what its own transfers took |
| QueueProtocol.ProducersPutWhatTheyHad | task25_26/task.c:77-83 | over every run what a producer was given is, in order, what its own transfers put followed by what it still has |
| QueueProtocol.ConsumersReceiveInOrder | task25_26/task26/blockingqueue_implementation.h:15-30 | with any number of consumers each receives its items in the order in which they were put |
| QueueProtocol.SingleConsumerReceivesAll | task25_26/task26/blockingqueue_implementation.h:15-30 | a single consumer has received, in order, all that was put but what is still queued, whatever the producers |
| QueueProtocol.SingleProducerPutsAll | task25_26/task26/blockingqueue_implementation.h:56-72 | a single producer has put, in order, all it was given but what it still has |
| QueueCompletion.RunsAreBounded | task25_26/task.c:77-117 | a run is bounded by an energy of its start plus three steps for each spurious wakeup, so spurious-free runs end |
| QueueCompletion.ItemsAreConserved | task25_26/task.c:68-103 | in every run each item is received, queued or still to be put exactly as often as it was given to producers |
| QueueCompletion.StuckRunsDeliverAll | task25_26/task.c:77-117 | a run that cannot go on, with capacity > 0 and any totals, has left over exactly the takes beyond the puts and the puts beyond the takes and the capacity; all threads have finished if and only if puts - takes is between 0 and the capacity; with equal totals each item was delivered exactly as often as it was given |
| QueueCompletion.CompletionNeedsCapacity | task25_26/task.c:106-114 | all maximal runs finish all threads if and only if there is nothing to do, or the capacity is positive and puts - takes is between 0 and the capacity |
| StrComp.StringCompare | tasks17_20/task18.c:75-99 | the loop computes the recursive comparison of unsigned bytes |
| StrComp.CompareMeans | tasks17_20/task18.c:75-99 | GREATER exactly if the second string is a proper prefix of the first or, at the first byte in which they differ, the first has the greater unsigned char; dually LESS |
| StrComp.Total | tasks17_20/task18.c:75-99 | any two strings are ordered one way or the other |
| StrComp.Transitive | tasks17_20/task18.c:75-99 | not-greater is transitive |
| StrComp.Antisymmetric | tasks17_20/task18.c:75-99 | swapping the arguments negates the result |
| StrComp.EqualIffSame | tasks17_20/task18.c:90-92 | EQ exactly for identical strings |
| StrComp.SwapRemovesOne | tasks17_20/task18.c:126-131 | exchanging neighbours found GREATER lowers the number of inversions by exactly one |
| StrComp.NoInversionsIffSorted | tasks17_20/task18.c:126-131 | no inversions if and only if sorted |
| ListSorting.AlwaysOneChain | tasks17_20/task18.c:115-141 | under every interleaving of any number of sorters the list is one NULL-terminated chain through all nodes |
| ListSorting.ListedStep | tasks17_20/task18.c:122-131 | the three relinking assignments exchange two neighbours that compare GREATER and nothing else; other steps of a sorter leave the list alone |
| ListSorting.RunsOnlyRemoveInversions | tasks17_20/task18.c:115-141 | over any run of sorters the strings are permuted and each exchange lowers the inversions by one |
| ListSorting.WritersHoldTheLock | tasks17_20/task18.c:116-136 | a next field is written only by the holder of that node's mutex, or by an updater with no sorter inside |
| ListSorting.WindowsAreOrdered | tasks17_20/task18.c:116-122 | the stretches of nodes the sorters hold are disjoint and ordered along the list |
| ListSorting.NoOvertaking | tasks17_20/task18.c:116-136 | a sorter ahead of another stays ahead |
| ListSorting.WantedIsStable | tasks17_20/task18.c:118-130 | exchanges by others do not change which node a waiting sorter must lock next |
| ListSorting.NoDeadlock | tasks17_20/task18.c:116-140 | while a sorter is inside, some sorter inside can step |
| ListSorting.OnlyLocksStop | tasks17_20/task18.c:116-136 | no sorter inside ever follows NULL; one that cannot step waits for a node whose lock another sorter holds |
| ListSorting.RunsAreBounded | tasks17_20/task18.c:115-141 | under every interleaving, k calls of sort_list on a list of n nodes, head included, end within k ((n - 2)(4 n + 1) + 2) steps |
| ListWalks.IsEndIsNeverTrue | tasks17_20/task18.c:133-137 | with the loop condition as written no reachable sorter repeats the loop |
| ListWalks.AsWrittenOnlyTheFirstPairMoves | tasks17_20/task18.c:121-137 | as written, over every run the list is the one found or that one with its first pair put in order, and the latter once any sorter inside has compared |
| ListWalks.AsWrittenReturns | tasks17_20/task18.c:115-141 | as written, whenever a call is about to return, whatever other sorters do, the list is the one found with its first two strings in order |
| ListWalks.AsWrittenSortsIff | tasks17_20/task18.c:115-141 | as written, every call returns with a sorted list if and only if nothing but the first pair was out of order |
| ListWalks.DescendingStaysUnsorted | tasks17_20/task18.c:115-141 | from list_init, three strings pushed in ascending order are unsorted when sort_list returns |
| ListWalks.ReturningSorterLeavesSorted | tasks17_20/task18.c:115-141 | if walks go to the end, whenever any of the concurrent sorters is about to return the list is sorted |
| ListStatus.StatusTellsWhoIsInside | tasks17_20/task18.c:103-113 | over every run from list_init or any list at rest, for any number of sorters and updaters, sorting_count, status and count agree with who is inside and with the list |
| ListStatus.CountIsFrozenWhileSorting | tasks17_20/task18.c:155-167 | while SORTING nobody links a node or changes count |
| ListStatus.NoLostWakeup | tasks17_20/task18.c:47-64 | with the mutex free, a sleeping thread implies status is not FREE and someone inside will broadcast |
| ListStatus.UpdatersAreAlone | tasks17_20/task18.c:163-166 | a node is linked in only while every sorter is outside its walk |
| ListStatus.NoDeadlock | tasks17_20/task18.c:103-173 | while a call has not returned some thread can step without a spurious wakeup, unless a sorter has been let into the empty list |
| ListStatus.StopsIffLetIntoEmptyList | tasks17_20/task18.c:103-149 | over every run from list_init or any list at rest, with a call unfinished: nothing but new calls and spurious wakeups is possible if and only if a sorter has been let in while the list is empty |
| ListStatus.FreshListIsInit | tasks17_20/task18.c:35-44 | what list_init leaves is one of the states from which these results start |
| ListStatus.EmptyListIsFatal | tasks17_20/task18.c:115-118 | with an empty list a sorter that was let in has 2^64 - 1 passes to make and NULL to follow in the first; otherwise count - 1 passes and a node |
| ListStatus.EmptyListIsReached | tasks17_20/task18.c:103-113 | from list_init, the first call of sort_list gets there if it comes before the first string, and nothing can go on |
| ListStatus.SortIsSorted | tasks17_20/task18.c:103-149 | in the whole program, if walks go to the end, the list is sorted for every sort_list call from its last pass until it has reset the status |
| ListCalls.RunsAreBounded | tasks17_20/task18.c:46-173 | every run of the whole program is bounded by its calls and its spurious wakeups: per call 2 n + 10 steps among n threads and (m - 2)(4 m + 1) + 2 on at most m nodes, and three per spurious wakeup |
| ListCalls.AsWrittenReturns | tasks17_20/task18.c:103-149 | in the whole program as written, a sorter from its last pass until it has reset the status finds the list of when the status was last not SORTING, with its first pair in order |
| ListCalls.AsWrittenSortsIff | tasks17_20/task18.c:103-149 | as written, while nothing is pushed, every sort_list call of any number of threads ends with a sorted list if and only if nothing but the first pair was out of order |
| ListCalls.OnlyLinksAndExchangesChange | tasks17_20/task18.c:122-167 | in the whole program linking puts the string of the call in front, an exchange of a pair out of order removes one inversion, and no other event changes the list |
| ListCalls.ThreadsDoWhatTheyCall | tasks17_20/task18.c:46-173 | a thread stays in the call it has begun, with the string it was given |
| ListCalls.PushPutsInFront | tasks17_20/task18.c:152-173 | with nobody else at work list_push_front returns with its string in front, count one more and the list at rest |
| ListCalls.PrintChangesNothing | tasks17_20/task18.c:46-66 | with nobody else at work list_print returns with everything as it was |
| Table.AtMostHalf | task10.c:28-36 | of n philosophers at most n/2 hold both their forks |
| Table.ForksAreBeside | task22.c:31-38 | the forks of philosopher p are numbers p and (p + 1) mod n |
| Table.SharedForkIffNeighbours | task22.c:31-38 | two philosophers share a fork if and only if they sit side by side |
| Philosophers.NoForgottenSleeper | task22.c:46-77 | in every reachable state a sleeping philosopher has another one between taking both forks and its broadcast |
| Philosophers.NoDeadlock | task22.c:41-78 | in every reachable state with someone unfinished, someone unfinished can step without a spurious wakeup |
| Philosophers.EatersHoldTheirForks | task22.c:48-66 | eaters hold both their forks, so no two share one or sit side by side, and at most half eat |
| Philosophers.CanEatTogetherIff | task22.c:41-66 | a set of philosophers with something to eat can be brought to eat at the same time if and only if no two of them sit side by side |
| Philosophers.MealsAreEaten | task22.c:41-78 | over every run the dinners ended and those owed are those a philosopher came for; finished, it has had all of them |
| Philosophers.RunsAreBounded | task22.c:41-78 | a run is bounded by an energy of its start plus six steps for each spurious wakeup |
| OrderedPhilosophers.NoDeadlock | task10.c:29-46 | taking the lower-numbered fork first, in every reachable state with someone unfinished someone unfinished can step |
| OrderedPhilosophers.EatersAreApart | task10.c:40-45 | two eaters never share a fork or sit side by side, and at most half the table eats |
| OrderedPhilosophers.CanEatTogetherIff | task10.c:38-45 | a set of philosophers with something to eat can be brought to eat at the same time if and only if no two of them sit side by side |
| OrderedPhilosophers.EveryRunServesAll | task10.c:38-46 | every run that cannot be extended has served all rounds in exactly four steps each |
| SemaphorePingPong.OutputAlternates | task14.c:39-43 | the output is always a prefix of (+ -)^n, and all of it when the run cannot go on |
| TwoMonitors.RunRefines | task12.c:64-77 | every calm run, start-up included, is a run of the semaphore machine |
| TwoMonitors.OutputAlternates | task12.c:101-108 | the output of a calm run is always a prefix of (+ -)^n |
| TwoMonitors.NeverBothWant | task12.c:102-107 | over calm runs the two threads never each hold their own mutex while blocked on the other's |
| TwoMonitors.NoDeadlock | task12.c:98-109 | in every state that a calm run reaches, while a thread is unfinished some thread can step without a spurious wakeup; at the end all has been printed |
| TwoMonitors.RunsAreBounded | task12.c:98-143 | every calm run ends: 16 n + 23 steps and three more for each spurious wakeup |
| TwoMonitors.StumblingDeadlocks | task12.c:128-143 | each wakeup that Calm rules out leads to a state from which the program deadlocks |
| TwoMonitors.HandshakeIsReached | task12.c:128-139 | a spurious wakeup of that kind is possible for every n > 0 |
| OneMonitor.SignalsAreNotLost | task12_.c:56-77 | with the mutex free, a value pending for a live target leaves some thread woken, whichever thread the signals reached |
| OneMonitor.ValuesAreNotOverwritten | task12_.c:68-76 | a pending value changes only by its target taking it |
| OneMonitor.RunRefines | task12_.c:94-112 | every run, start-up and spurious wakeups included, is a run of the semaphore machine |
| OneMonitor.OutputAlternates | task12_.c:103-108 | the output is always a prefix of (+ -)^n |
| OneMonitor.NoDeadlock | task12_.c:129-138 | either all threads are finished and everything is printed, or some thread can step without a spurious wakeup |
| OneMonitor.ForwardingCanCycle | task12_.c:58-67 | two threads can forward a signal to each other for ever |
| OneMonitor.CycleIsReached | task12_.c:129-135 | that situation is reachable for every n > 0 |
| OneMonitor.RunsAreBounded | task12_.c:56-138 | every run has at most 10 n + 18 steps, plus four for each spurious wakeup and four for each forwarded signal |
| OneMonitor.RunsEndIffNoRounds | task12_.c:58-67 | the runs without spurious wakeups have a common bound if and only if n = 0 |
| HttpHead.ReadsDoNotMatter | proxy/http_header_parser.c:40-146 | any cutting of a byte stream into reads gives the start line, headers, position and verdict of reading it at once |
| HttpHead.HeadResumes | proxy/connection_handler.c:126-202 | stopping and resuming after more input equals having had it all along, from any point, and a verdict stands |
| HttpHead.FailedIff | proxy/http_header_parser.c:40-90 | on bytes without NUL a head is found malformed if and only if nothing that could follow would make it whole |
| HttpHead.NulEndsTheHead | proxy/http_header_parser.c:40-146 | nothing from the first NUL on is ever seen of a head |
| HttpHead.FindHeader | proxy/http_header_parser.c:92-102 | the index of the first header of that name, or the number of headers |
| Connection.HasIffNamed | proxy/connection_handler.c:232-316 | Host, Content-Length and Transfer-Encoding count as present if and only if some header has exactly that name |
| HttpHeadPrint.PrintThenParse | proxy/http_header_parser.c:40-90 | a printed head parses to the same fields, stopping right after the blank line |
| HttpHeadPrint.ParseThenPrint | proxy/http_header_parser.c:40-90 | printing what was parsed gives back the very bytes consumed |
| HttpHeadPrint.RoundTripIffGood | proxy/http_header_parser.c:40-146 | a head survives printing and parsing if and only if its fields are free of the separators searched for in them |
| ChunkScanner.ReadsDoNotMatterIff | proxy/connection_handler.c:356-391 | a body is scanned alike however it is cut into reads, if and only if the scanner passes no blank size line that strtol reads past to a number and no size line of -3 with bytes behind it |
| ChunkScanner.BlankLineDependsOnCut | proxy/connection_handler.c:359-384 | behind any bytes, an empty line, a 5 and a CR are part of a chunk of five when read at once, and the end of the body when cut after the empty line |
| ChunkScanner.EncodedBodyIsScanned | proxy/connection_handler.c:356-391 | on the chunked encoding of any chunk list the scanner reports the end, with sppos right behind the body, whatever follows and however it is cut |
| ChunkScanner.EndIsReportedExactly | proxy/connection_handler.c:373-384 | on a prefix of the encoding it reports the end exactly when the prefix is all of it |
| ChunkScanner.HexIsGood | proxy/connection_handler.c:364 | every size printed in hexadecimal, in small letters or capitals, with an extension behind it or without, is read back as that size |
| ChunkScanner.LineDecides | proxy/connection_handler.c:358-390 | what the scanner does behind any size line, by the number it reads as: 0 ends the body, v passes over v bytes and a CRLF (v = -1 and -2 too), anything smaller or too large passes over all that is there |
| ChunkScanner.HugeSizeNeverEnds | proxy/connection_handler.c:368-373 | once set to a size below -1 the scanner passes over all that comes |
| Numbers.StrtolReads | proxy/connection_handler.c:320-364 | white space, sign, digits, anything else: strtol in base 10 and 16 returns the positional value with that sign, cut to the range of long; without digits 0 |
| Numbers.StrtolReadsPrefixed | proxy/connection_handler.c:364 | likewise behind 0x |
| Numbers.PrintedIsRead | proxy/connection_handler.c:320-364 | every number up to LONG_MAX, printed in decimal or hexadecimal, is read back as itself |
| CStrings.CStrIsCutAtNul | proxy/connection_handler.c:120 | a char pointer sees exactly the bytes before the first NUL |
| ChunkScanner.SizeIsOfTheLineIffNotBlank | proxy/connection_handler.c:359-364 | strtol gives the same size whatever follows the size line if and only if the line is not blank |
| ConnectionRuns.AssertsHold | proxy/connection_handler.c:449-492 | over all runs every event that passes the dispatch guard meets the ASSERT of each step it runs, and step, connection state, descriptors and event masks satisfy their joint invariant |
| ConnectionRuns.StepsNeverGoBack | proxy/connection_handler.c:449-492 | over any continuation of any run handling_step never goes back |
| ConnectionRuns.RelayIsTransparent | proxy/connection_handler.c:249-264 | the server gets a prefix of the client's bytes, all of them before it is read from, and none before they are a whole GET request with Host; the client gets a prefix of the server's bytes |
| ConnectionRuns.HandledMeansDelivered | proxy/connection_handler.c:410-443 | HANDLED means request and response were delivered completely and the cached copy is the response; if the body is settled (`ReadsDoNotMatterIff`), the framing rule held |
| ConnectionRuns.EndIsExact | proxy/connection_handler.c:346-384 | a response with a settled body counts as complete if and only if the framing rule holds of the bytes received |
| ConnectionRuns.ReadBoundariesDoNotMatter | proxy/connection_handler.c:267-393 | two connections that have received the same bytes in different pieces have parsed the same heads and, if the body is settled, are at the same step and body position |
| ConnectionEvents.EventIsTold | proxy/connection_handler.c:125-443 | over all runs, an event adds to each stream exactly the next min(ready, 10000) bytes read or min(room, rest) bytes written and nothing else; it ends the connection if and only if a read brings nothing or makes a malformed or unusable head, a write takes nothing, or socket, connect or SO_ERROR fails; otherwise the connection is at the step that the bytes read and written determine |
| ConnectionRuns.DestroyedTwiceIff | proxy/connection_handler.c:396-443 | over all runs, an event makes destroy_context run a second time if and only if the response is complete, nothing of it has been sent, and the write fails |
| Framing.RequestIsRead | proxy/connection_handler.c:125-202 | a printed request is taken as complete exactly at its last byte, with the fields that were printed |
| Framing.ResponseIsRelayed | proxy/connection_handler.c:288-393 | a printed response, sized or chunked, is complete exactly at its last byte, and HANDLED means the client has all of it |
| Framing.PrintedLengthIsGood | proxy/connection_handler.c:315-321 | a response whose first Content-Length is the length of its body printed in decimal is such a sized response |
| Framing.FramingIsThatOfTheRfcIff | proxy/connection_handler.c:315-321 | the code's framing of every body is that of section 3.3.3 of RFC 7230 if and only if, for a status of 1xx, 204 or 304, Content-Length is 0; for others, there is no Content-Length, or a Transfer-Encoding is there exactly when the Content-Length reads as -1 |
| Framing.BothHeadersDisagree | proxy/connection_handler.c:315-321 | a response with both headers that is whole by section 3.3.3 and not by the code |
| Framing.NoBodyDisagrees | proxy/connection_handler.c:315-347 | a 304 response with a Content-Length of 7 and no body, which is whole by section 3.3.3 and not by the code |
| Framing.OverreadIffExtraBytes | proxy/connection_handler.c:346-347 | a live connection is overread exactly when a Content-Length decides and more bytes of body have come |
| Framing.OverreadIsNeverHandled | proxy/connection_handler.c:346-347 | from there no run completes the response |
| Framing.ConnectedAtOnceWaitsForClient | proxy/connection_handler.c:236-238 | when connect succeeds at once exactly client input lets the connection go on |
| Framing.SpinsIff | proxy/connection_handler.c:396-407 | an event that passes the guard leaves the connection as it is if and only if it is the client's readiness while it has all that has come of the body |
| Framing.BodySpins | proxy/connection_handler.c:396-407 | with nothing to send, readiness of the client passes the guard and changes nothing |
| Completion.CanBeCompleted | proxy/connection_handler.c:125-443 | from any live point of any run, with any cutting so far, a good request and a good response can be brought to HANDLED, delivered in full |
| Completion.OverreadIsReached | proxy/connection_handler.c:346-347 | any good request and sized response with anything behind it have a run that overreads |
| Completion.SpinIsReached | proxy/connection_handler.c:396-407 | any good request and response with a body have a run to the state in which the loop spins |
| Completion.ConnectedAtOnceIsReached | proxy/connection_handler.c:236-238 | any good request has a run to the state that waits for the client |
| Completion.CutMattersInRuns | proxy/connection_handler.c:356-391 | with any good request and any head that announces chunks there are two runs in which the same bytes have come, and the response is complete in one of them only |
| Completion.DestroyedTwiceIsReached | proxy/connection_handler.c:396-443 | any good request and response have a run, with a client to which nothing can be written, that destroys the context twice |
| HandlerContext.SearchHeader | proxy/http_header_parser.c:92-102 | the loop finds the first header of that name |
| HandlerContext.Context.constructor | proxy/connection_handler.c:21-40 | a new context is the initial connection and satisfies the invariant |
| HandlerContext.Context.ParseRequestHeaders | proxy/connection_handler.c:161-180 | the loop over parse_next_header leaves headers and cppos as the recursive head parser does |
| HandlerContext.Context.ScanChunks | proxy/connection_handler.c:357-391 | the loop over chunks, on every size line, leaves sppos, chunk_size and chunk_read as the recursive scanner does |
| HandlerContext.Context.ConnectStep | proxy/connection_handler.c:205-246 | the step in place is the step function of the connection |
| HandlerContext.Context.DialHost | proxy/connection_handler.c:229-245 | likewise for the half after socket(): no Host, or a refused connection, destroys the context |
| HandlerContext.Context.SendingReqStep | proxy/connection_handler.c:249-264 | likewise, with its ASSERT proved |
| HandlerContext.Context.ScanRespBody | proxy/connection_handler.c:346-392 | likewise |
| HandlerContext.Context.SendRespInReceiving | proxy/connection_handler.c:396-407 | likewise, with its ASSERT proved |
| HandlerContext.Context.Handle | proxy/connection_handler.c:448-492 | one call of handle is one step of the connection, all ASSERTs hold, and the invariant is kept |
| Vector.GrownToIsEnough | proxy/cvector_impl.h:50-54 | growth ends with enough room, at less than twice what was needed |
| Vector.Vector.ForcedAlloc | proxy/cvector_impl.h:28-38 | the capacity becomes 2 c + 1 and the contents stay |
| Vector.Vector.Alloc2 | proxy/cvector_impl.h:50-54 | the growth loop terminates with room for cnt elements and the contents unchanged |
| Vector.Vector.PushBack | proxy/cvector_impl.h:57-62 | the contents gain the element at the end |
| Vector.Vector.Get | proxy/cvector_impl.h:7-11 | the element at the index |
| Vector.ReadToVchar | proxy/connection_handler.c:109-122 | appends what was read, stays within the allocation and terminates it with NUL |
| Vector.PointerSeesContents | proxy/connection_handler.c:120 | a char pointer into a terminated buffer sees its contents and nothing of the spare room |
| HashMap.LastIsMap | proxy/hash_map.h:23-30 | for equality proper the history of puts is a finite map |
| HashMap.StoredIsFound | proxy/hash_map.c:33-45 | storing into a bucket changes what equal keys find and nothing else |
| HashMap.StoredHasNoTwoEqual | proxy/hash_map.c:33-45 | a bucket never holds two equal keys |
| HashMap.PlacedRepresents | proxy/hash_map.c:23-47 | after a put all buckets answer as the extended history does |
| HashMap.Map.constructor | proxy/hash_map.c:11-20 | an empty map |
| HashMap.Map.Put | proxy/hash_map.c:23-47 | the history gains the pair; the result is NULL for a new key and otherwise leads to the new value |
| HashMap.Map.Get | proxy/hash_map.c:49-65 | the value last put under an equal key, or NULL |
| ResponseCache.KeysAreUsable | proxy/proxy.c:26-42 | request_equals is symmetric and transitive and request_hash respects it |
| ResponseCache.EqualToItselfIffHost | proxy/proxy.c:34-38 | a request equals itself if and only if it has a Host header |
| ResponseCache.NoHostIsNeverFound | proxy/proxy.c:34-38 | what is put under a request without Host can never be got |
| ResponseCache.PutChangesTheSameRequest | proxy/proxy.c:34-42 | a put is found by exactly the requests with the same type, uri, version and first Host; every other lookup finds what it found before |
| ResponseCache.CachedResponseIsFound | proxy/connection_handler.c:70-97 | whatever the cache holds, after cache() a lookup with the request gives exactly the bytes the server sent |

## Left out

- TwoMonitors.RunRefines: calm runs only; the spurious wakeups this excludes deadlock the program, each of them (`StumblingDeadlocks`), so the restriction is exact.
- QueueProtocol.NoWakeupIsLost: runs contain put and take only; `_drop`, `_destroy` and the branches on their flags are not modelled, because `_init` clears both flags, put and take never set them, and drop does not complete a shutdown protocol.
- QueueCompletion.StuckRunsDeliverAll: the clients call put and take directly; the `CEM` wrappers, which take the success code 1 for a failure, are not modelled.
- ChunkScanner.ReadsDoNotMatterIff: when a size line reads as more than LONG_MAX - 2, adding 2 overflows a `long`, which C leaves undefined; the model wraps around. Texts are shorter than 2^64 - 1 bytes.
- Framing.FramingIsThatOfTheRfcIff: which header decides is compared, for responses to GET; what RFC 7230 says of transfer codings other than chunked, of ill-formed lengths and of ill-formed chunks is not. A response with neither header, which ends where the server closes the connection (item 7 of section 3.3.3), the code rejects; it is taken as whole by neither rule.
- HandlerContext.Context.Handle: the buffers are strings that reads append to; growth of the vectors behind them is in `Vector`, and the two are not joined.
- HashMap.Map.Put: keys and values are held by value; who owns and frees the pointers is not modelled. Buckets are sequences; `Vector` shows that the vector behind a bucket is one.
- Sockets, `poll`, `getsockopt`, name lookup, printing, sleeping and `malloc` failure: outcomes of system calls are free choices, the rest is omitted.
- The context table in `proxy/proxy.c` (accept, `find_context`, shift-delete): one connection, one event at a time.
- `response.body`, which is written once and never read, and the disabled CACHED and KEEP_ALIVE blocks.
- Termination of a proxied connection: it depends on the peers, and the poll loop may spin (`BodySpins`); that it can be brought to its end is `CanBeCompleted`.
- `_assign`, `_back`, `_pop_back`, `_remove`, `_free` and `_free_ptr` of the vector: unused by the modelled code or about ownership only.
- `tasks17_20/task17.c`, `tasks17_20/task20.c`, `task9.c`, `http/28.c`, `http/30.c`, `proxy/trash`: other programs, some of which do not compile.
- `task2.c` to `task5.c`, `task8.c`, `task16/task16a.c`: would only add easy members.
