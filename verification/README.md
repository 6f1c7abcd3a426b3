# A verified model of the reactor library's queue, timers, parsers and MQTT broker

This project models the parts of the repository that keep the most state, and
proves what each of them is for. `dafny verify dfyconfig.toml` checks all of it.

**The lock-free queue** (`Spsc*.dfy`, `PowersOfTwo.dfy`,
`QueueConstruction.dfy`, `BlockingQueue.dfy`). `SpscQueue` is a transition system with one step for each
shared read or write of the producer and of the consumer, over a memory of ring
blocks with their shadow copies of `front` and `tail`. Reads of raw storage,
writes over live elements, wild pointers and failing assertions lead to an abort
state. `SpscInvariant` states the invariant, `SpscProducer` and `SpscConsumer`
prove it for every step, and `SpscTheorems` shows that every interleaving is a
run of an atomic queue. `SpscProgress` shows that every call returns after few
moves of its own, and with what. `BlockingQueue` puts the semaphore around that
machine, again step by step, and `BlockingAnswers` says what its calls answer.

**The timing wheel and its events** (`IntrusiveLists.dfy`, `TimerSpec.dfy`,
`TimerScript.dfy`, `TimerNamed.dfy`, `WheelPlacement.dfy`, `TimingWheel.dfy`,
`EventHistory.dfy`, `TimerManager.dfy`, `WrappedClocks.dfy`). The lists are `next` and `prev`
pointers; the wheel is a class whose methods relink them. What callbacks do is a
script that may add, delete, modify or destroy any node. The specification is a
map from nodes to due ticks; the wheel's log of events is always a legal trace of
it, and `TimerScript` says exactly which events an operation, a callback and a
run of ticks add to it, and `TimerNamed` what becomes of a node that callbacks
name. The events of the manager have a history of starts, stops
and calls in the same way. Ticks are counted without wrapping in ghost state and
modulo 2^32 in the fields; `WrappedClocks` is about milliseconds that wrap.

**The HTTP parser** (`Http*.dfy`). `HttpStep` is one look at one byte, state by
state; `HttpExecute` is the loop over a buffer with its marks; `HttpReference`
is the parser fed one byte at a time. What the application is told is compared
as a *story*, in which adjacent pieces of the same data are joined.
`HttpMethods`, `HttpUrls`, `HttpFields`, `HttpLines`, `HttpStarts`,
`HttpHeaders`, `HttpBody` and `HttpChunks` read the parts of a message,
`HttpMessage` whole requests and responses and whole connections of them, and
`HttpRefusals` is about input that is not taken. Both values of `HTTP_PARSER_STRICT` are covered; whether
`on_headers_complete` says that there is no body is a parameter.

**MQTT** (`Mqtt*.dfy`). Remaining lengths, the packet cursor, encoders and
decoders, the receive buffer with its framing loop, and the sessions,
subscriptions and queues of the broker.

**XML** (`Xml*.dfy`). Escaping, in-place decoding, the recursive parser and the
compact printer. `XmlMarkup` is a grammar of documents in which white space,
quotes and the form of tags are free; the parser accepts exactly these.

Where the code and its documentation differ, the model follows the code:
`remain_length` shifts every byte after the first by 7 only; the table of hex
digits reads bytes from 128 on as the digit 0; the check for an overflowing
Content-Length misses overflows, its digits may have spaces
among them, and a folded line of it replaces the number read before; unsubscribing leaves a session's own list
of topics alone; a closing tag at the top of an XML document ends it silently, and `</a/>` is an
element; a status line that ends in a bare line feed is not notified.

## Model

| member | source | states |
|---|---|---|
| SpscBlocks.PublishElement | include/common/readerwriterqueue.h:428-441 | storing the new tail turns the element already built behind it into the last element of the block, and changes nothing else |
| SpscBlocks.ReleaseElement | include/common/readerwriterqueue.h:217-227 | storing the new front drops exactly the oldest element of the block, whose slot is raw by then |
| SpscProducer.NextIsFront | include/common/readerwriterqueue.h:444-448 | the block after the tail block is the front block exactly when every block of the ring is in use |
| SpscProducer.FullRing | include/common/readerwriterqueue.h:81-88 | a full tail block just before the front block means that the queue holds at least maxSize elements, for one block or many and after any growth |
| SpscProducer.NextIsVacant | include/common/readerwriterqueue.h:444-466 | a block after the tail block that is not the front block is empty, so its front and tail agree and the assertion in inner_enqueue holds |
| SpscProducer.ProducerKeepsInv | include/common/readerwriterqueue.h:415-509 | every step of inner_enqueue, with or without memory, keeps the invariant of the shared memory and of both threads |
| SpscConsumer.NextHasElement | include/common/readerwriterqueue.h:242-254 | when the tail block is further on, the block after the front block is not empty, so the assertion in try_dequeue, peek and pop holds |
| SpscConsumer.FrontElement | include/common/readerwriterqueue.h:210-227 | the slot at the front of the block at which the queue begins holds the oldest element not yet dequeued |
| SpscConsumer.ConsumerKeepsInv | include/common/readerwriterqueue.h:187-391 | every step of try_dequeue, peek and pop, with stale shadows, keeps the invariant |
| SpscTheorems.RunKeepsGood | include/common/readerwriterqueue.h:187-509 | the invariant holds after every interleaving of the two threads |
| SpscTheorems.ProducerMoveRefines | include/common/readerwriterqueue.h:415-509 | each producer step is, seen from outside, nothing or one step of the atomic queue: append at the end, refuse after having seen it full, invoke or respond |
| SpscTheorems.ConsumerMoveRefines | include/common/readerwriterqueue.h:187-391 | each consumer step is, seen from outside, nothing or one step of the atomic queue: remove or show the first element, find it empty, invoke or respond |
| SpscTheorems.RunRefines | include/common/readerwriterqueue.h:187-509 | linearizability: every interleaving is a run of the atomic queue, each call taking effect in one step between its invocation and its response, and the calls and failing allocations are those of the moves |
| SpscTheorems.FifoAndSafe | include/common/readerwriterqueue.h:187-509 | over every interleaving the dequeued elements are a prefix of the enqueued ones, no assertion fails and no element is read from raw storage or built over a live one |
| SpscTheorems.Answers | include/common/readerwriterqueue.h:428-506 | an enqueue is refused only if the queue held maxSize elements, and try_dequeue, peek and pop come back empty only if it held none, at some moment of the call |
| SpscTheorems.RingAlways | include/common/readerwriterqueue.h:200-208 | in every reachable state the blocks after the front block up to the tail block are not empty, those beyond are empty but for an unpublished element, and the tail never enters the front block |
| SpscProgress.EnqueueReturns | include/common/readerwriterqueue.h:415-509 | whatever the consumer does between them, after at most eleven moves of its own an enqueue returns: with exactly its element at the end of the queue, or refused because the queue was full at some moment and it could not allocate or found no memory |
| SpscProgress.DequeueReturns | include/common/readerwriterqueue.h:187-391 | likewise try_dequeue, peek and pop return after at most thirteen moves of their own: with the first element, removed or only shown, or with nothing because the queue was empty at some moment |
| SpscProgress.RunGrows | include/common/readerwriterqueue.h:468-497 | over every interleaving blocks grow geometrically: the n-th new block is 2^n times as large as the largest one before, until the greatest size is reached |
| SpscProgress.StepGrows | include/common/readerwriterqueue.h:468-497 | a block is added only for a call that may allocate and has seen the queue full |
| PowersOfTwo.Smear | include/common/readerwriterqueue.h:523-528 | or-ing a word with itself shifted doubles the reach of each bit |
| PowersOfTwo.CeilToPow2 | include/common/readerwriterqueue.h:520-532 | the result is a power of two, not below the argument, and less than twice as large |
| PowersOfTwo.MaskIsMod | include/common/readerwriterqueue.h:223-223 | masking an index with the size minus one is the remainder modulo a power of two |
| QueueConstruction.EnoughBlocks | include/common/readerwriterqueue.h:83-88 | the number of blocks allocated leaves room for maxSize elements with one block and one slot per block to spare |
| QueueConstruction.LinkBlocks | include/common/readerwriterqueue.h:91-104 | the allocation loop links the blocks into one circle |
| QueueConstruction.Construct | include/common/readerwriterqueue.h:69-119 | a new queue is empty, satisfies the invariant and has the promised room |
| BlockingQueue.InnerProducerMove | include/common/readerwriterqueue.h:643-690 | an inner enqueue under the blocking queue keeps the inner invariant and appends at most its own element |
| BlockingQueue.GrantKeepsOuterInv | include/common/atomicops.h:507-537 | a wait that takes a unit of the count leaves an element for the dequeue that follows |
| BlockingQueue.SignalKeepsOuterInv | include/common/atomicops.h:545-554 | a signal counts one element and posts to the kernel exactly if a consumer waits there |
| BlockingQueue.OuterRunKeepsInv | include/common/readerwriterqueue.h:643-741 | the accounts of elements, count and posts balance after every interleaving |
| BlockingQueue.BlockingIsSound | include/common/atomicops.h:500-554 | over every interleaving the count never falls below -1, a consumer waiting in the kernel has exactly one post made or on its way once a signal has been counted, every successful wait is followed by a successful dequeue, and no wakeup is lost: with an element in the queue and the producer idle, the waiting consumer's post is there |
| BlockingQueue.CountIsSize | include/common/readerwriterqueue.h:745-748 | with no call in progress the count is the number of elements |
| BlockingAnswers.DequeueAnswers | include/common/atomicops.h:500-544 | every call of the consumer returns once it has made a fixed number of moves other than waiting for a post that is not there: with the first element, removed unless the call is a peek; or with nothing, never from a wait, and only because at some moment of the call the queue held nothing but perhaps the element of an enqueue in progress, or nothing at all for peek |
| BlockingAnswers.EnqueueAnswers | include/common/readerwriterqueue.h:643-690 | every enqueue returns after at most fifteen moves of its own, with exactly its element at the end of the queue, or refused because the queue was full at some moment of the call and it could not allocate or found no memory |
| IntrusiveLists.AddTailKeeps | include/reactor/itimer.hpp:132-134 | adding at the tail relinks four pointers so that one list grows by that node and all others stay |
| IntrusiveLists.DelKeeps | include/reactor/itimer.hpp:138-144 | deleting unlinks a node from whichever list holds it, leaves it linked to itself, and keeps all other lists |
| IntrusiveLists.SpliceKeeps | include/reactor/itimer.hpp:168-178 | splicing moves a whole list to the front of another and empties it |
| IntrusiveLists.EmptyHead | include/reactor/itimer.hpp:146-146 | a head pointing at itself means an empty list, and otherwise it points at the first node |
| TimerSpec.FiringIsExact | src/reactor/itimer.cpp:231-270 | in a legal trace a node fires only if it was armed and nothing has happened to it since, at exactly the tick its arming named: so once, and never after a deletion |
| TimerSpec.FiringHappens | src/reactor/itimer.cpp:231-270 | in a legal trace an armed node that is not touched again fires before the tick after its due tick begins |
| TimerSpec.Untouched | src/reactor/itimer.cpp:231-270 | in a legal trace a node to which nothing but firing happens stays armed as it was or fires exactly once, at its due tick; one that is not armed does not fire |
| TimerScript.RunLeavesAlone | src/reactor/itimer.cpp:231-270 | in the exact events of a run, nothing but firing happens to a node that no callback of the run names |
| TimerNamed.OpDone | src/reactor/itimer.cpp:104-170 | what an operation is for: a node deleted or destroyed is not armed, one added or modified is armed for its due tick unless destroyed, and every other node is as before |
| TimerNamed.RunSettles | src/reactor/itimer.cpp:231-270 | in the exact events of a run, behind the last operation that names a node, and after the firings before it, the node is armed exactly as that operation says and nothing but firing happens to it |
| TimerNamed.DestroyedExactly | src/reactor/itimer.cpp:104-119 | the nodes destroyed in the end are those destroyed before and those that some callback destroys |
| WheelPlacement.AddedIsPlaced | src/reactor/itimer.cpp:176-208 | an added node goes to a slot of the right level whose cascade tick is still ahead, no later than its due tick and within the level's horizon; a late one goes to the next tick's slot |
| WheelPlacement.CascadedSlot | src/reactor/itimer.cpp:233-252 | the slot that a level cascades at a tick holds exactly the nodes whose cascade tick this is |
| WheelPlacement.CascadedGoesDown | src/reactor/itimer.cpp:214-225 | a cascaded node goes to a strictly lower level, with its due tick unchanged |
| WheelPlacement.NextLevelAligned | src/reactor/itimer.cpp:239-252 | the next level is due for a cascade exactly when the index of this one is zero |
| TimingWheel.Wheel.constructor | src/reactor/itimer.cpp:28-51 | all lists empty, the counter as given |
| TimingWheel.Wheel.Add | src/reactor/itimer.cpp:125-140 | arms the node for its due tick, wherever it was before; a destroyed node is left alone |
| TimingWheel.Wheel.Del | src/reactor/itimer.cpp:146-159 | disarms the node and says whether it was armed |
| TimingWheel.Wheel.Mod | src/reactor/itimer.cpp:165-170 | disarms and arms again: the exact result, due map and logged events, also for a destroyed or an unarmed node |
| TimingWheel.Wheel.Destroy | src/reactor/itimer.cpp:104-119 | disarms the node for good; logs a disarming exactly if it was armed |
| TimingWheel.Wheel.InternalAdd | src/reactor/itimer.cpp:176-208 | puts a detached node at the end of the list of its level and slot, and keeps every other node placed |
| TimingWheel.Wheel.Cascade | src/reactor/itimer.cpp:214-225 | empties a slot of a level into lower levels, and no node is left behind its cascade |
| TimingWheel.Wheel.BeginTick | src/reactor/itimer.cpp:235-256 | after the cascades the list to drain holds exactly the nodes due at this tick |
| TimingWheel.Wheel.PopExpired | src/reactor/itimer.cpp:257-266 | unlinks the first node of the list being drained, which is due at this tick, and logs its firing |
| TimingWheel.Wheel.RunOp | src/reactor/itimer.cpp:104-170 | one operation of a callback: a node deleted or destroyed is not armed, one added or modified is armed for its due tick unless destroyed, all other nodes stay as they were, and the log gets exactly the events of the operation |
| TimingWheel.Wheel.RunOps | src/reactor/itimer.cpp:267-267 | a callback in the middle of a drain adds exactly the events of its operations to the log, in their order, keeps the invariant, and never adds to the list being drained |
| TimingWheel.Wheel.DrainSlot | src/reactor/itimer.cpp:257-268 | the new events of a drained slot are, firing by firing, the firing of one node and then exactly what the script says for that callback; the slot is empty at the end |
| TimingWheel.Wheel.Update | src/reactor/itimer.cpp:231-270 | for every script of callbacks, one iteration per tick up to jiffies modulo 2^32; the new events are exactly, tick by tick, the tick and its firings, each followed by exactly the events of its callback; the log is a legal trace and nothing is overdue at the end; and every node that no callback of the run names fires exactly once, at its due tick, if that has been reached, stays armed as it was if not, and does not fire if it was not armed; a node that callbacks name goes by the last operation on it: deleted or destroyed, it is not armed and never fires after it, armed, it fires exactly once at its due tick or stays armed |
| TimingWheel.Wheel.FiringsAreExact | src/reactor/itimer.cpp:231-270 | every firing in the log of a wheel is that of the last arming of its node, with nothing about the node in between, at the tick that arming named: so none after a deletion until the node is armed again |
| TimingWheel.ArmAndRun | src/reactor/itimer.cpp:125-270 | a caller that arms a node and runs the wheel with callbacks that do not name it sees exactly one firing, at the due tick, and the node disarmed, or none and the node armed |
| TimerManager.TicksAheadIsEarly | src/reactor/itimer.cpp:342-344 | the number of ticks an event is armed ahead never skips its deadline |
| TimerManager.ServedIsExact | src/reactor/itimer.cpp:321-337 | a started event has served exactly its deadlines up to the current time |
| TimerManager.CatchUp | src/reactor/itimer.cpp:328-339 | the catch-up loop serves every deadline not after the current time, up to the repeat count, and stops exactly then |
| TimerManager.Manager.constructor | src/reactor/itimer.cpp:281-288 | clocks at their start, the interval at least 1 |
| TimerManager.Manager.Start | src/reactor/itimer.cpp:388-402 | the event is armed, its first deadline is current + period, its count starts at zero, and the history gets exactly this start |
| TimerManager.Manager.Stop | src/reactor/itimer.cpp:407-414 | the event is disarmed and no longer active, and the history gets exactly this stop |
| TimerManager.Manager.Invoke | src/reactor/itimer.cpp:349-354 | a user callback runs only for an event that has not been stopped since it was started, also by its own callback, and no more often than it may repeat; the history gets exactly this call and then what the callback does |
| TimerManager.Manager.Callback | src/reactor/itimer.cpp:321-356 | catching up, re-arming and running the callbacks of one firing: only this event is called, and the history gets exactly these calls, each followed by what the script says for it; the counts of all events stay right |
| TimerManager.Manager.CoreRun | src/reactor/itimer.cpp:81-84 | one turn is exactly one iteration of the wheel, and the history gets exactly the calls of that turn, each followed by what its callback does |
| TimerManager.Manager.Tick | src/reactor/itimer.cpp:313-318 | no drift: with the time before the tick advances it as current, every start in the history with no later start or stop of its event is followed by exactly floor((current - start) / period) calls of that event, capped at its repeat count; no event is called after a stop until it is started again; the history gets exactly the calls of this tick and what their callbacks do; then all three clocks advance |
| TimerManager.Manager.Run | src/reactor/itimer.cpp:301-319 | for every clock reading exactly as many ticks as are due, one if the clock has jumped by more than 300000 + 64 * interval, each advancing current by interval, with the exact calls of each in the history, no drift at the last of them, and no call of a stopped event; an event that callbacks name goes by the last operation on it: stopped, it is not called after it, started, it is called exactly as often as its deadlines and repeat count say |
| TimerManager.Manager.InStep | src/reactor/itimer.cpp:313-318 | between ticks the wheel's counter is the manager's, modulo 2^32, and current is its start plus ticks times interval |
| TimerManager.StartAndRun | src/reactor/itimer.cpp:301-402 | a caller that starts an event and runs the manager with callbacks that do not name it finds it called exactly as often as its deadlines and repeat count say |
| EventHistory.StaysInForce | src/reactor/itimer.cpp:388-414 | a start stays in force while no callback starts or stops its event |
| EventHistory.RunLeavesEventAlone | src/reactor/itimer.cpp:301-354 | the exact history of a run holds no start or stop of an event that its callbacks do not name |
| EventHistory.StaysStopped | src/reactor/itimer.cpp:349-354 | a stopped event has no call in the history until it is started again |
| EventHistory.RunLast | src/reactor/itimer.cpp:301-354 | in the exact history of a run the last operation on an event stands behind the call whose callback does it, at the time of its tick, and nothing starts or stops the event after it |
| WrappedClocks.LockStep | src/reactor/itimer.cpp:313-318 | with any wrap-around the wheel's counter equals the manager's, and current is its start plus ticks times interval modulo 2^32 |
| WrappedClocks.CatchUpIsExact | src/reactor/itimer.cpp:328-330 | over true times, for an event behind by less than 2^32, the 32-bit loop serves exactly the deadlines that are due if and only if the next deadline to serve, the current time and the deadline after it lie in the same epoch of 2^32 |
| WrappedClocks.CatchUpOverruns | src/reactor/itimer.cpp:328-330 | the deadline after the one due has wrapped around: the loop serves again |
| WrappedClocks.CatchUpMisses | src/reactor/itimer.cpp:328-330 | the current time has wrapped around and the deadline has not: nothing is served although a deadline is due |
| WrappedClocks.CatchUpNeverEnds | src/reactor/itimer.cpp:328-330 | with current at 2^32 - 1 every deadline compares as due, whatever the period: the loop has no end but the repeat count |
| WrappedClocks.CatchUpByChance | src/reactor/itimer.cpp:328-330 | an event behind by more than 2^32 that is served exactly although the epochs differ, so that the condition of CatchUpIsExact is not necessary there |
| HttpStep.UrlChar | src/http/http_parser.cpp:424-570 | every character of a URL leads to another URL state or to the dead state |
| HttpStep.StepUrl | src/http/http_parser.cpp:996-1067 | URL states begin one datum, go on with it or hand it over once |
| HttpStep.StepField | src/http/http_parser.cpp:1191-1369 | header field states begin one datum, go on with it or hand it over once |
| HttpStep.StepValue | src/http/http_parser.cpp:1371-1533 | header value states begin one datum, go on with it, hand it over once, or hand over an empty one |
| HttpStep.StepEnd | src/http/http_parser.cpp:1535-1660 | the ends of headers only notify, and look at a byte again only in a state of lower rank |
| HttpStep.StepChunk | src/http/http_parser.cpp:1705-1826 | chunk states hand over body data only when the data of a chunk is complete |
| HttpStep.FieldIsSafe | src/http/http_parser.cpp:1244-1334 | in reachable states the assertion on the header state of a field name holds |
| HttpStep.ValueIsSafe | src/http/http_parser.cpp:1455-1462 | in reachable states the assertion on the header state of a value holds |
| HttpStep.ChunkIsSafe | src/http/http_parser.cpp:1710-1826 | in reachable states nread is 1 at the start of a chunk size, the chunked flag is set and the content length is as asserted |
| HttpReference.FeedIsSafe | src/http/http_parser.cpp:572-1863 | from every reachable parser, for all input, no assertion fails, and the parser stays reachable unless it fails |
| HttpReference.InitIsReachable | src/http/http_parser.cpp:1917-1925 | a new parser is reachable |
| HttpReference.FeedSplit | src/http/http_parser.cpp:572-1863 | feeding bytes in two parts is feeding them at once, also when the first part fails or leaves for another protocol |
| HttpReference.FeedBody | src/http/http_parser.cpp:1662-1708 | a run of body bytes taken one at a time leads to the same parser as taken at once |
| HttpReference.StoryJoin | include/http/http_parser.h:69-78 | two pieces of the same data one after the other tell the same story as one |
| HttpExecute.LastLook | src/http/http_parser.cpp:79-120 | what the macros do to marks and callbacks at a byte tells the same story as the byte by itself |
| HttpExecute.HttpParser.TakeByte | src/http/http_parser.cpp:644-1832 | looking at a byte as often as the states ask for it equals the byte-at-a-time switch |
| HttpExecute.HttpParser.TakeBody | src/http/http_parser.cpp:1662-1706 | taking as many body bytes as there are equals taking them one at a time |
| HttpExecute.HttpParser.Parse | src/http/http_parser.cpp:609-1863 | for every buffer the fields, the return value and the outcome are those of the byte-at-a-time parser, the story is the same but for one pending datum on errors, and at most one mark is left at the end |
| HttpExecute.HttpParser.Execute | src/http/http_parser.cpp:572-1863 | the same with the error state and the end of the connection; fields and story depend only on the bytes since the last fresh start, not on the buffers |
| HttpExecute.RunBuffers | src/http/http_parser.cpp:572-1863 | any list of non-empty buffers leads to the fields, byte count and story of their concatenation |
| HttpExecute.CutTwoWays | src/http/http_parser.cpp:572-1863 | split invariance: two cuttings of the same bytes leave the same fields and byte count and, without an error, tell the same story |
| HttpMethods.OnPath | include/http/http_parser.h:82-112 | the matcher follows the letters of every method of the table |
| HttpMethods.MethodRecognised | src/http/http_parser.cpp:872-994 | a word before a space is accepted exactly if it is a name of the method table, and then as that method |
| HttpFields.LetterFollows | src/http/http_parser.cpp:1241-1334 | the header sub-automaton always stands at the longest header name that can still come out |
| HttpFields.FieldRecognised | src/http/http_parser.cpp:1191-1353 | it ends in connection, content-length, transfer-encoding or upgrade exactly if the case-folded name is that header or, for connection, proxy-connection |
| HttpBody.ContentLengthRead | src/http/http_parser.cpp:1464-1487 | a Content-Length is read as the number of its digits, with spaces among them skipped, if and only if that is below 2^64 - 1 |
| HttpBody.TooLongLengthAccepted | src/http/http_parser.cpp:1479-1485 | 3 * 10^19 passes the overflow check and is read as 3 * 10^19 - 2^64 |
| HttpBody.IdentityBody | src/http/http_parser.cpp:1662-1708 | a body of the announced length is handed over exactly, followed by one end of message |
| HttpChunks.SizeRead | src/http/http_parser.cpp:1710-1765 | a chunk size is read as its number if and only if that is below 2^64 - 1 |
| HttpChunks.ChunkRead | src/http/http_parser.cpp:1710-1826 | a chunk hands over exactly its data and leads back to the start of a chunk |
| HttpChunks.ChunkedBody | src/http/http_parser.cpp:1570-1826 | for every list of chunks with sizes and parameters, and every header block behind the last one, the body handed over is exactly the contents, followed by those headers and one end of message |
| HttpChunks.HeadersEnd | src/http/http_parser.cpp:1570-1660 | the line feed that ends the headers tells their end and goes on as the announced length or encoding, an upgrade or the application says |
| HttpLines.NumberRead | src/http/http_parser.cpp:737-850 | the digits of a version or status code up to 999 are read as their number |
| HttpLines.UrlAndEnd | src/http/http_parser.cpp:996-1067 | any word followed by a space or a line end is accepted as a URL exactly if its characters lead to a place where a URL may end, and is then told as it is |
| HttpUrls.UrlExactly | src/http/http_parser.cpp:424-570 | a URL is accepted exactly if it is in the grammar: a path or *, or a scheme, a server without two at signs in a row, and perhaps a path or query; for CONNECT the same without the scheme |
| HttpLines.RequestLineRead | src/http/http_parser.cpp:872-1189 | for every method, every URL in the grammar, every version or none, any spaces and either line end the request line is read as exactly these, with one URL and nothing else changed |
| HttpLines.StatusLineRead | src/http/http_parser.cpp:694-870 | for every version, status code, reason or none, and either line end the status line is read as exactly these, and notified unless it ends in a bare line feed |
| HttpStarts.KindFound | src/http/http_parser.cpp:654-735 | a parser that does not know whether it reads requests or responses reads a first line exactly like one that does |
| HttpHeaders.LetterStands | src/http/http_parser.cpp:1489-1526 | the sub-automaton of values stands at a word exactly while the letters read, in any case, begin it, or are it with spaces behind |
| HttpHeaders.LineRead | src/http/http_parser.cpp:1371-1568 | one line of a value is told without its padding; an empty one makes the parser forget the kind of the header |
| HttpHeaders.HeaderRead | src/http/http_parser.cpp:1191-1568 | a header, with any blanks before its value, with an empty value or folded over several lines, and with either line end, is told as its name and its lines, and sets the chunked, keep-alive, close or upgrade flag or the content length exactly if its name and lines say so |
| HttpHeaders.HeadersRead | src/http/http_parser.cpp:1191-1568 | a header block has the effects of its headers in turn |
| HttpStories.HeadersStory | include/http/http_parser.h:69-78 | the application hears each header once, with its name and the lines of its value joined |
| HttpMessage.MessageRead | src/http/http_parser.cpp:572-1863 | every request and response, with any first line, headers and trailers, and with no body, a body of the announced length, chunks, a body up to the end of the connection or a handover to another protocol, whichever its headers, status and the application announce, is told exactly: one begin, the URL or the status, the headers, their end, the contents of the body, the trailers, one end; the fields hold the method or status and the version; and then the parser awaits the next message of its kind, or, if it is strict and version and headers do not keep the connection or it ends with the message, is dead |
| HttpMessage.GoesOn | src/http/http_parser.cpp:380-397 | the state behind a message is the one that the message says: the version keeps connections open and no header or trailer asks to close, or an older version and one asks to keep, and the body does not end with the connection |
| HttpMessage.FlagAsked | src/http/http_parser.cpp:1540-1556 | a flag is set exactly if some header asks for it |
| HttpMessage.DeadRefuses | src/http/http_parser.cpp:647-655 | a dead parser takes line ends only, and answers anything else with CLOSED_CONNECTION |
| HttpMessage.MessagesRead | src/http/http_parser.cpp:572-1863 | all messages of a connection are told, one after the other, each read where the one before has left the parser |
| HttpMessage.DeliverMessages | src/http/http_parser.cpp:572-1863 | the same for a new parser, any number of messages one after the other on a connection, and every cutting of their bytes into buffers: all are told in order, with the closing of the connection where that ends the last body; exactly their bytes are taken, and what follows a handover is left alone |
| HttpRefusals.NameExactly | src/http/http_parser.cpp:1191-1369 | what stands before a colon is taken as the name of a header exactly if it is not empty and of token characters only |
| HttpRefusals.BadLength | src/http/http_parser.cpp:1464-1487 | a Content-Length with any other character than digits and spaces is refused, wherever it stands |
| HttpRefusals.NumberExactly | src/http/http_parser.cpp:737-850 | the digits of a version or status code are taken exactly if their number is at most 999 and the version of a request does not begin with zero |
| HttpRefusals.FixedByte | src/http/http_parser.cpp:715-735 | where a character is fixed, a strict parser refuses any other |
| HttpRefusals.BreakBefore | src/http/http_parser.cpp:657-712 | line ends before a message are skipped, but a parser of responses tells a beginning for each of their characters |
| HttpRefusals.BadSize | src/http/http_parser.cpp:1710-1727 | a chunk that does not begin with a digit is refused |
| HttpRefusals.HeadTooLong | src/http/http_parser.cpp:634-642 | a byte of a head beyond the greatest header size is refused |
| HttpRefusals.HeadIsCut | src/http/http_parser.cpp:590-611 | if the connection ends within the head of a message, wherever that is cut, that is INVALID_EOF_STATE |
| MqttLength.WriteLength | src/mqttc++/mqtt_pkt.cpp:185-214 | the loop writes the base-128 digits of the length and nothing else |
| MqttLength.RemainLength | src/mqttc++/mqtt_pkt.cpp:14-64 | the loop finds the first of at most four bytes without the top bit, and the value of its digits, without looking at len before |
| MqttLength.LengthRoundTrip | src/mqttc++/mqtt_pkt.cpp:14-64 | a written length is read back if and only if it is below 16384 |
| MqttLength.ThreeBytesMisread | src/mqttc++/mqtt_pkt.cpp:35-35 | 16384 is written as 80 80 01 and read back as 128 |
| MqttCodec.HeaderRoundTrip | src/mqttc++/mqtt_msg.cpp:11-36 | a fixed header is read back exactly if its type and qos fit their bit fields |
| MqttCodec.HeaderBack | src/mqttc++/mqtt_msg.cpp:11-36 | every byte is the header byte of what it is read as |
| MqttCodec.PublishRoundTrip | src/mqttc++/mqtt_msg.cpp:526-591 | every publish with a remaining length below 16384 is read back as it was written |
| MqttCodec.SubscribeRoundTrip | src/mqttc++/mqtt_msg.cpp:290-367 | every subscribe to at least one topic is read back as it was written |
| MqttCodec.PublishThere | src/mqttc++/mqtt_msg.cpp:526-560 | any bytes that decode as a publish are, behind the fixed header, exactly the bytes of that publish |
| MqttCodec.SubscribeThere | src/mqttc++/mqtt_msg.cpp:331-367 | any bytes that decode as a subscribe are that subscribe, perhaps with the beginning of a further topic |
| MqttCodec.ConnectRoundTrip | src/mqttc++/mqtt_msg.cpp:79-198 | a connect is read back with its client id and clean session, the fixed protocol, version and keep-alive, and nothing else |
| MqttCodec.ConnectDecoded | src/mqttc++/mqtt_msg.cpp:79-165 | every connect in the layout of section 3.1 of MQTT 3.1.1, with or without will, user name and password, is decoded as it is |
| MqttCodec.PublishOnWire | src/mqttc++/mqtt_msg.cpp:562-591 | the bytes of a publish in full, as section 3.3 of MQTT 3.1.1 lays them out |
| MqttCodec.SubscribeOnWire | src/mqttc++/mqtt_msg.cpp:290-329 | the bytes of a subscribe in full, as section 3.8 of MQTT 3.1.1 lays them out |
| MqttCodec.ConnectOnWire | src/mqttc++/mqtt_msg.cpp:167-198 | the bytes of a connect in full |
| MqttCodec.Renumbered | src/mqtt_server/mqtt_connection.cpp:424-440 | writing another message id into any bytes that decode as a publish gives bytes that decode as the same publish with that id |
| MqttPacket.Packet.WriteString | src/mqttc++/mqtt_pkt.cpp:255-263 | a string is written with its length or, as far as it does not fit, skipped |
| MqttPacket.Packet.EncodePublish | src/mqttc++/mqtt_msg.cpp:562-591 | a positive length exactly if every field fitted, and then exactly the bytes of the message |
| MqttPacket.Packet.EncodeSubscribe | src/mqttc++/mqtt_msg.cpp:290-329 | a positive length exactly if there is a topic and every field fitted, and then exactly the bytes of the message |
| MqttPacket.Packet.EncodeConnect | src/mqttc++/mqtt_msg.cpp:167-198 | the bytes of the message if they fit; the returned length does not tell whether they did unless it is compared |
| MqttPacket.Packet.DecodePublish | src/mqttc++/mqtt_msg.cpp:526-560 | exactly the fields that the bytes hold, or a failure |
| MqttPacket.Packet.DecodeSubscribe | src/mqttc++/mqtt_msg.cpp:331-367 | the topics up to the first incomplete one |
| MqttPacket.Packet.DecodeConnect | src/mqttc++/mqtt_msg.cpp:79-165 | the fields, with will, user name and password as the flags say |
| MqttFraming.UnfinishedPacket | src/mqttc++/mqtt_pkt.cpp:27-62 | the start of a packet waits for more data, unless the stale bytes behind it complete a run of four continuation bytes |
| MqttFraming.EndlessLength | src/mqttc++/mqtt_pkt.cpp:49-52 | stale bytes that make the two first bytes of a packet fail |
| MqttFraming.Connection.Receive | src/mqtt_server/mqtt_connection.cpp:47-78 | for every sequence of packets with one- or two-byte lengths and at most 4096 bytes, and every cutting into reads, exactly the complete packets have been handed over in order and the buffer keeps exactly the unfinished rest; it fails exactly on a run of continuation bytes |
| MqttFraming.Connection.ProcessMqtt | src/mqtt_server/mqtt_connection.cpp:80-136 | the framing loop and the move to the start of the buffer |
| MqttBroker.WithTopicsLists | include/mqtt_server/mqtt_context.hpp:84-94 | the list of a session names exactly the old and the new topics |
| MqttBroker.AckNamesOne | include/mqtt_server/mqtt_context.hpp:105-120 | while the queued ids span fewer than 65536 values, the 16 bits of an acknowledgement name one of them |
| MqttBroker.SubscribedAllKeeps | src/mqtt_server/subscriber_mgr.cpp:64-94 | subscribing adds the session to each topic, removes no one, changes no other session, and everything ever queued stays |
| MqttBroker.Broker.Enqueue | include/mqtt_server/mqtt_context.hpp:96-103 | one message more at the end of one queue, and everything ever queued is still an acknowledged prefix followed by the queue |
| MqttBroker.Broker.Ack | include/mqtt_server/mqtt_context.hpp:105-138 | removes the first message exactly if its id has the named 16 bits; with ids spanning fewer than 65536 values, every queued message with these bits has the full id that was acknowledged |
| MqttBroker.Broker.Publish | src/mqtt_server/subscriber_mgr.cpp:188-262 | exactly the subscribers of the topic get the message, once, at the end of their queues; their number is returned; no subscription changes; the retained message of the topic, and no other, is kept, replaced or cleared as the flag and the payload say; what was ever queued only grows |
| MqttBroker.Broker.HandlePublish | src/mqtt_server/mqtt_connection.cpp:380-454 | a packet from a session that is connected and that decodes gets the next id, is queued for the subscribers of its own topic with that id in its bytes, and these decode as the publish with that id; any other packet changes nothing |
| MqttBroker.Broker.Subscribe | src/mqtt_server/mqtt_connection.cpp:477-538 | exactly this session joins exactly these topics; the retained messages stay, and an online session gets those of the topics, in their order, at the end of its queue; no other session changes; the session's own list and everything ever queued exactly |
| MqttBroker.Broker.Unsubscribe | src/mqtt_server/mqtt_connection.cpp:540-570 | exactly this session leaves exactly the named topics: every other subscription, all topics and all retained messages stay, and the session keeps its own list |
| MqttBroker.Broker.Connect | src/mqtt_server/mqtt_connection.cpp:294-335 | a session of the client is taken up again with its queue, after the close of its old connection if there still is one, otherwise the connection's own session becomes the client's; all maps exactly |
| MqttBroker.Broker.Close | src/mqtt_server/mqtt_connection.cpp:138-169 | with a clean session exactly this session leaves exactly its topics, so that no subscriber set holds it any more, and its client is no longer registered; otherwise no subscription changes |
| MqttBroker.PublishThenSubscribe | src/mqtt_server/subscriber_mgr.cpp:64-94 | a publish that is to be retained, and then a subscribe by an online session: the publish, with its new id, is the last message in the queue of the session |
| MqttBroker.UnsubscribeThenPublish | src/mqtt_server/mqtt_connection.cpp:540-570 | when one session has unsubscribed from a topic, the next publish on it reaches every other subscriber and not that session |
| XmlText.Utf8RoundTrip | src/common/tinyxml2.cpp:374-420 | every number below 2^21 is encoded so that section 3 of RFC 3629 reads it back, and others give nothing |
| XmlText.CharacterRef | src/common/tinyxml2.cpp:423-516 | a numeric reference never gives more bytes than it takes |
| XmlText.ReferenceRead | src/common/tinyxml2.cpp:423-516 | a decimal or hexadecimal reference whose number has 32 bits, with any leading zeros, gives the encoding of that number |
| XmlText.ReferenceDecoded | src/common/tinyxml2.cpp:293-310 | such a reference in a text is decoded as the character of its number, and the text behind it goes on |
| XmlText.LineDecoded | src/common/tinyxml2.cpp:253-290 | every line of a text is decoded as it is and ends in a line feed, whether its line end was CR, LF or both in either order |
| XmlText.GetStr | src/common/tinyxml2.cpp:253-349 | decoding in place: the write position never passes the read position, nothing outside the string changes, the result is exactly the decoded pieces, with, at an unknown entity, whatever character stands at the write position, and so the decoded text if there is none |
| XmlText.UnknownShowsThrough | src/common/tinyxml2.cpp:311-329 | an input where an earlier character shows through an unknown entity |
| XmlText.PrintString | src/common/tinyxml2.cpp:2128-2174 | printing runs and entities gives the escaped string |
| XmlText.DecodeEscape | src/common/tinyxml2.cpp:253-349 | decoding undoes escaping for all text without carriage returns |
| XmlText.EscapeIsPlain | src/common/tinyxml2.cpp:2128-2174 | no bracket is left in escaped text and no quote in escaped attributes |
| XmlParser.ReadAttributes | src/common/tinyxml2.cpp:1582-1635 | the attribute loop |
| XmlParser.ReadChildren | src/common/tinyxml2.cpp:922-998 | the loop over children, whose last one reads the closing tag of the parent |
| XmlParser.ReadElement | src/common/tinyxml2.cpp:1653-1678 | one element with its children and its closing tag, as the function about which XmlMarkup is |
| XmlParser.ReadDocument | src/common/tinyxml2.cpp:2060-2071 | white space and a byte order mark, then the nodes, or an error for nothing, as the function about which XmlMarkup is |
| XmlParser.AttributeNameIsBehind | src/common/tinyxml2.cpp:1244-1269 | the NUL that ends an attribute's name in place, when duplicates are looked for, is written strictly before what is still to be parsed |
| XmlParser.ElementNameIsBehind | src/common/tinyxml2.cpp:922-998 | the same for the names compared at a closing tag |
| XmlMarkup.AttrsParsed | src/common/tinyxml2.cpp:1582-1635 | attributes with unique names, with either quote and any white space, are read in order up to the end of their tag |
| XmlMarkup.AttrsThere | src/common/tinyxml2.cpp:1582-1635 | whatever is read as attributes is such a text, and their names are unique |
| XmlMarkup.ItemsParsed | src/common/tinyxml2.cpp:922-1002 | every proper list of texts and elements, whatever follows it, is read as its trees |
| XmlMarkup.ChildrenThere | src/common/tinyxml2.cpp:922-1002 | whatever is read as children is a proper list: every element is closed by a tag of its own name, and attributes are not repeated |
| XmlMarkup.ParsedExactly | src/common/tinyxml2.cpp:2060-2071 | the parser accepts exactly the proper documents, as exactly the trees that they stand for |
| XmlMarkup.MismatchRefused | src/common/tinyxml2.cpp:975-992 | an element whose closing tag has another name is an error, whatever is inside |
| XmlMarkup.RepetitionRefused | src/common/tinyxml2.cpp:1604-1609 | a repeated attribute name is an error, whatever comes after it |
| XmlPrinter.Printer.Visit | src/common/tinyxml2.cpp:2385-2413 | the printer writes a node, sealing start tags late, and leaves its stack as it was |
| XmlPrinter.Printer.CloseElement | src/common/tinyxml2.cpp:2250-2273 | an element without children is closed in its start tag |
| XmlRoundTrip.NodesPrinted | src/common/tinyxml2.cpp:2385-2413 | what is printed is, character by character, the compact form of the tree in the grammar |
| XmlRoundTrip.NodesCompact | src/common/tinyxml2.cpp:2385-2413 | the compact form of a valid tree is proper and stands for that tree |
| XmlRoundTrip.DocumentRoundTrip | src/common/tinyxml2.cpp:2060-2071 | every document of elements, unique attributes and non-adjacent text that is neither all white space nor contains CR or NUL is the same after compact printing and parsing |
| XmlRoundTrip.SaveAndLoad | src/common/tinyxml2.cpp:2060-2071 | the printer and the document parser, run one after the other, give back the document |

## Left out

- Weak-memory fences and cache lines in the queue: steps interleave under sequential consistency.
- The destructor of the queue, `size_approx` of the inner queue, and `bad_alloc` in its constructor; sizes from 2^63 on.
- TimerManager.Manager.Run: assumes that `current` and the deadlines do not wrap around within the call, since the catch-up loop need not end when they do (CatchUpNeverEnds); CatchUpIsExact says exactly when that loop is right for an event behind by less than 2^32 milliseconds, and LockStep covers the clocks with wrap-around.
- WrappedClocks.CatchUpIsExact: leaves out events behind by 2^32 milliseconds or more, where the condition is not necessary (CatchUpByChance); an event is armed for a tick before which no deadline of it passes (TicksAheadIsEarly), so it is behind by less than the interval, which has 32 bits.
- Timer callbacks that run the wheel again from inside, `itimer_core_destroy`, re-initialising nodes and missing callbacks.
- `CTimerWheelMgr`, a thin map over the wheel.
- HTTP callbacks that fail or pause the parser, `http_parser_parse_url`, and the string based parser of the HTTP server.
- HttpMessage.MessageRead: leaves out line ends before a message (BreakBefore), headers without a colon, an empty value before a bare line feed, bare line feeds among trailers, and the characters that a parser that is not strict takes in place of fixed ones; these are covered by HttpReference.FeedIsSafe and HttpExecute.CutTwoWays only.
- HttpExecute.HttpParser.Execute: after an error the story of a buffer lacks the data of one open mark, as in the code.
- MQTT messages other than connect, publish and subscribe: four-byte acknowledgements add only easy members, and a suback is not read back completely.
- Lengths from 2^32 on in the encoders, and buffers too small for header and length, which are written without a check.
- MqttFraming.Connection.ProcessMqtt: what `process` does with a packet, including its failures and its change of the message id in place, which only concerns bytes already handed over; Renumbered shows what that change means.
- Sending to sockets, persistence of sessions, and the lifetime of the connection object that a second connect takes over from.
- XML comments, CDATA, declarations and DTDs, which the model refuses; pretty printing; number conversions; the pools and sibling pointers of nodes, which are sequences here.
- Sockets, the reactor, threads, logging and configuration.
