# A model of the CMS client on top of AMQP

This project models the client library that offers the CMS (JMS-style) interface on Qpid Proton, and proves
what its main parts guarantee.  It has four parts.

**Lifecycle and flow control.**  Application calls put closures on a work queue that the proton thread runs in
order, and wait until a callback changes a state.  `ReceiverProtocol` and `SenderProtocol` are transition systems
for one consumer and one producer: the application's calls, their returns, and the steps of proton.
`MessageConsumer` and `MessageProducer` are the objects; each of their calls is proved to be a run of the
transition system, and to end.  `StopSafety` is about every run: when a stop really stops, how credit is
conserved, how long a stop can wait.  `StopHistory` says the same in terms of the caller's own calls.
`LifecycleTree`, `Teardown` and `FanOut` are about the whole tree of connection, sessions, consumers and
producers, and about every sequence of calls on it.  `Session` and `Connection` are the objects, whose calls are
proved to do to the tree what the model says.  While a call waits for one node, the one proton thread serves all
the others: each loop leaves room, after every wait, for any run of proton in every other consumer and producer.
`Meanwhile`, `ConsumerLoop` and `SessionLoop` prove on values that this makes no difference to a loop that
succeeds, and at most ends leftover drains where a loop throws; such an end writes STOPPED, as a stop through the
consumer's own handle would.

**Message ids.**  `NumberText`, `HexDecoder` and `MessageIds` model the typed ids of sections 3.2.4 and 3.2.11
to 3.2.14 of OASIS AMQP 1.0 (`MessageConverter` writes them into messages), their printed form with reserved
tags, and the hand-written hex loops, with the text of a uuid as in section 3 of RFC 4122.

**Broker URLs.**  `UriText`, `UriOptions` and `UriParser` model the recursive option parser with its mode flag,
the settings it writes, the broker list, and the factory that splits off the main broker; `UriOrder` says exactly
when the order in which it applies the options shows, and `UriSettings` what every single option does, by name.

**Messages.**  `BytesStream`, `Messages` and `MessageIsolation` model the bytes message as a stream of typed
values, the copy constructors, and who can still change a message after it has been sent.  `Client` holds real
message objects and a real producer, and each of its operations is proved to be a step of that store.

What proton does is a contract: work runs in order; a delivery needs a credit and uses it before the
message callback; a drain holds back new credit and ends with one callback at credit 0 (section 2.6.7 of OASIS
AMQP 1.0); every open and close request gets one callback; nothing is delivered after a close; between two pieces
of queued work there are finitely many deliveries.  The queue of one node is the part of the connection's queue
that concerns it.  A second drain request waits until the first drain has finished.

Where the code differs from what one would expect, the model follows the code:

- `stop()` on a stopped consumer returns before its drain runs, so a later `start()` and `stop()` can return with
  credit still queued.  `StopIsQuietIffGuarded` gives the exact condition on the state, `NextStopIsQuietIff` on
  the caller's history, `StoppedConsumerStillDelivers` a run.
- `start()` and `stop()` overwrite CLOSED on sessions; "closed" therefore means the null work queue.
- A session or connection whose live consumer was closed through its own handle cannot be started or stopped: the
  consumer's exception ends the loop.
- A connection whose transport closes while it is being opened is returned closed, without an exception.
- The parser of ids knows the tag `ID:AMQP_NO_PREFIX` without its colon, the printer only with it.
- String correlation ids keep their tag and are printed with `ID:AMQP_AMQP_STRING:` in front, so such a text does
  not come back as it was set; `CorrelationTextRoundTripsIff` says which texts do.
- Binary ids longer than eight bytes, or with a value of 2^63 and above, cannot be read back.
- Grouped options are applied from the last to the first, so of two equal keys the first wins;
  `ScanOrderAgreesIff` says exactly which lists this affects.
- A read from a bytes message looks up only its first byte with a range check.  One that begins inside the body and
  ends outside it throws nothing, leaves the cursor behind the body, and returns a value of which the model says
  nothing but its type.
- A plain CMS message shares its proton message with its copies.
- `setText` on a text message has an empty body, so the text given to the constructor stays.

`Undefined` stands for what the C++ language leaves undefined: a store past the buffer or a shift by the whole
width in the hex loops, an iterator moved outside its text by an empty option or by the group `cms` on its own,
and the first element of an empty broker list.

## Model

| member | source | states |
|---|---|---|
| StopSafety.StopIsQuietIffGuarded | stonex-cms-amqp/stonex-cms-amqp-lib/stonex-cms-amqp-cpp/MessageConsumerImpl.cpp:126-140 | in every reachable state, a stop leaves the receiver without credit, withheld or queued, under every schedule of the proton thread, if and only if the consumer was started with no drain outstanding or was already quiet |
| StopSafety.NoDeliveryUntilStart | stonex-cms-amqp/stonex-cms-amqp-lib/stonex-cms-amqp-cpp/MessageConsumerImpl.cpp:126-140 | after such a stop has returned, no run without a start delivers anything to the listener |
| StopSafety.GuardedStopIsQuiet | stonex-cms-amqp/stonex-cms-amqp-lib/stonex-cms-amqp-cpp/MessageConsumerImpl.cpp:126-140 | the guard is sufficient in every state that satisfies the invariant |
| StopSafety.UnguardedStopIsLoud | stonex-cms-amqp/stonex-cms-amqp-lib/stonex-cms-amqp-cpp/MessageConsumerImpl.cpp:126-140 | and necessary: without it some schedule lets the stop return while credit is held or still to come |
| StopSafety.EarlyFinish | stonex-cms-amqp/stonex-cms-amqp-lib/stonex-cms-amqp-cpp/MessageConsumerImpl.cpp:217-223 | the schedule: the first drain in line ends while a credit request stands behind it |
| StopHistory.NextStopIsQuietIff | stonex-cms-amqp/stonex-cms-amqp-lib/stonex-cms-amqp-cpp/MessageConsumerImpl.cpp:109-140 | in terms of the calls alone: after a history of starts and stops, the next stop is quiet under every schedule, whatever proton has done so far, if and only if no stop that was entered while STOPPED has a start behind it |
| StopHistory.EveryLaterStopIsQuietIff | stonex-cms-amqp/stonex-cms-amqp-lib/stonex-cms-amqp-cpp/MessageConsumerImpl.cpp:109-140 | for a caller that from now on stops only a started consumer, every later stop is quiet if and only if no earlier stop was entered while STOPPED |
| StopHistory.ModeMeans | stonex-cms-amqp/stonex-cms-amqp-lib/stonex-cms-amqp-cpp/MessageConsumerImpl.cpp:109-140 | the modes of the automaton behind it, in terms of the calls: lost exactly if some stop entered while STOPPED has a start behind it, dirty or lost exactly if there is such a stop |
| StopSafety.SettleRun | stonex-cms-amqp/stonex-cms-amqp-lib/stonex-cms-amqp-cpp/MessageConsumerImpl.cpp:217-246 | in a consumer that no call is waiting for, any run of proton leaves the queue pointer, changes the state at most to STOPPED, and keeps the guard of the next stop and the quietness of a stopped consumer |
| StopSafety.StoppedConsumerStillDelivers | stonex-cms-amqp/stonex-cms-amqp-lib/stonex-cms-amqp-cpp/MessageConsumerImpl.cpp:126-140 | a concrete run (open, stop, start, stop) in which the second stop returns and a message is delivered afterwards |
| StopSafety.QuietRun | stonex-cms-amqp/stonex-cms-amqp-lib/stonex-cms-amqp-cpp/MessageConsumerImpl.cpp:226-246 | a quiet receiver stays quiet and delivers nothing over any run without a start |
| StopSafety.StoppingRun | stonex-cms-amqp/stonex-cms-amqp-lib/stonex-cms-amqp-cpp/MessageConsumerImpl.cpp:126-140 | the states a guarded stop goes through while it waits are closed under every step of proton |
| StopSafety.CreditConservation | stonex-cms-amqp/stonex-cms-amqp-lib/stonex-cms-amqp-cpp/MessageConsumerImpl.cpp:109-124 | while no drain is outstanding, credit held, withheld and queued grows by ten per start and is unchanged by every delivery |
| StopSafety.CreditSinceStop | stonex-cms-amqp/stonex-cms-amqp-lib/stonex-cms-amqp-cpp/MessageConsumerImpl.cpp:226-229 | from a quiet stop on it is exactly ten times the starts since |
| StopSafety.CreditAccounting | stonex-cms-amqp/stonex-cms-amqp-lib/stonex-cms-amqp-cpp/MessageConsumerImpl.cpp:109-246 | the whole account over any run before a close, stops and drains included: what was there plus ten for each start is what is there in the end plus what drains have taken |
| StopSafety.StartGivesTen | stonex-cms-amqp/stonex-cms-amqp-lib/stonex-cms-amqp-cpp/MessageConsumerImpl.cpp:109-124 | a start on an open consumer with an empty queue, once proton has run its request, leaves ten credits more, held back while a drain is in progress |
| StopSafety.RequestGivesTen | stonex-cms-amqp/stonex-cms-amqp-lib/stonex-cms-amqp-cpp/MessageConsumerImpl.cpp:115-117 | each queued request gives ten credits when proton runs it |
| StopSafety.DrainEndReleases | stonex-cms-amqp/stonex-cms-amqp-lib/stonex-cms-amqp-cpp/MessageConsumerImpl.cpp:217-223 | the end of a drain hands over exactly the credit that was held back |
| StopSafety.StopWaitIsBounded | stonex-cms-amqp/stonex-cms-amqp-lib/stonex-cms-amqp-cpp/MessageConsumerImpl.cpp:126-140 | however proton is scheduled, a stop waits for a bounded number of steps other than deliveries, and once it drains, deliveries are bounded by the credit |
| StopSafety.StopMakesProgress | stonex-cms-amqp/stonex-cms-amqp-lib/stonex-cms-amqp-cpp/MessageConsumerImpl.cpp:126-140 | while a stop waits, a step of proton other than a delivery is always enabled |
| StopSafety.ClosedIsAbsorbing | stonex-cms-amqp/stonex-cms-amqp-lib/stonex-cms-amqp-cpp/MessageConsumerImpl.cpp:189-198 | after the close callback: pointer null, nothing queued, nothing delivered, start and stop throw and close does not, over every later run |
| ReceiverProtocol.InvStep | stonex-cms-amqp/stonex-cms-amqp-lib/stonex-cms-amqp-cpp/MessageConsumerImpl.cpp:109-246 | every step of the application or of proton keeps the invariant that ties state, queue, link, credit and drain together |
| ReceiverProtocol.ReachableInv | stonex-cms-amqp/stonex-cms-amqp-lib/stonex-cms-amqp-cpp/MessageConsumerImpl.cpp:43-60 | hence every state reachable from a new consumer satisfies it |
| MessageConsumers.MessageConsumer.constructor | stonex-cms-amqp/stonex-cms-amqp-lib/stonex-cms-amqp-cpp/MessageConsumerImpl.cpp:43-60 | the constructor returns once its link is open: stopped, empty queue, no credit |
| MessageConsumers.MessageConsumer.Start | stonex-cms-amqp/stonex-cms-amqp-lib/stonex-cms-amqp-cpp/MessageConsumerImpl.cpp:109-124 | is the start step of the protocol, and adds ten to the credit held, withheld and queued; throws exactly on a null queue, changing nothing |
| MessageConsumers.MessageConsumer.Stop | stonex-cms-amqp/stonex-cms-amqp-lib/stonex-cms-amqp-cpp/MessageConsumerImpl.cpp:126-140 | terminates; is a run of the protocol from the stop request to its return; quiet afterwards if the guard held |
| MessageConsumers.MessageConsumer.Close | stonex-cms-amqp/stonex-cms-amqp-lib/stonex-cms-amqp-cpp/MessageConsumerImpl.cpp:142-163 | terminates, never throws, and leaves the pointer null; on a closed consumer it changes nothing |
| MessageConsumers.MessageConsumer.Destroy | stonex-cms-amqp/stonex-cms-amqp-lib/stonex-cms-amqp-cpp/MessageConsumerImpl.cpp:62-65 | the destructor closes, whatever was closed before |
| MessageConsumers.MessageConsumer.AwaitStopped | stonex-cms-amqp/stonex-cms-amqp-lib/stonex-cms-amqp-cpp/MessageConsumerImpl.cpp:126-140 | the wait of stop ends, as a run of proton steps, with the state STOPPED |
| MessageConsumers.MessageConsumer.AwaitClosed | stonex-cms-amqp/stonex-cms-amqp-lib/stonex-cms-amqp-cpp/MessageConsumerImpl.cpp:142-163 | the wait of close ends, as a run of proton steps, with the close callback |
| MessageConsumers.MessageConsumer.ProtonStep | stonex-cms-amqp/stonex-cms-amqp-lib/stonex-cms-amqp-cpp/MessageConsumerImpl.cpp:165-246 | one enabled step of proton, keeping the invariant, with a measure that falls unless a message is delivered |
| MessageConsumers.MessageConsumer.ProtonRun | stonex-cms-amqp/stonex-cms-amqp-lib/stonex-cms-amqp-cpp/MessageConsumerImpl.cpp:165-246 | what proton does with a consumer while the application waits elsewhere is a run of its steps, of any length |
| MessageConsumers.MessageConsumer.OnReceiverOpen | stonex-cms-amqp/stonex-cms-amqp-lib/stonex-cms-amqp-cpp/MessageConsumerImpl.cpp:165-187 | the first open leaves the consumer stopped |
| MessageConsumers.MessageConsumer.OnReceiverClose | stonex-cms-amqp/stonex-cms-amqp-lib/stonex-cms-amqp-cpp/MessageConsumerImpl.cpp:189-198 | the pointer becomes null and the state CLOSED |
| MessageConsumers.MessageConsumer.OnReceiverDrainFinish | stonex-cms-amqp/stonex-cms-amqp-lib/stonex-cms-amqp-cpp/MessageConsumerImpl.cpp:217-223 | the drain ends and the state becomes STOPPED |
| MessageConsumers.MessageConsumer.OnMessage | stonex-cms-amqp/stonex-cms-amqp-lib/stonex-cms-amqp-cpp/MessageConsumerImpl.cpp:226-246 | one credit is used, and given back unless the receiver drains |
| SenderProtocol.ExactlyOnceInOrder | stonex-cms-amqp/stonex-cms-amqp-lib/stonex-cms-amqp-cpp/MessageProducerImpl.cpp:131-138 | in every reachable state, messages handed to the sender followed by those queued are the accepted sends in order, and each callback follows its own message once |
| SenderProtocol.LogShowsEachSend | stonex-cms-amqp/stonex-cms-amqp-lib/stonex-cms-amqp-cpp/MessageProducerImpl.cpp:136-138 | the log of what proton did, entry by entry: each message handed over, in order, and directly behind it its own callback if it has one, and nothing else |
| SenderProtocol.EachSendHasItsPermit | stonex-cms-amqp/stonex-cms-amqp-lib/stonex-cms-amqp-cpp/MessageProducerImpl.cpp:131-138 | over any stretch of a run, accepted sends are at most the sendable callbacks in it plus the permit left from before |
| SenderProtocol.CloseNeverOvertakes | stonex-cms-amqp/stonex-cms-amqp-lib/stonex-cms-amqp-cpp/MessageProducerImpl.cpp:150-171 | when the link is closing or closed, exactly the sends accepted before the close call have been handed over |
| SenderProtocol.HistoryGrows | stonex-cms-amqp/stonex-cms-amqp-lib/stonex-cms-amqp-cpp/MessageProducerImpl.cpp:100-148 | what was accepted, sent or logged stays a prefix of what will be |
| SenderProtocol.ClosedIsAbsorbing | stonex-cms-amqp/stonex-cms-amqp-lib/stonex-cms-amqp-cpp/MessageProducerImpl.cpp:211-222 | after the close callback nothing is queued, accepted or sent any more, every send throws and close does not |
| SenderProtocol.CloseMakesProgress | stonex-cms-amqp/stonex-cms-amqp-lib/stonex-cms-amqp-cpp/MessageProducerImpl.cpp:150-171 | while a close waits, proton can always take a step |
| SenderProtocol.InvStep | stonex-cms-amqp/stonex-cms-amqp-lib/stonex-cms-amqp-cpp/MessageProducerImpl.cpp:51-222 | every step keeps the lifecycle invariant of the producer |
| SenderProtocol.OrderedStep | stonex-cms-amqp/stonex-cms-amqp-lib/stonex-cms-amqp-cpp/MessageProducerImpl.cpp:131-138 | every step keeps the order of accepted sends |
| MessageProducers.MessageProducer.constructor | stonex-cms-amqp/stonex-cms-amqp-lib/stonex-cms-amqp-cpp/MessageProducerImpl.cpp:51-68 | the constructor returns once its link is open, with nothing accepted |
| MessageProducers.MessageProducer.Send | stonex-cms-amqp/stonex-cms-amqp-lib/stonex-cms-amqp-cpp/MessageProducerImpl.cpp:100-148 | the message is cloned and stamped, field by field as for `Prepare`, before the queue is looked at; accepted, with its callback, exactly if the pointer is not null, after a wait for the permit; otherwise nothing changes |
| MessageProducers.MessageProducer.AwaitPermit | stonex-cms-amqp/stonex-cms-amqp-lib/stonex-cms-amqp-cpp/MessageProducerImpl.cpp:133-134 | the wait for the permit is a run of proton steps that accepts nothing |
| MessageProducers.MessageProducer.Close | stonex-cms-amqp/stonex-cms-amqp-lib/stonex-cms-amqp-cpp/MessageProducerImpl.cpp:150-171 | terminates, never throws; everything accepted has been handed over first |
| MessageProducers.MessageProducer.Destroy | stonex-cms-amqp/stonex-cms-amqp-lib/stonex-cms-amqp-cpp/MessageProducerImpl.cpp:70-73 | the destructor closes, whatever was closed before |
| MessageProducers.MessageProducer.ProtonRun | stonex-cms-amqp/stonex-cms-amqp-lib/stonex-cms-amqp-cpp/MessageProducerImpl.cpp:131-180 | what proton does with a producer while the application waits elsewhere is a run of its steps, of any length, that accepts nothing and leaves the state |
| MessageProducers.MessageProducer.OnSendable | stonex-cms-amqp/stonex-cms-amqp-lib/stonex-cms-amqp-cpp/MessageProducerImpl.cpp:173-180 | the callback grants the permit |
| MessageProducers.MessageProducer.OnSenderOpen | stonex-cms-amqp/stonex-cms-amqp-lib/stonex-cms-amqp-cpp/MessageProducerImpl.cpp:182-204 | the first open leaves the producer stopped |
| MessageProducers.MessageProducer.OnSenderClose | stonex-cms-amqp/stonex-cms-amqp-lib/stonex-cms-amqp-cpp/MessageProducerImpl.cpp:211-222 | the pointer becomes null and the state CLOSED |
| Teardown.TeardownInAnyOrder | stonex-cms-amqp/stonex-cms-amqp-lib/stonex-cms-amqp-cpp/SessionImpl.cpp:102-127 | over any run of calls, destructors and creations on a connection with any number of sessions, consumers and producers: no close or destructor throws, and a node is still open at the end if and only if it was open and nothing closed it or a node above it |
| Teardown.CloseRequestsAreOrderly | stonex-cms-amqp/stonex-cms-amqp-lib/stonex-cms-amqp-cpp/ConnectionImpl.cpp:84-110 | over any run from a new connection, the close request of a node is queued exactly once if the node ends closed, never otherwise, and after the requests of everything below it |
| Teardown.ClosedIsAbsorbing | stonex-cms-amqp/stonex-cms-amqp-lib/stonex-cms-amqp-cpp/SessionImpl.cpp:170-206 | a node without a queue never gets one again, its close is never requested again, nothing is ever added below it or open below it, and calls that need the queue throw, whatever start and stop wrote into the state field |
| Teardown.DroppedForGood | stonex-cms-amqp/stonex-cms-amqp-lib/stonex-cms-amqp-cpp/SessionImpl.cpp:72-75 | once the last handle of a node is gone, no run calls it again or brings the handle back |
| Teardown.HandleStep | stonex-cms-amqp/stonex-cms-amqp-lib/stonex-cms-amqp-cpp/SessionImpl.cpp:72-75 | only the destructor takes a node's last handle, and it takes no other's |
| Teardown.StateIsOverwritten | stonex-cms-amqp/stonex-cms-amqp-lib/stonex-cms-amqp-cpp/SessionImpl.cpp:77-87 | a closed session that is started again reads STARTED and still refuses children |
| Teardown.StepAny | stonex-cms-amqp/stonex-cms-amqp-lib/stonex-cms-amqp-cpp/ConnectionImpl.cpp:84-110 | one step of any kind closes exactly what it covers, each once and children first, and keeps the tree well formed |
| Teardown.LogRun | stonex-cms-amqp/stonex-cms-amqp-lib/stonex-cms-amqp-cpp/ConnectionImpl.cpp:84-110 | the order of close requests is kept by every run from every well-formed tree |
| LifecycleTree.CloseAt | stonex-cms-amqp/stonex-cms-amqp-lib/stonex-cms-amqp-cpp/SessionImpl.cpp:102-127 | closing any node of a well-formed tree succeeds, closes exactly that node and what is below it, and requests them in this order: session by session, the consumers in theirs, then the producers, then the session, the connection last |
| LifecycleTree.CloseRoot | stonex-cms-amqp/stonex-cms-amqp-lib/stonex-cms-amqp-cpp/ConnectionImpl.cpp:84-110 | closing the connection closes every open node, requesting each exactly once, the connection last |
| LifecycleTree.CloseBranch | stonex-cms-amqp/stonex-cms-amqp-lib/stonex-cms-amqp-cpp/SessionImpl.cpp:102-127 | closing a session closes every child, the consumers in order before the producers in order before the session |
| FanOut.StartStopFanOut | stonex-cms-amqp/stonex-cms-amqp-lib/stonex-cms-amqp-cpp/ConnectionImpl.cpp:55-82 | start and stop succeed if and only if no live session has a live closed consumer (and start: the state is not CLOSED); then every live session and consumer has the new state and nothing else has changed; otherwise the connection keeps its state |
| FanOut.SessionFanOut | stonex-cms-amqp/stonex-cms-amqp-lib/stonex-cms-amqp-cpp/SessionImpl.cpp:77-100 | the same for one session |
| FanOut.StopAfterStart | stonex-cms-amqp/stonex-cms-amqp-lib/stonex-cms-amqp-cpp/ConnectionImpl.cpp:55-82 | starting and then stopping leaves exactly the tree that stopping alone leaves |
| Sessions.Session.constructor | stonex-cms-amqp/stonex-cms-amqp-lib/stonex-cms-amqp-cpp/SessionImpl.cpp:53-70 | the constructor returns once the session is open: stopped, no children |
| Sessions.Session.Start | stonex-cms-amqp/stonex-cms-amqp-lib/stonex-cms-amqp-cpp/SessionImpl.cpp:77-87 | does to the tree what the model of start says; each live consumer takes its start step, up to the first that throws |
| Sessions.Session.Stop | stonex-cms-amqp/stonex-cms-amqp-lib/stonex-cms-amqp-cpp/SessionImpl.cpp:89-100 | succeeds exactly if the model of stop does, and then does to the tree exactly what it says; each live consumer is stopped, and quiet if its guard held, while proton serves the others; if a consumer throws, those behind it may have finished a leftover drain |
| Sessions.Session.Close | stonex-cms-amqp/stonex-cms-amqp-lib/stonex-cms-amqp-cpp/SessionImpl.cpp:102-127 | terminates, never throws, and does to the tree what the model of close says; nothing on a null queue |
| Sessions.Session.CloseChildren | stonex-cms-amqp/stonex-cms-amqp-lib/stonex-cms-amqp-cpp/SessionImpl.cpp:108-122 | the two loops leave every child without a queue |
| Sessions.Session.AwaitClosed | stonex-cms-amqp/stonex-cms-amqp-lib/stonex-cms-amqp-cpp/SessionImpl.cpp:123-124 | the own close is queued only when every child is closed, and the wait for its callback ends |
| Sessions.Session.CallConsumers | stonex-cms-amqp/stonex-cms-amqp-lib/stonex-cms-amqp-cpp/SessionImpl.cpp:79-85 | the loop over the weak pointers: every live consumer has its turn in order, or the first that throws ends it; the others undergo runs of proton while a turn waits |
| Sessions.Session.CloseProducers | stonex-cms-amqp/stonex-cms-amqp-lib/stonex-cms-amqp-cpp/SessionImpl.cpp:116-122 | entered when every consumer is closed, the loop closes every producer that is alive, while proton serves the others |
| Sessions.Session.Destroy | stonex-cms-amqp/stonex-cms-amqp-lib/stonex-cms-amqp-cpp/SessionImpl.cpp:72-75 | the destructor closes, whatever was closed before |
| Sessions.Session.CreateConsumer | stonex-cms-amqp/stonex-cms-amqp-lib/API/CMSSession.cpp:89-98 | throws exactly if the state is CLOSED or the queue is null; otherwise adds one new, stopped consumer; the others are served while it waits |
| Sessions.Session.Serve | stonex-cms-amqp/stonex-cms-amqp-lib/stonex-cms-amqp-cpp/MessageConsumerImpl.cpp:165-246 | proton serves every child of the session for any number of steps: each undergoes a run of its own steps, the session stays valid, and in the tree at most open consumers become STOPPED |
| Sessions.Session.CreateProducer | stonex-cms-amqp/stonex-cms-amqp-lib/API/CMSSession.cpp:129-139 | throws exactly if the state is CLOSED or the queue is null; otherwise adds one new producer; the others are served while it waits |
| Sessions.Session.ThroughConsumer | stonex-cms-amqp/stonex-cms-amqp-lib/stonex-cms-amqp-cpp/MessageConsumerImpl.cpp:109-163 | a call through the client's own handle changes that consumer as the model says, and of the others at most ends leftover drains; a start changes nothing else |
| Sessions.Session.ThroughProducer | stonex-cms-amqp/stonex-cms-amqp-lib/stonex-cms-amqp-cpp/MessageProducerImpl.cpp:150-171 | closing through the client's own handle closes that producer, and of the consumers at most ends leftover drains |
| ConsumerLoop.LoopRefinesEach | stonex-cms-amqp/stonex-cms-amqp-lib/stonex-cms-amqp-cpp/SessionImpl.cpp:77-100 | the loop over consumer objects succeeds exactly if the loop of the tree does, and does the same to the tree: exactly if it succeeds or does not wait, otherwise but for leftover drains that ended before the exception |
| Meanwhile.SettledCall | stonex-cms-amqp/stonex-cms-amqp-lib/stonex-cms-amqp-cpp/SessionImpl.cpp:89-127 | stopping or closing a session does the same, exceptions included, before and after leftover drains have ended in it |
| SessionLoop.SessionsRefineEach | stonex-cms-amqp/stonex-cms-amqp-lib/stonex-cms-amqp-cpp/ConnectionImpl.cpp:55-110 | the same for the loop over session objects and the whole tree |
| Connections.Connection.constructor | stonex-cms-amqp/stonex-cms-amqp-lib/stonex-cms-amqp-cpp/ConnectionImpl.cpp:36-47 | waits until proton reports, and returns with an open, stopped connection, or with a closed one if that is what was reported |
| Connections.Connection.Start | stonex-cms-amqp/stonex-cms-amqp-lib/stonex-cms-amqp-cpp/ConnectionImpl.cpp:55-70 | does to the tree what the model of start says, and to the consumers of every live session what the session loop says |
| Connections.Connection.Stop | stonex-cms-amqp/stonex-cms-amqp-lib/stonex-cms-amqp-cpp/ConnectionImpl.cpp:72-82 | succeeds exactly if the model of stop does, and then does to the tree exactly what it says, and to the consumers of every live session what the session loop says, while proton serves all the others |
| Connections.Connection.Close | stonex-cms-amqp/stonex-cms-amqp-lib/stonex-cms-amqp-cpp/ConnectionImpl.cpp:84-110 | terminates, never throws, and does to the tree what the model of close says |
| Connections.Connection.AwaitClosed | stonex-cms-amqp/stonex-cms-amqp-lib/stonex-cms-amqp-cpp/ConnectionImpl.cpp:107-108 | the own close is queued only when every session is closed, and the wait for the transport to close ends |
| Connections.Connection.CallSessions | stonex-cms-amqp/stonex-cms-amqp-lib/stonex-cms-amqp-cpp/ConnectionImpl.cpp:62-68 | the nested loop: every live session has its turn in order, or the first that throws ends it; the others are served while a turn waits |
| Connections.Connection.Destroy | stonex-cms-amqp/stonex-cms-amqp-lib/stonex-cms-amqp-cpp/ConnectionImpl.cpp:49-52 | the destructor closes, whatever was closed before |
| Connections.Connection.CreateSession | stonex-cms-amqp/stonex-cms-amqp-lib/API/CMSConnection.cpp:67-74 | throws exactly on a null queue; otherwise adds one new, stopped session; the others are served while it waits |
| Connections.Connection.ServeSessions | stonex-cms-amqp/stonex-cms-amqp-lib/stonex-cms-amqp-cpp/MessageConsumerImpl.cpp:165-246 | proton serves every session for any number of steps: each child undergoes a run of its own steps, all stay valid, and in the tree at most open consumers become STOPPED |
| Connections.Connection.ThroughSession | stonex-cms-amqp/stonex-cms-amqp-lib/stonex-cms-amqp-cpp/SessionImpl.cpp:77-127 | a call through the client's own handle on a session does to it what the model says, and to the others at most ends leftover drains; a start changes nothing else |
| SessionLoop.StartRefillsEveryone | stonex-cms-amqp/stonex-cms-amqp-lib/stonex-cms-amqp-cpp/ConnectionImpl.cpp:55-70 | a successful start adds exactly one request of ten credits to each live consumer of each live session and starts it |
| SessionLoop.StopQuietsEveryone | stonex-cms-amqp/stonex-cms-amqp-lib/stonex-cms-amqp-cpp/ConnectionImpl.cpp:72-82 | a successful stop leaves every live consumer of a live session stopped, and without credit, held or to come, if it met the guard, whatever proton did with it and the others while the loop waited |
| MessageIds.MessageIdRoundTripsIff | stonex-cms-amqp/stonex-cms-amqp-lib/stonex-cms-amqp-cpp/AMQPCMSMessageConverter.cpp:891-951 | printing a wire id and parsing it restores the id with its type, whatever the message held before, if and only if it is a uuid, a ulong up to the limit, a binary of at most 8 bytes below 2^63, or a string that does not begin with the bare tag stem (no id at all is not restored) |
| MessageIds.StringSurvivesIff | stonex-cms-amqp/stonex-cms-amqp-lib/stonex-cms-amqp-cpp/AMQPCMSMessageConverter.cpp:891-937 | the string case: exactly those not beginning `ID:AMQP_NO_PREFIX` without a colon next |
| MessageIds.PrintingIsInjective | stonex-cms-amqp/stonex-cms-amqp-lib/stonex-cms-amqp-cpp/AMQPCMSMessageConverter.cpp:891-923 | two different wire ids of any type and size, no id included, never print to the same text |
| MessageIds.CorrelationIdRoundTripsIff | stonex-cms-amqp/stonex-cms-amqp-lib/stonex-cms-amqp-cpp/AMQPCMSMessageConverter.cpp:784-843 | the wire round trip of correlation ids, exactly: uuids, ulongs in range, binaries that fit, and the untagged strings |
| MessageIds.CorrelationTextRoundTripsIff | stonex-cms-amqp/stonex-cms-amqp-lib/stonex-cms-amqp-cpp/AMQPCMSMessageConverter.cpp:784-843 | a correlation text comes back unchanged, whatever the message held before, if and only if it carries no tag, or is `ID:AMQP_BINARY:` with the upper-case hex of bytes that fit, or `ID:AMQP_UUID:` with the canonical text of sixteen bytes, or `ID:AMQP_ULONG:` with the decimal text of a value up to the limit |
| MessageIds.TaggedTextGainsATag | stonex-cms-amqp/stonex-cms-amqp-lib/stonex-cms-amqp-cpp/AMQPCMSMessageConverter.cpp:791-794 | a text with one of the string tags comes back with `ID:AMQP_AMQP_STRING:` in front |
| MessageIds.ParseOfTag | stonex-cms-amqp/stonex-cms-amqp-lib/stonex-cms-amqp-cpp/AMQPCMSMessageConverter.cpp:396-448 | each tag parses to its type, with the payload right behind the colon |
| MessageIds.ParseOfBareStem | stonex-cms-amqp/stonex-cms-amqp-lib/stonex-cms-amqp-cpp/AMQPCMSMessageConverter.cpp:398-445 | the stem without its colon parses to no type or to a position out of range |
| MessageIds.UntaggedIsString | stonex-cms-amqp/stonex-cms-amqp-lib/stonex-cms-amqp-cpp/AMQPCMSMessageConverter.cpp:431-438 | a text without a tag is a string and is kept whole |
| MessageIds.PrintedIds | stonex-cms-amqp/stonex-cms-amqp-lib/stonex-cms-amqp-cpp/AMQPCMSMessageConverter.cpp:784-817 | the printed texts letter for letter, message ids and correlation ids, for each type |
| MessageIds.SetTaggedText | stonex-cms-amqp/stonex-cms-amqp-lib/stonex-cms-amqp-cpp/AMQPCMSMessageConverter.cpp:926-937 | behind either string tag a message id is stored without the tag, a correlation id with it |
| MessageIds.SetTypedText | stonex-cms-amqp/stonex-cms-amqp-lib/stonex-cms-amqp-cpp/AMQPCMSMessageConverter.cpp:938-946 | behind the other tags both setters store what the decoder makes of the rest, or throw what it throws |
| MessageIds.SetBareStem | stonex-cms-amqp/stonex-cms-amqp-lib/stonex-cms-amqp-cpp/AMQPCMSMessageConverter.cpp:398-445 | behind the stem without its colon, nothing is set if a colon follows further on, and the setter throws if none does |
| MessageConverters.SetAMQPMessageID | stonex-cms-amqp/stonex-cms-amqp-lib/stonex-cms-amqp-cpp/AMQPCMSMessageConverter.cpp:926-951 | writes into the message exactly the id that the round-trip results are about, or throws and leaves the message as it was |
| MessageConverters.SetAMQPCorrelationID | stonex-cms-amqp/stonex-cms-amqp-lib/stonex-cms-amqp-cpp/AMQPCMSMessageConverter.cpp:818-843 | the same for the correlation id |
| HexDecoder.BinaryDecodesExactly | stonex-cms-amqp/stonex-cms-amqp-lib/stonex-cms-amqp-cpp/AMQPCMSMessageConverter.cpp:493-525 | for an even number of hex digits, at most sixteen: the bytes of the pairs if the value is below 2^63, out of range otherwise |
| HexDecoder.BinaryRoundTripsIffFits | stonex-cms-amqp/stonex-cms-amqp-lib/stonex-cms-amqp-cpp/AMQPCMSMessageConverter.cpp:493-535 | decoding what was printed gives the bytes back if and only if there are at most eight and their value is below 2^63 |
| HexDecoder.HexStringToBinaryArray | stonex-cms-amqp/stonex-cms-amqp-lib/stonex-cms-amqp-cpp/AMQPCMSMessageConverter.cpp:493-525 | the loop over the text computes the decoding that the other results are about |
| HexDecoder.HexStringToArray | stonex-cms-amqp/stonex-cms-amqp-lib/stonex-cms-amqp-cpp/AMQPCMSMessageConverter.cpp:450-491 | the loop over the uuid text fills sixteen bytes and computes the decoding that the other results are about |
| HexDecoder.DecodeInto | stonex-cms-amqp/stonex-cms-amqp-lib/stonex-cms-amqp-cpp/AMQPCMSMessageConverter.cpp:464-490 | the shared loop: `stoll`, advance, store; no store outside the buffer unless the result says so |
| HexDecoder.StoreBytes | stonex-cms-amqp/stonex-cms-amqp-lib/stonex-cms-amqp-cpp/AMQPCMSMessageConverter.cpp:509-510 | the shift-and-store loop writes the big-endian digits of the value and nothing else |
| HexDecoder.BinaryArrayToHexString | stonex-cms-amqp/stonex-cms-amqp-lib/stonex-cms-amqp-cpp/AMQPCMSMessageConverter.cpp:527-535 | prints every byte as its high and its low digit out of `0123456789ABCDEF` |
| HexDecoder.OddTextIsRefused | stonex-cms-amqp/stonex-cms-amqp-lib/stonex-cms-amqp-cpp/AMQPCMSMessageConverter.cpp:495-496 | exactly the texts of odd length are refused for their length |
| HexDecoder.UuidShapes | stonex-cms-amqp/stonex-cms-amqp-lib/stonex-cms-amqp-cpp/AMQPCMSMessageConverter.cpp:453-456 | exactly the texts with dashes in their four places and otherwise hex digits or blanks get past the uuid pattern |
| HexDecoder.UuidTextIsLower | stonex-cms-amqp/stonex-cms-amqp-lib/stonex-cms-amqp-cpp/AMQPCMSMessageConverter.cpp:798-801 | the text of a uuid has lower-case digits, and dashes exactly in their four places |
| HexDecoder.UuidDecodes | stonex-cms-amqp/stonex-cms-amqp-lib/stonex-cms-amqp-cpp/AMQPCMSMessageConverter.cpp:450-491 | every 8-4-4-4-12 text of hex digits, of either case, decodes to the sixteen bytes its digits spell |
| HexDecoder.UuidRoundTrips | stonex-cms-amqp/stonex-cms-amqp-lib/stonex-cms-amqp-cpp/AMQPCMSMessageConverter.cpp:450-491 | printing sixteen bytes as a uuid and decoding gives them back |
| HexDecoder.UuidTextOfDecoded | stonex-cms-amqp/stonex-cms-amqp-lib/stonex-cms-amqp-cpp/AMQPCMSMessageConverter.cpp:450-491 | decoding a uuid text and printing gives the same text in lower case |
| NumberText.BigEndianAt | stonex-cms-amqp/stonex-cms-amqp-lib/stonex-cms-amqp-cpp/AMQPCMSMessageConverter.cpp:509-510 | byte i of the stored value is the value shifted right by the bytes behind it, for any number of bytes |
| NumberText.StoredBytesAreTheDigitPairs | stonex-cms-amqp/stonex-cms-amqp-lib/stonex-cms-amqp-cpp/AMQPCMSMessageConverter.cpp:507-510 | the stored bytes are the pairs of hex digits, for any number of digits |
| NumberText.StollReadsDigits | stonex-cms-amqp/stonex-cms-amqp-lib/stonex-cms-amqp-cpp/AMQPCMSMessageConverter.cpp:507-508 | `stoll` base 16 on digits followed by something else: their value and count, or out of range |
| NumberText.StollReads | stonex-cms-amqp/stonex-cms-amqp-lib/stonex-cms-amqp-cpp/AMQPCMSMessageConverter.cpp:507-508 | behind white space, a sign and `0x`, all hex digits are read; the value has the sign |
| NumberText.StollNeedsDigits | stonex-cms-amqp/stonex-cms-amqp-lib/stonex-cms-amqp-cpp/AMQPCMSMessageConverter.cpp:507-508 | where no digit follows, `stoll` throws |
| NumberText.HexTextAt | stonex-cms-amqp/stonex-cms-amqp-lib/stonex-cms-amqp-cpp/AMQPCMSMessageConverter.cpp:532-532 | byte k is printed as its two digits, in the case that was asked for |
| NumberText.HexTextCase | stonex-cms-amqp/stonex-cms-amqp-lib/stonex-cms-amqp-cpp/AMQPCMSMessageConverter.cpp:532-532 | no letter of the other case is ever printed |
| NumberText.FitsInt64 | stonex-cms-amqp/stonex-cms-amqp-lib/stonex-cms-amqp-cpp/AMQPCMSMessageConverter.cpp:507-508 | sixteen digits fit exactly if the first one is below 8 |
| NumberText.StoulReadsDecimalText | stonex-cms-amqp/stonex-cms-amqp-lib/stonex-cms-amqp-cpp/AMQPCMSMessageConverter.cpp:944-944 | `stoul` reads a printed ulong back exactly up to its limit |
| NumberText.StoulReads | stonex-cms-amqp/stonex-cms-amqp-lib/stonex-cms-amqp-cpp/AMQPCMSMessageConverter.cpp:944-944 | `stoul` on white space, a sign, digits and anything else: the value, negated in unsigned arithmetic behind a minus sign, or the exception |
| NumberText.DecimalTextAt | stonex-cms-amqp/stonex-cms-amqp-lib/stonex-cms-amqp-cpp/AMQPCMSMessageConverter.cpp:806-809 | a ulong is printed in decimal: digit i from the right is n / 10^i % 10, without leading zeros |
| BytesStream.StreamRefinesFifo | stonex-cms-amqp/stonex-cms-amqp-lib/API/CMSBytesMessage.h:145-171 | for any interleaving of writes, resets and reads of the matching type, the buffer with its cursor gives every result that a queue of typed values gives, end of file included |
| BytesStream.ReadingReturnsTheRest | stonex-cms-amqp/stonex-cms-amqp-lib/API/CMSBytesMessage.h:156-171 | reading what is left returns it in order |
| BytesStream.CursorStaysInBodyIff | stonex-cms-amqp/stonex-cms-amqp-lib/API/CMSBytesMessage.h:156-171 | over any run, the cursor is inside the body after every step if and only if no read starts inside the body and ends outside it |
| BytesStream.MatchingReadsStayInBody | stonex-cms-amqp/stonex-cms-amqp-lib/API/CMSBytesMessage.h:156-171 | in particular if every read asks for the type of the value that is next |
| BytesStream.ReadPastTheEnd | stonex-cms-amqp/stonex-cms-amqp-lib/API/CMSBytesMessage.h:156-171 | an int read from a body of one byte throws nothing and leaves the cursor at 4 |
| BytesStream.DecodeInvertsEncode | stonex-cms-amqp/stonex-cms-amqp-lib/API/CMSBytesMessage.h:145-171 | every fixed-width value in the range of its type is read back from its own bytes |
| BytesStream.EncodeIsLaidOut | stonex-cms-amqp/stonex-cms-amqp-lib/API/CMSBytesMessage.h:145-154 | the bytes of a value: byte i of an integer is n / 256^i % 256, least significant first; a flag is the single byte 1 or 0; a floating-point value its own bits |
| BytesStream.DecodeIsLaidOut | stonex-cms-amqp/stonex-cms-amqp-lib/API/CMSBytesMessage.h:156-171 | a value read from bytes is in the range of its type and has exactly those bytes; any byte but zero is true |
| BytesStream.Widths | stonex-cms-amqp/stonex-cms-amqp-lib/API/CMSBytesMessage.cpp:355-490 | 1 byte for bool, byte and char, 2 for the shorts, 4 for int and float, 8 for long and double |
| Messages.EndToEnd | stonex-cms-amqp/stonex-cms-amqp-lib/stonex-cms-amqp-cpp/MessageProducerImpl.cpp:102-129 | values written to a bytes message, sent (cloned, stamped, body put into the proton message), and received into a new bytes message are read back in order with their types |
| Messages.BytesMessage.Set | stonex-cms-amqp/stonex-cms-amqp-lib/API/CMSBytesMessage.h:145-154 | appends exactly the bytes of the value, laid out as above, and leaves what was there and the cursor |
| Messages.BytesMessage.Get | stonex-cms-amqp/stonex-cms-amqp-lib/API/CMSBytesMessage.h:156-171 | throws exactly at the end of the body, without moving the cursor; otherwise moves it by the width of the type, even past the end, and returns the value whose bytes lie there, or an unspecified one if some of them lie behind the body |
| Messages.BytesMessage.Copy | stonex-cms-amqp/stonex-cms-amqp-lib/API/CMSBytesMessage.cpp:45-51 | a fresh proton message with the same data, the same body, and a cursor of its own at the start |
| Messages.BytesMessage.Receive | stonex-cms-amqp/stonex-cms-amqp-lib/API/CMSBytesMessage.cpp:59-91 | a fresh proton message with the body taken out of it |
| Messages.BytesMessage.Clone | stonex-cms-amqp/stonex-cms-amqp-lib/API/CMSBytesMessage.cpp:514-517 | shares nothing with the original |
| Messages.BytesMessage.Message | stonex-cms-amqp/stonex-cms-amqp-lib/API/CMSBytesMessage.cpp:519-523 | the body is put into the proton message |
| Messages.TextMessage.Copy | stonex-cms-amqp/stonex-cms-amqp-lib/API/CMSTextMessage.cpp:34-39 | a fresh proton message with the same data |
| Messages.TextMessage.Clone | stonex-cms-amqp/stonex-cms-amqp-lib/API/CMSTextMessage.cpp:98-101 | shares nothing with the original |
| Messages.TextMessage.constructor | stonex-cms-amqp/stonex-cms-amqp-lib/API/CMSTextMessage.cpp:41-48 | a fresh proton message with the text, no id, durable, default priority |
| Messages.PlainMessage.Clone | stonex-cms-amqp/stonex-cms-amqp-lib/API/CMSMessage.cpp:108-111 | shares the proton message with the original |
| Messages.FromCmsMessage | stonex-cms-amqp/stonex-cms-amqp-lib/stonex-cms-amqp-cpp/MessageProducerImpl.cpp:303-326 | the proton message of the wrapper, with the body of a bytes message put in |
| Messages.Prepare | stonex-cms-amqp/stonex-cms-amqp-lib/stonex-cms-amqp-cpp/MessageProducerImpl.cpp:102-129 | what is queued is a fresh message, unless the message is plain; it keeps its own id, or gets `ID:` and the lower-case text of the generated uuid unless ids are disabled; its own destination, else the one given, else the default; a positive time to live sets it and the expiry, any other leaves both; the time is now unless disabled; durable means persistent; the priority is cut to 0 to 9; body and correlation id are the caller's |
| Messages.GeneratedIdIsPlain | stonex-cms-amqp/stonex-cms-amqp-lib/stonex-cms-amqp-cpp/AMQPIDGenerator.cpp:24-32 | a generated id carries no tag, so it is stored unchanged as a string |
| MessageIsolation.SentMessagesNeverChange | stonex-cms-amqp/stonex-cms-amqp-lib/stonex-cms-amqp-cpp/MessageProducerImpl.cpp:100-138 | over any run of creating, changing, cloning, sending, re-sending and deleting text and bytes messages, every captured message keeps the content it was sent with |
| MessageIsolation.SendIsolatesIff | stonex-cms-amqp/stonex-cms-amqp-lib/stonex-cms-amqp-cpp/MessageProducerImpl.cpp:100-138 | a send keeps captured messages apart from every handle if and only if the message is not a plain one |
| MessageIsolation.SendLeavesTheCallersMessage | stonex-cms-amqp/stonex-cms-amqp-lib/stonex-cms-amqp-cpp/MessageProducerImpl.cpp:100-138 | sending changes no handle and no content behind a handle, unless the message is plain |
| MessageIsolation.PlainMessageIsShared | stonex-cms-amqp/stonex-cms-amqp-lib/API/CMSMessage.cpp:42-47 | changing a plain message after sending it changes the captured message |
| Clients.Client.Send | stonex-cms-amqp/stonex-cms-amqp-lib/stonex-cms-amqp-cpp/MessageProducerImpl.cpp:100-148 | with real message objects and a real producer, a send is the store's send step if accepted, and otherwise only stamps a plain message; unless the message is plain, no accepted message becomes reachable from a message object or changes |
| Clients.Client.Change | stonex-cms-amqp/stonex-cms-amqp-lib/stonex-cms-amqp-cpp/AMQPCMSMessageConverter.cpp:926-951 | any setter on a message object is one change step of the store, and reaches no accepted message |
| Clients.Client.ChangeBody | stonex-cms-amqp/stonex-cms-amqp-lib/API/CMSBytesMessage.cpp:324-329 | replacing the body of a bytes message is one step of the store, and reaches no accepted message |
| Clients.Client.Clone | stonex-cms-amqp/stonex-cms-amqp-lib/API/CMSBytesMessage.cpp:514-517 | cloning a message object, of any of the three kinds, is one clone step of the store |
| Clients.Client.Add | stonex-cms-amqp/stonex-cms-amqp-lib/API/CMSTextMessage.cpp:41-48 | a new message object is one new step of the store |
| Clients.Client.Delete | stonex-cms-amqp/stonex-cms-amqp-lib/API/CMSBytesMessage.h:49-49 | dropping a message object is one delete step of the store |
| Clients.Client.ValidMeans | stonex-cms-amqp/stonex-cms-amqp-lib/stonex-cms-amqp-cpp/MessageProducerImpl.cpp:100-138 | no message object of the client shares a proton message with an accepted send, and every accepted message still holds what it held when it was sent |
| UriOptions.ScanAppliesEachOnce | stonex-cms-amqp/stonex-cms-amqp-lib/API/URIParser.cpp:82-139 | the recursion with its mode flag makes one update per option, left to right before the first grouped option and then from the end back to it |
| UriOptions.EmptyOptionIsUndefined | stonex-cms-amqp/stonex-cms-amqp-lib/API/URIParser.cpp:84-97 | an empty option behind any well-formed ones, at the end or between two others, makes the parser step in front of its text |
| UriOrder.ScanOrderIsPermutation | stonex-cms-amqp/stonex-cms-amqp-lib/API/URIParser.cpp:82-139 | that order contains every option exactly as often as it was given |
| UriOrder.ScanOrderAgrees | stonex-cms-amqp/stonex-cms-amqp-lib/API/URIParser.cpp:142-342 | with distinct keys, applying the options in that order agrees with applying them left to right: same parameters, or both throw |
| UriOrder.ScanOrderAgreesIff | stonex-cms-amqp/stonex-cms-amqp-lib/API/URIParser.cpp:82-139 | for every list of options: applying them in that order agrees with applying them left to right (same parameters, or both throw) if and only if some option throws or, for every setting, the first and the last write among the options from the first grouped one on are the same |
| UriOrder.ScannerRefinesPlainReading | stonex-cms-amqp/stonex-cms-amqp-lib/API/URIParser.cpp:82-139 | so on well-formed options the parser agrees with splitting at `&` and folding left to right exactly under that condition |
| UriOptions.ReadOptionsInvertsRender | stonex-cms-amqp/stonex-cms-amqp-lib/API/URIParser.cpp:82-139 | the plain reading recovers the options from their text |
| UriOrder.RepeatedKeyReadsBackwards | stonex-cms-amqp/stonex-cms-amqp-lib/API/URIParser.cpp:120-132 | of two grouped options that write the same setting the parser lets the first win, the plain reading the second |
| UriOrder.RepeatedTimeout | stonex-cms-amqp/stonex-cms-amqp-lib/API/URIParser.cpp:120-132 | a concrete option text, the send timeout given twice, on which the two readings differ |
| UriOrder.DistinctKeysAreIndependent | stonex-cms-amqp/stonex-cms-amqp-lib/API/URIParser.cpp:142-342 | options with different keys and no dot in their text never write the same setting |
| UriParsers.UriParser.UpdateOption | stonex-cms-amqp/stonex-cms-amqp-lib/API/URIParser.cpp:142-342 | does what the results on the single options say: writes the one setting the option names, or nothing, or throws and writes nothing |
| UriSettings.FlagOptionWrites | stonex-cms-amqp/stonex-cms-amqp-lib/API/URIParser.cpp:157-340 | for each of the fourteen flags by its group and name: `true`, letter for letter, sets exactly that setting, any other text clears it |
| UriSettings.IntOptionWrites | stonex-cms-amqp/stonex-cms-amqp-lib/API/URIParser.cpp:163-340 | for each of the twenty-four integer options by its group and name: white space, a sign and digits write exactly that number to exactly that setting, whatever follows; without digits, or outside 32 bits, it throws |
| UriSettings.IntOptionWritesNumber | stonex-cms-amqp/stonex-cms-amqp-lib/API/URIParser.cpp:163-340 | in particular the decimal text of a number, negative ones included |
| UriSettings.FloatOptionWrites | stonex-cms-amqp/stonex-cms-amqp-lib/API/URIParser.cpp:271-272 | the one floating-point option writes its own setting |
| UriSettings.UnknownOptionIsIgnored | stonex-cms-amqp/stonex-cms-amqp-lib/API/URIParser.cpp:142-342 | any other name behind any other group changes nothing |
| UriSettings.OptionWithoutSeparator | stonex-cms-amqp/stonex-cms-amqp-lib/API/URIParser.cpp:151-151 | an option without an equals sign changes nothing |
| UriSettings.CmsAloneIsUndefined | stonex-cms-amqp/stonex-cms-amqp-lib/API/URIParser.cpp:192-199 | the group `cms` on its own, with no dot in the option, steps outside the text |
| UriSettings.CmsWithDot | stonex-cms-amqp/stonex-cms-amqp-lib/API/URIParser.cpp:229-243 | with a dot in its text, an option of the group `cms` does what the same option of `connection` does |
| UriSettings.CmsWithPrefetch | stonex-cms-amqp/stonex-cms-amqp-lib/API/URIParser.cpp:194-211 | with `Prefetch` between the first two dots of its text, what the same option of `cms.Prefetch` does |
| UriSettings.CmsWithRedelivery | stonex-cms-amqp/stonex-cms-amqp-lib/API/URIParser.cpp:212-227 | with `Redelivery` there, what the same option of `cms.Redelivery` does |
| UriOptions.StoiReads | stonex-cms-amqp/stonex-cms-amqp-lib/API/URIParser.cpp:303-304 | `stoi` on white space, a sign, digits and anything else: the signed value within 32 bits, or the exception |
| UriParsers.SettingsAreComplete | stonex-cms-amqp/stonex-cms-amqp-lib/API/URIParser.cpp:28-72 | whatever the URL says, each setting has a value of its own kind, no setting is added or dropped, and without options all have their defaults |
| UriSettings.DefaultsAreComplete | stonex-cms-amqp/stonex-cms-amqp-lib/API/URIParser.h:31-126 | there is a default for exactly the settings that some option writes, of the same kind |
| UriSettings.DefaultFlags | stonex-cms-amqp/stonex-cms-amqp-lib/API/URIParser.h:31-126 | exactly four flags are set by default |
| UriSettings.DefaultsByName | stonex-cms-amqp/stonex-cms-amqp-lib/API/URIParser.h:31-126 | the map of defaults holds, for every section and name, exactly the value declared for it |
| UriSettings.SocketDefaults | stonex-cms-amqp/stonex-cms-amqp-lib/API/URIParser.h:31-43 | the values declared for the socket |
| UriSettings.FailoverDefaults | stonex-cms-amqp/stonex-cms-amqp-lib/API/URIParser.h:53-65 | the values declared for reconnecting |
| UriSettings.ConnectionDefaults | stonex-cms-amqp/stonex-cms-amqp-lib/API/URIParser.h:44-83 | the values declared for transport, transaction and connection |
| UriSettings.PolicyDefaults | stonex-cms-amqp/stonex-cms-amqp-lib/API/URIParser.h:86-95 | the values declared for prefetching |
| UriSettings.RedeliveryDefaults | stonex-cms-amqp/stonex-cms-amqp-lib/API/URIParser.h:96-107 | the values declared for redelivery |
| UriParsers.UriParser.GetOptionsString | stonex-cms-amqp/stonex-cms-amqp-lib/API/URIParser.cpp:74-139 | the side effects of the recursion are the scanner's updates folded over the parameters, and its result is the scanner's text, or the first exception |
| UriParsers.UriParser.FindStop | stonex-cms-amqp/stonex-cms-amqp-lib/API/URIParser.cpp:89-101 | the backward loop finds the last dot before the first ampersand |
| UriParsers.UriParser.ParseURI | stonex-cms-amqp/stonex-cms-amqp-lib/API/URIParser.cpp:28-72 | the brokers are the longest prefix without an empty piece of the comma-split list; the parameters are the settings of the option text over the defaults |
| UriParsers.CreateContext | stonex-cms-amqp/stonex-cms-amqp-lib/stonex-cms-amqp-cpp/FactoryContext.cpp:23-35 | succeeds exactly if the URL parses and lists a broker; main broker and failover list together are the list |
| UriParsers.FactoryContext.constructor | stonex-cms-amqp/stonex-cms-amqp-lib/stonex-cms-amqp-cpp/FactoryContext.cpp:23-35 | the first broker and the failover list together are the list it was given |
| UriParsers.UrlRoundTrip | stonex-cms-amqp/stonex-cms-amqp-lib/API/URIParser.cpp:28-72 | a plain or failover URL built from clean host names and options gives back the hosts, and settings that agree with the left-to-right fold exactly when the order of the options cannot show |
| UriParsers.FailoverUrlParts | stonex-cms-amqp/stonex-cms-amqp-lib/API/URIParser.cpp:36-41 | the failover form gives back the host list and the option text, although it cuts a character off the end |
| UriParsers.PlainUrlParts | stonex-cms-amqp/stonex-cms-amqp-lib/API/URIParser.cpp:42-46 | the plain form gives back the host list and the option text |
| UriParsers.FailoverTextIsCut | stonex-cms-amqp/stonex-cms-amqp-lib/API/URIParser.cpp:36-41 | any text behind the failover scheme loses its first and last character and what follows the first closing parenthesis |
| UriParsers.ShortFailover | stonex-cms-amqp/stonex-cms-amqp-lib/API/URIParser.cpp:36-38 | with one character it lists nothing, with none it throws |
| UriParsers.LineBreakIsPlain | stonex-cms-amqp/stonex-cms-amqp-lib/API/URIParser.cpp:33-47 | a URL with a line break is never a failover URL |
| UriParsers.OptionsEndAtNul | stonex-cms-amqp/stonex-cms-amqp-lib/API/URIParser.cpp:64-69 | the options start at the first question mark and end at a NUL |
| UriText.SplitBrokers | stonex-cms-amqp/stonex-cms-amqp-lib/API/URIParser.cpp:50-62 | for every text the comma loop yields the longest prefix of the comma-split without an empty piece |
| UriText.SplitInvertsJoin | stonex-cms-amqp/stonex-cms-amqp-lib/API/URIParser.cpp:50-62 | splitting inverts joining on pieces free of the separator |

## Left out

- The reconnect path (open callbacks on a node that is already open, and the state DETATCHED): its outcome depends on proton.
- Sends that are already waiting for their permit when close runs; the code marks this as unfinished.
- MessageProducers.MessageProducer.AwaitPermit: a sender that proton never makes sendable is not modelled, so the wait always ends.
- MessageConsumers.MessageConsumer.Stop: two threads inside one consumer at the same time are not modelled; one call is in progress at a time.
- Sessions.Session.CallConsumers: the three loops over consumers are one loop with the call as a parameter; the model does not capture that another thread could add a child meanwhile.
- UriParsers.UriParser.ParseURI: when the option text is malformed the model says that it fails, not with which exception.
- Floating-point settings and values keep their text or bytes: their numeric meaning is not modelled, nor that a malformed floating-point setting throws.
- Strings on bytes messages have no length prefix and are left out, as are the readers and writers of byte buffers and `getBodyBytes`.
- The reply-to address, the property map, message selectors, temporary destinations, delivery-mode and type tables: single facts about one field.
- Forwarding classes, logging, crash dumps, metadata, and the library that runs proton.
- Proton's sockets, security layers, frames and container, and the memory model of C++: waits are steps enabled by their predicate.
