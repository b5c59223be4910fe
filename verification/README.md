# Verification of the Paho MQTT-SN gateway

A Dafny model of the core of the Paho MQTT-SN gateway and of the packet codecs it rests on, with
proofs of what this code promises. `dafny verify dfyconfig.toml` checks everything.

The gateway stands between MQTT-SN clients (UDP-like links, two-byte topic ids, clients that sleep)
and an MQTT broker. The model covers:

- **Tree23** (`SortedMap.dfy`, `Tree23.dfy`): the 2-3 tree on the heap, node by node, with its
  transient insert-active and delete-active nodes, against an ordered list of elements.
- **Event queue** (`Que.dfy`, `EventQueue.dfy`, `EventCalls.dfy`): the linked queue as a class, and `EventQue` with
  its mutex and binary semaphore as a class for one caller and as a state machine over all interleavings of N
  producers and a consumer, with a ledger of what the consumer's calls gave back.
- **Topics** (`TopicFilter.dfy`, `TopicTable.dfy`, `Topics.dfy`): the wildcard scan against section 4.7.1
  of MQTT 3.1.1, and the linked topic list against a table value whose ids survive 16-bit wrap-around.
- **Small tables** (`Links.dfy`, `Cycles.dfy`, `TopicIdMap.dfy`, `MessageIdTable.dfy`, `RegackList.dfy`): the
  doubly linked lists, each against a sequence, the counters that run round, and what they answer over whole runs.
- **Session** (`SessionModel.dfy`, `Session.dfy`, `SessionRuns.dfy`, `SessionAnswers.dfy`, `SessionFlow.dfy`,
  `SessionTopics.dfy`, `SessionLosses.dfy`, `SessionAcks.dfy`, `SessionPing.dfy`, `SessionTalk.dfy`,
  `SessionExamples.dfy`): one client's state and every handler that changes it. `Session.dfy` holds the handlers as
  methods on the linked tables and queues, each proved equal to a function of `SessionModel.dfy`; the other files
  prove properties of all runs of these functions, from a table that may hold predefined topics, and give runs in
  which a promise fails. Where the source follows a null pointer the state is `crashed`, and no run goes on from it.
- **Codecs and translation** (`Wire.dfy`, `SnCodec.dfy`, `MqttCodec.dfy`, `WireLayout.dfy`, `Translation.dfy`,
  `Packets.dfy`): bytes written through an advancing pointer into a buffer of some size, read back, each at the place
  and with the number that the two standards give it, and the meaning of a PUBLISH from client to client.

Where a promise fails in the code, the code is kept and the exact condition is proved:

- `isMatch` misses names that end where a filter goes on with `/#` behind a final `+` (`MatchIsExact`).
- An MQTT-SN packet with a body of 255 bytes announces 256 bytes and takes 258 (`FrameSize`, `PublishRoundTrip`).
- A PUBLISH keeps its meaning through the gateway only if it fits. On the way in the client's packet may have at
  most 1024 bytes and the payload not 249, and the MQTT packet, flattened without a check, at most 1024 bytes
  (`ClientToBroker`, `TooLongForBroker`). On the way out the topic needs two bytes, the packet and the REGISTER
  that may precede it at most 1024 bytes, the payload not 249 bytes and a topic to be registered not 250
  (`BrokerToClient`, `NameCutShort`).
- A packet from the broker with 65536 bytes of data or more is never received: `Network::recv` takes a length of
  16 bits, so fewer bytes are asked for than the packet has (`PacketRoundTrip`, `LongPayloadRefused`). When the
  broker closes the connection after the first byte of a packet, the length loop goes on with a variable that was
  never set, and makes a packet up if it is 0 (`MadeUpIff`).
- `TopicIdMap::erase` counts down even when nothing is unlinked (`TopicIdMap.Erase`).
- A PUBACK of the broker is not passed on if twenty-one records were kept when the client published, and QoS 2
  handshakes leave their records behind for good (`PubackLostIff`, and the run `PubackLost`).
- The PUBACK for a PUBLISH with a short topic name has the two characters in the opposite order, because they are kept
  as the 16-bit number of a little-endian machine. Section 5.4.13 of MQTT-SN v1.2 asks for the value of the PUBLISH;
  it is the same if and only if there is an id or both characters are equal (`PubackNames`, `PubackOverTheWire`).
- PUBACK, PUBREC, PUBREL and PUBCOMP of a client are passed on if and only if it is Active. What an Awake client
  acknowledges the broker never learns (`SentIff`).
- A PUBLISH for an unknown topic goes to the broker without a name if its QoS is 0, or its message id, and is otherwise
  rejected or, at QoS -1, dropped (`SentIff`, `RejectedIff`).
- Message ids repeat after 65534 issues, REGISTER ids after 255, so an entry that outlives a period
  shadows a later one (`ConvertsBack`, `RegackFindsItsOwn`, and the runs `MessageIds.OldEntryShadowsNew` and
  `SessionTalk.OldWaitShadowsNew`).
- Registering a predefined name returns the predefined id, which as a NORMAL id may belong to another topic
  (`RegisteredResolves`, `PredefinedNameMisleads`, `AnnouncementsAgree`).
- A clean CONNECT erases the NORMAL topics but not the PUBLISHes that wait for a REGACK: a late REGACK sends one
  under an erased id (`UseAfterAnnouncement`, and the run `ReleasedAfterErasure`).
- A PINGREQ held back while the buffer is drained is passed on by a REGACK only. It is forwarded if and only if
  a PUBLISH waits for its REGACK, from before or because one of the drained ones needed a REGISTER; otherwise no
  REGACK is due, and it stays (`PingForwardedIff`, and the run `PingUnanswered`). Section 6.14 of MQTT-SN v1.2 asks
  for an answer once the buffer is empty. The count of the waiting PUBLISHes has eight bits, so the PINGREQ goes
  while some still wait exactly when there were more than 256 (`PassedEarlyIff`, and the run `PingTooEarly`).
- A QoS 1 or QoS 2 PUBLISH that the gateway has acknowledged to the broker is thrown away for one of five reasons:
  twenty are saved for the sleeping client; none of its topics explains the name; or it was saved and drained, and
  the event queue had no room for it, the client had left before its turn came, or the topic table was full
  (`AcknowledgedLostIff`, and the runs `TwentySaved` and `AcknowledgedThenIgnored`).
- With fifty topics in the table the gateway follows a null pointer when a listening client registers a new name
  or is sent a PUBLISH that only a wildcard explains, or when any client subscribes to a predefined id that only
  the gateway's own table has (`CrashIff`, and the run `FullTable`).

## Model

| member | source | states |
|---|---|---|
| `Tree23Map.Tree23.Add` | paho.mqtt-sn.embedded-c/MQTTSNGateway/src/MQTTSNGWProcess.h:373-439 | from any valid tree: the result is a valid 2-3 tree (ordered, one leaf depth, no marker left, no node shared) whose map is the old one updated at the key, for every key asked; it grows by one level exactly when every node on the search path is a 3-node |
| `Tree23Map.Tree23.Remove` | paho.mqtt-sn.embedded-c/MQTTSNGateway/src/MQTTSNGWProcess.h:441-525 | from any valid tree: the result is a valid 2-3 tree whose map is the old one without the key, also when the key sits in an inner node or is absent; it loses one level exactly when there are only 2-nodes on the way to the removed element and a 2-node beside each |
| `Tree23Map.Tree23.Find` | paho.mqtt-sn.embedded-c/MQTTSNGateway/src/MQTTSNGWProcess.h:527-575 | membership agrees with the map; the loop ends after at most h nodes, where 2^h - 1 is at most the number of keys |
| `Tree23Map.Tree23.GetVal` | paho.mqtt-sn.embedded-c/MQTTSNGateway/src/MQTTSNGWProcess.h:578-629 | the value in the map or NULL, within the same number of nodes |
| `Tree23Map.Tree23.AddAt` | paho.mqtt-sn.embedded-c/MQTTSNGateway/src/MQTTSNGWProcess.h:379-439 | insertion below a node: elements as inserted, slot height kept, an insert-active node at the top exactly when the path overflows and nowhere else |
| `Tree23Map.Tree23.RemoveAt` | paho.mqtt-sn.embedded-c/MQTTSNGateway/src/MQTTSNGWProcess.h:450-525 | deletion below a node: elements as deleted, slot height kept, the top node delete-active exactly when the path underflows, and no other |
| `Tree23Map.Tree23.RemoveMax` | paho.mqtt-sn.embedded-c/MQTTSNGateway/src/MQTTSNGWProcess.h:688-720 | takes out the last element of a subtree and no other; the rest is sound, its top marked exactly when the way to it underflows |
| `Tree23Map.Tree23.AddLeft2` | paho.mqtt-sn.embedded-c/MQTTSNGateway/src/MQTTSNGWProcess.h:632-640 | absorbs an insert-active left child into a 3-node: same elements, same height, no marker |
| `Tree23Map.Tree23.AddRight2` | paho.mqtt-sn.embedded-c/MQTTSNGateway/src/MQTTSNGWProcess.h:654-662 | absorbs an insert-active right child into a 3-node: same elements, same height, no marker |
| `Tree23Map.Tree23.AddLeft3` | paho.mqtt-sn.embedded-c/MQTTSNGateway/src/MQTTSNGWProcess.h:642-652 | splits a 3-node over its left child: same elements, same slot, insert-active exactly when the child was |
| `Tree23Map.Tree23.AddMidle3` | paho.mqtt-sn.embedded-c/MQTTSNGateway/src/MQTTSNGWProcess.h:675-685 | splits a 3-node over its middle child: same elements, same slot, insert-active exactly when the child was |
| `Tree23Map.Tree23.AddRight3` | paho.mqtt-sn.embedded-c/MQTTSNGateway/src/MQTTSNGWProcess.h:664-673 | splits a 3-node over its right child: same elements, same slot, insert-active exactly when the child was |
| `Tree23Map.Tree23.RemoveLeft2` | paho.mqtt-sn.embedded-c/MQTTSNGateway/src/MQTTSNGWProcess.h:723-747 | fills a delete-active left child of a 2-node or, exactly beside a 2-node, passes the marker on: same elements and slot height |
| `Tree23Map.Tree23.RemoveRight2` | paho.mqtt-sn.embedded-c/MQTTSNGateway/src/MQTTSNGWProcess.h:749-773 | fills a delete-active right child of a 2-node or, exactly beside a 2-node, passes the marker on: same elements and slot height |
| `Tree23Map.Tree23.RemoveLeft3` | paho.mqtt-sn.embedded-c/MQTTSNGateway/src/MQTTSNGWProcess.h:775-798 | fills a delete-active left child of a 3-node: same elements and height, no marker remains |
| `Tree23Map.Tree23.RemoveMidle3` | paho.mqtt-sn.embedded-c/MQTTSNGateway/src/MQTTSNGWProcess.h:800-823 | fills a delete-active middle child of a 3-node: same elements and height, no marker remains |
| `Tree23Map.Tree23.RemoveRight3` | paho.mqtt-sn.embedded-c/MQTTSNGateway/src/MQTTSNGWProcess.h:825-848 | fills a delete-active right child of a 3-node: same elements and height, no marker remains |
| `Tree23Map.HeightBound` | paho.mqtt-sn.embedded-c/MQTTSNGateway/src/MQTTSNGWProcess.h:527-629 | a tree of height h holds at least 2^h - 1 keys, whatever adds and removes made it |
| `Tree23Map.Descend` | paho.mqtt-sn.embedded-c/MQTTSNGateway/src/MQTTSNGWProcess.h:527-575 | the subtree the comparison selects decides the search |
| `SortedMap.PutLaw` | paho.mqtt-sn.embedded-c/MQTTSNGateway/src/MQTTSNGWProcess.h:373-377 | updating an ordered list at a key keeps order and changes the map at this key only: the reference that Add is proved against |
| `SortedMap.DelLaw` | paho.mqtt-sn.embedded-c/MQTTSNGateway/src/MQTTSNGWProcess.h:441-448 | deleting a key keeps order and removes this key only: the reference for Remove |
| `SortedMap.Sizes` | paho.mqtt-sn.embedded-c/MQTTSNGateway/src/MQTTSNGWProcess.h:373-448 | an insertion adds one element unless it overwrites, a deletion takes one unless the key is absent |
| `LinkedQueue.Que.Post` | paho.mqtt-sn.embedded-c/MQTTSNGateway/src/MQTTSNGWProcess.h:209-238 | appends, unless the queue is at its maximum (0: none); returns the new size or 0; links, tail and count stay consistent |
| `LinkedQueue.Que.Pop` | paho.mqtt-sn.embedded-c/MQTTSNGateway/src/MQTTSNGWProcess.h:176-193 | drops the oldest element and nothing else, nothing from an empty queue |
| `LinkedQueue.Que.Front` | paho.mqtt-sn.embedded-c/MQTTSNGateway/src/MQTTSNGWProcess.h:195-207 | the oldest element or NULL |
| `LinkedQueue.Que.Size` | paho.mqtt-sn.embedded-c/MQTTSNGateway/src/MQTTSNGWProcess.h:240-243 | the number of elements |
| `EventQueue.NoLostWakeUp` | paho.mqtt-sn.embedded-c/MQTTSNGateway/src/MQTTSNGateway.cpp:357-413 | in every interleaving of any number of producers with the consumer: the consumer never sleeps on a non-empty queue without a token or a producer that will still post one; the semaphore stays in {0,1} |
| `EventQueue.RunInv` | paho.mqtt-sn.embedded-c/MQTTSNGateway/src/linux/Threading.cpp:198-245 | the inductive invariant behind it (mutual exclusion, count against list, pending post) holds after every run |
| `EventQueue.FirstInFirstOut` | paho.mqtt-sn.embedded-c/MQTTSNGateway/src/MQTTSNGateway.cpp:357-413 | returned, about to be returned and queued events are together exactly the accepted ones, in posting order |
| `EventQueue.RefusalAndTimeout` | paho.mqtt-sn.embedded-c/MQTTSNGateway/src/MQTTSNGateway.cpp:375-413 | an event is refused only by a queue at its maximum, a timeout reported only while the queue is empty and locked |
| `EventCalls.CallsEnd` | paho.mqtt-sn.embedded-c/MQTTSNGateway/src/MQTTSNGateway.cpp:357-396 | over every interleaving: a call of `wait` ends with an event and nothing else, a call of `timedwait` with an event or a timeout after a single look at the size, only `wait` starts over, and the events given back are those that left the queue, in order |
| `EventCalls.WaitAlone` | paho.mqtt-sn.embedded-c/MQTTSNGateway/src/MQTTSNGateway.cpp:357-373 | the steps of a `wait` that nobody interrupts come to what the method does: the oldest event with the semaphore untouched, or, on an empty queue, no token left and the thread asleep |
| `EventCalls.TimedWaitAlone` | paho.mqtt-sn.embedded-c/MQTTSNGateway/src/MQTTSNGateway.cpp:375-396 | the steps of a `timedwait` that nobody interrupts come to what the method does: the oldest event, or, on an empty queue, a timeout and one token less if there was one |
| `EventQueue.Delivery` | paho.mqtt-sn.embedded-c/MQTTSNGateway/src/MQTTSNGateway.cpp:357-413 | from every state with a waiting event at most twelve steps of the lock holder and the consumer, without another post, deliver the oldest event |
| `EventQueue.EventQue.Post` | paho.mqtt-sn.embedded-c/MQTTSNGateway/src/MQTTSNGateway.cpp:398-413 | called alone: the event is appended and the semaphore raised from 0, or the queue is full and nothing changes |
| `EventQueue.EventQue.TimedWait` | paho.mqtt-sn.embedded-c/MQTTSNGateway/src/MQTTSNGateway.cpp:375-396 | called alone: the oldest event, or a timeout exactly when the queue is empty |
| `EventQueue.EventQue.Wait` | paho.mqtt-sn.embedded-c/MQTTSNGateway/src/MQTTSNGateway.cpp:357-373 | called alone: the oldest event, without touching the semaphore; or, exactly on an empty queue, it uses up the tokens and then sleeps |
| `EventQueue.Semaphore.Post` | paho.mqtt-sn.embedded-c/MQTTSNGateway/src/linux/Threading.cpp:198-217 | raises the value only from 0 |
| `EventQueue.Semaphore.Wait` | paho.mqtt-sn.embedded-c/MQTTSNGateway/src/linux/Threading.cpp:219-229 | takes a token, and sleeps exactly when there is none |
| `EventQueue.Semaphore.TimedWait` | paho.mqtt-sn.embedded-c/MQTTSNGateway/src/linux/Threading.cpp:231-245 | takes a token if there is one, otherwise ends without |
| `EventQueue.PostAlone` | paho.mqtt-sn.embedded-c/MQTTSNGateway/src/MQTTSNGateway.cpp:398-413 | the interleaved steps of a producer that nobody interrupts come to what the method does to queue and semaphore |
| `TopicFilter.IsMatch` | paho.mqtt-sn.embedded-c/MQTTSNGateway/src/MQTTSNGWTopic.cpp:66-156 | the position-scanning loop ends on all inputs and answers as its recursive form by positions |
| `TopicFilter.ScanAtIsScan` | paho.mqtt-sn.embedded-c/MQTTSNGateway/src/MQTTSNGWTopic.cpp:66-156 | scanning by positions is scanning level by level, for any two strings |
| `TopicFilter.MatchMeaning` | paho.mqtt-sn.embedded-c/MQTTSNGateway/src/MQTTSNGWTopic.cpp:66-156 | for a filter well formed by section 4.7.1 of MQTT 3.1.1: a match is reported exactly when the standard says so, except where the name ends at a `+` that `/#` follows |
| `TopicFilter.MatchIsExact` | paho.mqtt-sn.embedded-c/MQTTSNGateway/src/MQTTSNGWTopic.cpp:66-156 | the scan decides a well-formed filter as the standard asks for every topic name if and only if the filter does not end in `+/#` |
| `TopicFilter.LevelsOfJoin` | paho.mqtt-sn.embedded-c/MQTTSNGateway/src/MQTTSNGWTopic.cpp:72-92 | cutting at the slashes inverts joining with slashes |
| `TopicTable.LiveIdsDistinct` | paho.mqtt-sn.embedded-c/MQTTSNGateway/src/MQTTSNGWTopic.cpp:217-355 | after any run of registrations and erasures, past any number of 16-bit wraps: NORMAL topics have pairwise different ids in 1..0xfffe, names are unique, at most 50 topics |
| `TopicTable.RunInv` | paho.mqtt-sn.embedded-c/MQTTSNGateway/src/MQTTSNGWTopic.cpp:217-355 | the live NORMAL ids are exactly the last ones issued, in order of age |
| `TopicTable.RegisteredResolves` | paho.mqtt-sn.embedded-c/MQTTSNGateway/src/MQTTSNGWTopic.cpp:201-298 | the id returned for a name resolves back to it as a NORMAL id, whatever is added and until the normal topics are erased, if and only if no predefined topic has the name and, when no topic has it, none has what precedes a NUL in it |
| `TopicTable.PredefinedNameMisleads` | paho.mqtt-sn.embedded-c/MQTTSNGateway/src/MQTTSNGWTopic.cpp:217-298 | a concrete run: registering a predefined name returns its id, and a topic registered later has the same number as a NORMAL id, so the first name's id resolves to the second |
| `TopicTable.EraseInv` | paho.mqtt-sn.embedded-c/MQTTSNGateway/src/MQTTSNGWTopic.cpp:326-355 | eraseNormal keeps every other topic and no normal one |
| `TopicTable.NextOnCycle` | paho.mqtt-sn.embedded-c/MQTTSNGateway/src/MQTTSNGWTopic.cpp:300-303 | the id counter walks the cycle 1..0xfffe |
| `TopicTable.AddsConfigure` | paho.mqtt-sn.embedded-c/MQTTSNGateway/src/MQTTSNGWClientList.cpp:417-475 | whatever predefined topics with nonzero ids and C strings for names the configuration adds, a table before the first packet holds predefined topics only |
| `TopicsList.Topics.GetTopicByName` | paho.mqtt-sn.embedded-c/MQTTSNGateway/src/MQTTSNGWTopic.cpp:184-199 | the first topic of the list with this name |
| `TopicsList.Topics.GetTopicById` | paho.mqtt-sn.embedded-c/MQTTSNGateway/src/MQTTSNGWTopic.cpp:201-214 | the first topic of this type and id |
| `TopicsList.Topics.Match` | paho.mqtt-sn.embedded-c/MQTTSNGateway/src/MQTTSNGWTopic.cpp:305-323 | the first topic whose name matches as a filter; only for NORMAL requests |
| `TopicsList.Topics.Register` | paho.mqtt-sn.embedded-c/MQTTSNGateway/src/MQTTSNGWTopic.cpp:217-232 | the linked list after it stands for the value-level registration, with the topic that was found or added |
| `TopicsList.Topics.AddName` | paho.mqtt-sn.embedded-c/MQTTSNGateway/src/MQTTSNGWTopic.cpp:234-298 | the linked list after it stands for the value-level addition of a NUL-terminated name: full table, known name, new id or predefined id; the list stays linked, the count its length |
| `TopicsList.Topics.EraseNormal` | paho.mqtt-sn.embedded-c/MQTTSNGateway/src/MQTTSNGWTopic.cpp:326-355 | the relinking loop leaves exactly the topics that are not NORMAL, in order, with the count right |
| `TopicIds.TopicIdMap.GetElement` | paho.mqtt-sn.embedded-c/MQTTSNGateway/src/MQTTSNGWTopic.cpp:426-438 | the record of a message id, found if and only if there is one |
| `TopicIds.TopicIdMap.Add` | paho.mqtt-sn.embedded-c/MQTTSNGateway/src/MQTTSNGWTopic.cpp:440-469 | replaces what was recorded for the id, refused beyond 21 records or without a topic id; ids stay unique, the count the length |
| `TopicIds.TopicIdMap.Erase` | paho.mqtt-sn.embedded-c/MQTTSNGateway/src/MQTTSNGWTopic.cpp:471-502 | unlinks only this record; the count stays the length if and only if there was one |
| `TopicIds.TopicIdMap.Clear` | paho.mqtt-sn.embedded-c/MQTTSNGateway/src/MQTTSNGWTopic.cpp:504-516 | empties list and count |
| `TopicIds.AnswersLatest` | paho.mqtt-sn.embedded-c/MQTTSNGateway/src/MQTTSNGWTopic.cpp:426-516 | after every run the record found for an id is that of the latest accepted PUBLISH not answered or cleared since |
| `TopicIds.AnsweredOnce` | paho.mqtt-sn.embedded-c/MQTTSNGateway/src/MQTTSNGWTopic.cpp:440-502 | in every run: each answer is for one particular accepted PUBLISH before it, whose topic it carries, and no two answers are for the same one |
| `TopicIds.LostIff` | paho.mqtt-sn.embedded-c/MQTTSNGateway/src/MQTTSNGWTopic.cpp:440-469 | whether a PUBLISH will be answered is settled when it is recorded: until its message id is used, answered or cleared, nothing is found for it exactly when more than twenty records were there (or it has no topic id) and none for its id |
| `TopicIds.AfterInv` | paho.mqtt-sn.embedded-c/MQTTSNGateway/src/MQTTSNGWTopic.cpp:440-469 | at most 21 records with different ids, after every run |
| `MessageIds.MessageIdTable.Add` | paho.mqtt-sn.embedded-c/MQTTSNGateway/src/MQTTSNGWMessageIdTable.cpp:48-88 | appends a pair under the next id of the aggregating client unless the table is full or the pair known, in which case no id is used up |
| `MessageIds.MessageIdTable.GetClientMsgId` | paho.mqtt-sn.embedded-c/MQTTSNGateway/src/MQTTSNGWMessageIdTable.cpp:119-133 | converts a broker id back to its pair and removes that entry only; the doubly linked list stays well formed |
| `MessageIds.MessageIdTable.Erase` | paho.mqtt-sn.embedded-c/MQTTSNGateway/src/MQTTSNGWMessageIdTable.cpp:135-180 | removes the entry of a broker id, nothing for an unknown one |
| `MessageIds.MessageIdTable.GetMsgId` | paho.mqtt-sn.embedded-c/MQTTSNGateway/src/MQTTSNGWMessageIdTable.cpp:183-192 | the broker id of a pair, 0 when it is not registered |
| `MessageIds.ConvertsBack` | paho.mqtt-sn.embedded-c/MQTTSNGateway/src/MQTTSNGWMessageIdTable.cpp:48-180 | over every run: the broker id of a live entry, in 1..0xfffe, converts back to that entry and removes it if and only if no older live entry got its id a whole number of periods of 65534 before |
| `MessageIds.PairComesBack` | paho.mqtt-sn.embedded-c/MQTTSNGateway/src/MQTTSNGWMessageIdTable.cpp:48-180 | a client and its message id, registered under the n-th broker id of the cycle 1 to 65534 while the table has at most 500 entries and not this pair, are what this id converts back to after any later run that does not take it out, if and only if no older live entry got its id a whole number of periods before |
| `MessageIds.RecentConvertsBack` | paho.mqtt-sn.embedded-c/MQTTSNGateway/src/MQTTSNGWMessageIdTable.cpp:48-180 | this is so while the oldest live entry got its id within the last 65534 calls |
| `MessageIds.SameIdIff` | paho.mqtt-sn.embedded-c/MQTTSNGateway/src/MQTTSNGWClient.cpp:332-340 | two live entries share an id exactly when a whole number of periods lies between their issues |
| `MessageIds.OldEntryShadowsNew` | paho.mqtt-sn.embedded-c/MQTTSNGateway/src/MQTTSNGWMessageIdTable.cpp:90-133 | a concrete run in which a later pair gets the id of an older one and converts to it |
| `MessageIds.RunInv` | paho.mqtt-sn.embedded-c/MQTTSNGateway/src/MQTTSNGWMessageIdTable.cpp:48-180 | pairs stay unique, at most 501 entries, ids in order of issue |
| `MessageIds.NextIdOf` | paho.mqtt-sn.embedded-c/MQTTSNGateway/src/MQTTSNGWClient.cpp:332-340 | the counter runs through 1..0xfffe and starts again: after n calls it is on place n of this cycle |
| `RegackList.WaitREGACKPacketList.SetPacket` | paho.mqtt-sn.embedded-c/MQTTSNGateway/src/MQTTSNGWClient.cpp:620-641 | appends a PUBLISH with the message id it waits for |
| `RegackList.WaitREGACKPacketList.GetPacket` | paho.mqtt-sn.embedded-c/MQTTSNGateway/src/MQTTSNGWClient.cpp:643-655 | the first PUBLISH that waits for this id |
| `RegackList.WaitREGACKPacketList.Erase` | paho.mqtt-sn.embedded-c/MQTTSNGateway/src/MQTTSNGWClient.cpp:657-687 | unlinks that one and no other |
| `RegackList.WaitREGACKPacketList.GetCount` | paho.mqtt-sn.embedded-c/MQTTSNGateway/src/MQTTSNGWClient.cpp:689-692 | the length of the list modulo 256 |
| `ClientSession.Session.HandlePublish` | paho.mqtt-sn.embedded-c/MQTTSNGateway/src/MQTTGWPublishHandler.cpp:38-169 | in place on tables and queues: saved and acknowledged while Asleep, sent under the known topic, or REGISTER sent and PUBLISH held; a null pointer followed when the table is full; everything else unchanged |
| `SessionFlow.AcknowledgedIff` | paho.mqtt-sn.embedded-c/MQTTSNGateway/src/MQTTGWPublishHandler.cpp:171-178 | the gateway acknowledges a PUBLISH itself exactly when the client sleeps or no subscription explains the topic: PUBACK at QoS 1, PUBREC at QoS 2, nothing at QoS 0 |
| `ClientSession.Session.HandlePuback` | paho.mqtt-sn.embedded-c/MQTTSNGateway/src/MQTTGWPublishHandler.cpp:180-197 | the recorded topic id goes to the client and the record is gone |
| `SessionRuns.SleeperIsRepresented` | paho.mqtt-sn.embedded-c/MQTTSNGateway/src/MQTTGWPublishHandler.cpp:171-235 | while a client sleeps the broker gets the PUBACK, PUBREC or PUBCOMP that carries its handshakes on, and the client is sent nothing but a CONNACK, a PINGRESP or the answer to a PUBLISH of its own |
| `ClientSession.Session.HandleConnack` | paho.mqtt-sn.embedded-c/MQTTSNGateway/src/MQTTGWConnectionHandler.cpp:33-79 | the MQTT return code becomes the MQTT-SN one the client is told; it is Active on acceptance, else Disconnected |
| `ClientSession.Session.HandleConnect` | paho.mqtt-sn.embedded-c/MQTTSNGateway/src/MQTTSNGWConnectionHandler.cpp:69-154 | a dozing client gets CONNACK and its buffer back in the event queue; otherwise the session restarts, cleared on request |
| `ClientSession.Session.HandlePingreq` | paho.mqtt-sn.embedded-c/MQTTSNGateway/src/MQTTSNGWConnectionHandler.cpp:277-294 | buffer drained and PINGREQ held, or PINGREQ forwarded |
| `ClientSession.Session.SendStoredPublish` | paho.mqtt-sn.embedded-c/MQTTSNGateway/src/MQTTSNGWConnectionHandler.cpp:296-309 | buffer emptied, its PUBLISHes appended to the event queue in saved order as far as there is room |
| `ClientSession.MoveAll` | paho.mqtt-sn.embedded-c/MQTTSNGateway/src/MQTTSNGWConnectionHandler.cpp:296-309 | the draining loop ends and offers every stored PUBLISH to the event queue once, oldest first |
| `ClientSession.LoopIsSendStored` | paho.mqtt-sn.embedded-c/MQTTSNGateway/src/MQTTSNGWConnectionHandler.cpp:296-309 | offering one by one is the closed form used for the properties |
| `ClientSession.Session.HandleClientPublish` | paho.mqtt-sn.embedded-c/MQTTSNGateway/src/MQTTSNGWPublishHandler.cpp:38-136 | topic resolved in the client's or the gateway's table, message id recorded, PUBLISH queued for the broker, or rejected |
| `ClientSession.Session.HandleRegister` | paho.mqtt-sn.embedded-c/MQTTSNGateway/src/MQTTSNGWPublishHandler.cpp:187-213 | registers the name and answers with its id; a full table without the name is a null pointer followed |
| `ClientSession.Session.HandleRegAck` | paho.mqtt-sn.embedded-c/MQTTSNGateway/src/MQTTSNGWPublishHandler.cpp:215-248 | releases the first PUBLISH waiting for this id, and the held PINGREQ when none is left |
| `ClientSession.Session.HandleSubscribe` | paho.mqtt-sn.embedded-c/MQTTSNGateway/src/MQTTSNGWSubscribeHandler.cpp:37-108 | registers a NORMAL filter, finds a predefined one in the client's table or copies it from the gateway's (a null pointer followed when the table is full, a SUBACK when neither has it), takes a short one as it is, and passes the SUBSCRIBE on |
| `SessionRuns.SleepCycle` | paho.mqtt-sn.embedded-c/MQTTSNGateway/src/MQTTSNGWClient.cpp:225-307 | exactly what makes a client Awake, Asleep, Active, Disconnected or Connecting: its PINGREQ; its DISCONNECT with a duration, a PINGRESP of the broker, or its own; its CONNECT out of a doze or an accepting CONNACK; its DISCONNECT, a CONNECT that begins a session, or a refusing CONNACK; the report of a sent CONNECT; and that nothing makes it TryConnecting or Lost |
| `SessionTopics.NextRegackId` | paho.mqtt-sn.embedded-c/MQTTSNGateway/src/MQTTSNGWClient.cpp:342-350 | the 8-bit counter runs through 1..255 and starts again: after n calls it is on place n of this cycle |
| `ClientSession.Session.SetClientSleepPacket` | paho.mqtt-sn.embedded-c/MQTTSNGateway/src/MQTTSNGWClient.cpp:117-129 | appended to the sleep buffer unless twenty are held |
| `ClientSession.Session.RunOnce` | paho.mqtt-sn.embedded-c/MQTTSNGateway/src/MQTTSNGWPacketHandleTask.cpp:110-178 | one turn of the loop: the event is taken off the queue, its handler runs, then the status update of a client's packet |
| `ClientSession.TurnIsSteps` | paho.mqtt-sn.embedded-c/MQTTSNGateway/src/MQTTSNGWPacketHandleTask.cpp:110-178 | such a turn is one or two steps of the runs below, so what is proved of all runs holds of the loop |
| `SessionAnswers.SentIff` | paho.mqtt-sn.embedded-c/MQTTSNGateway/src/MQTTSNGWPacketHandleTask.cpp:110-178 | in every run each step puts at most one packet on each send queue, and for every packet to the client or to the broker exactly when it is sent, with every field, from the event, the status and membership in the tables: CONNACK and its code, WILLTOPICREQ or CONNECT, PINGRESP, REGACK, SUBACK, PUBACK of either kind, the QoS 2 acknowledgements of both sides, REGISTER, PUBLISH, SUBSCRIBE, PINGREQ, DISCONNECT |
| `SessionAnswers.SubscribeIff` | paho.mqtt-sn.embedded-c/MQTTSNGateway/src/MQTTSNGWSubscribeHandler.cpp:37-130 | in every run a SUBSCRIBE with a message id reaches the broker as exactly one with the same QoS and message id, unless the table is full without the topic or nobody has the predefined id; its filter is the name up to a NUL, the topic that the client's or else the gateway's table has for the id, or the two characters; exactly for an id that neither has the client is told SUBACK with code 3 |
| `SessionAnswers.RejectedIff` | paho.mqtt-sn.embedded-c/MQTTSNGateway/src/MQTTSNGWPublishHandler.cpp:79-107 | in every run a client's PUBLISH is answered at once exactly when it asks for an answer and its topic is unknown: by a PUBACK with its id, its message id and code 2, and nothing goes to the broker |
| `SessionAnswers.ResolveIs` | paho.mqtt-sn.embedded-c/MQTTSNGateway/src/MQTTSNGWPublishHandler.cpp:72-91 | a reference is resolved to exactly the topic it means: two characters as they are; the first entry of its type and id in the client's table, or else, with room to copy it, in the gateway's; the table gains at most that one topic |
| `SessionAnswers.RegisterIs` | paho.mqtt-sn.embedded-c/MQTTSNGateway/src/MQTTSNGWTopic.cpp:217-299 | registering gives the topic of this name if there is one, or else, with room, that of the name up to a NUL, which is made under the next id if there is none |
| `SessionAnswers.RoomIff` | paho.mqtt-sn.embedded-c/MQTTSNGateway/src/MQTTSNGWClient.cpp:117-129 | in every run an event is queued exactly while fewer than 1000 are, a PUBLISH for a sleeping client saved exactly while fewer than twenty are, and a drain fills the event queue in order up to 1000 |
| `SessionAnswers.ShortNameIs` | paho.mqtt-sn.embedded-c/MQTTSNGateway/src/MQTTGWPublishHandler.cpp:99-103 | a topic of two characters is its own short name; one of a single character takes the byte behind it for its second |
| `SessionRuns.PingOnlyWhenEmpty` | paho.mqtt-sn.embedded-c/MQTTSNGateway/src/MQTTSNGWPacketHandleTask.cpp:142-161 | in every reachable state, whatever predefined topics the client starts with, an Awake client has an empty buffer, and a PINGREQ of an Asleep or Awake client reaches the broker only when nothing is stored |
| `SessionRuns.ExecInv` | paho.mqtt-sn.embedded-c/MQTTSNGateway/src/MQTTSNGWClient.cpp:225-285 | over every run: Awake implies an empty buffer, at most 20 stored, at most 1000 queued events, both tables consistent |
| `SessionRuns.CrashIff` | paho.mqtt-sn.embedded-c/MQTTSNGateway/src/MQTTSNGWSubscribeHandler.cpp:56-74 | a step follows a null pointer exactly when the table has fifty topics and a listening client registers a name it does not have or is sent a PUBLISH that only a wildcard explains, or any client subscribes to a predefined id that only the gateway's table knows |
| `SessionExamples.FullTable` | paho.mqtt-sn.embedded-c/MQTTSNGateway/src/MQTTSNGWPublishHandler.cpp:187-213 | a concrete run: the fifty-first REGISTER of a client |
| `SessionRuns.ExecConfigured` | paho.mqtt-sn.embedded-c/MQTTSNGateway/src/MQTTSNGWClientList.cpp:417-475 | a client whose predefined ids are configured once each keeps a table in which they are, in every run |
| `SessionRuns.PingsIff` | paho.mqtt-sn.embedded-c/MQTTSNGateway/src/MQTTSNGWConnectionHandler.cpp:277-294 | exactly when a PINGREQ is forwarded: at once when nothing is stored, or by a REGACK while one is held and none waits modulo 256 |
| `SessionRuns.HeldPingStays` | paho.mqtt-sn.embedded-c/MQTTSNGateway/src/MQTTSNGWPublishHandler.cpp:215-248 | a held PINGREQ is passed on by nothing but a REGACK or a further PINGREQ, whatever else happens in a run |
| `SessionPing.PingForwardedIff` | paho.mqtt-sn.embedded-c/MQTTSNGateway/src/MQTTSNGWConnectionHandler.cpp:277-309 | for every dozing client with stored PUBLISHes and nothing else queued: after its PINGREQ, the drained PUBLISHes and one answer for each that waits, the PINGREQ has been forwarded if and only if one waited before or one of the stored was for an unknown topic of over two bytes that a filter matches; otherwise it is still held and no answer is due |
| `SessionPing.PingSurvives` | paho.mqtt-sn.embedded-c/MQTTSNGateway/src/MQTTSNGWConnectionHandler.cpp:277-309 | with room in the topic table for all that is stored this exchange always runs to its end |
| `SessionPing.PassedEarlyIff` | paho.mqtt-sn.embedded-c/MQTTSNGateway/src/MQTTSNGWClient.cpp:689-692 | for every awake client whose PINGREQ is held, and any number n of waiting PUBLISHes: it is forwarded by exactly the answer after which a multiple of 256 remains, so while some still wait if and only if n is more than 256 |
| `SessionExamples.PingTooEarly` | paho.mqtt-sn.embedded-c/MQTTSNGateway/src/MQTTSNGWPublishHandler.cpp:236-246 | a concrete run in which the PINGREQ is passed on while 256 PUBLISHes wait |
| `SessionPing.PingUnanswered` | paho.mqtt-sn.embedded-c/MQTTSNGateway/src/MQTTSNGWPublishHandler.cpp:215-248 | a concrete run from the start after which the client is Awake, its PINGREQ is held, and nothing is stored, waiting, queued or sent |
| `SessionFlow.Conservation` | paho.mqtt-sn.embedded-c/MQTTSNGateway/src/MQTTGWPublishHandler.cpp:46-74 | in every run each PUBLISH the event queue accepted is in exactly one place: sleep buffer, event queue, sent, held for a REGACK, or dropped for one of five counted reasons; at most 20 are saved |
| `SessionFlow.PublishFate` | paho.mqtt-sn.embedded-c/MQTTSNGateway/src/MQTTGWPublishHandler.cpp:38-169 | in every case exactly, from the state before: saved, sent or held with QoS, flags, message id and payload unchanged, or dropped because twenty are saved, the client is not connected, no topic explains the name, or the table is full |
| `SessionLosses.AcknowledgedLostIff` | paho.mqtt-sn.embedded-c/MQTTSNGateway/src/MQTTGWPublishHandler.cpp:38-169 | in every run, and for every next step: of the PUBLISHes that the gateway has acknowledged in the client's place, one is thrown away exactly for one of five reasons, each an if-and-only-if on the state before the step (twenty saved; unexplained; drained without room; drained and its client neither asleep nor listening; drained and the topic table full) |
| `SessionLosses.AcknowledgedConservation` | paho.mqtt-sn.embedded-c/MQTTSNGateway/src/MQTTGWPublishHandler.cpp:46-74 | in every run each such PUBLISH is in exactly one place: sleep buffer, back in the event queue, sent, held for a REGACK, or thrown away for a counted reason |
| `SessionExamples.AcknowledgedThenIgnored` | paho.mqtt-sn.embedded-c/MQTTSNGateway/src/MQTTSNGWConnectionHandler.cpp:277-309 | a concrete run: a QoS 1 PUBLISH is saved and acknowledged, drained behind a DISCONNECT, and ignored |
| `SessionExamples.TwentySaved` | paho.mqtt-sn.embedded-c/MQTTSNGateway/src/MQTTSNGWClient.cpp:117-129 | a concrete run: the twenty-first PUBLISH for a sleeping client is acknowledged and not saved |
| `SessionFlow.DrainKeepsOrder` | paho.mqtt-sn.embedded-c/MQTTSNGateway/src/MQTTSNGWConnectionHandler.cpp:277-309 | a drain loses nothing if and only if all that is stored finds room in the event queue, and then keeps the saved order behind what is queued |
| `SessionTopics.UseAfterAnnouncement` | paho.mqtt-sn.embedded-c/MQTTSNGateway/src/MQTTGWPublishHandler.cpp:76-153 | in every run a PUBLISH sent under a NORMAL id comes after a REGISTER or REGACK of the same session with this id and this topic, unless it was the client's own SUBSCRIBE to this name that added the topic; one released by a REGACK comes after its own REGISTER, which is of the same session if and only if no clean CONNECT of a client that was not dozing lies between |
| `SessionTalk.ReleasedAfterErasure` | paho.mqtt-sn.embedded-c/MQTTSNGateway/src/MQTTSNGWConnectionHandler.cpp:119-131 | a concrete run in which a late REGACK after a clean CONNECT sends a PUBLISH under an erased id |
| `SessionTopics.HeldBehindRegister` | paho.mqtt-sn.embedded-c/MQTTSNGateway/src/MQTTGWPublishHandler.cpp:104-153 | in every run a PUBLISH held under a wildcard stands behind a REGISTER that was sent with its topic, its id and the message id it waits for |
| `SessionTopics.AnnouncementsAgree` | paho.mqtt-sn.embedded-c/MQTTSNGateway/src/MQTTGWPublishHandler.cpp:76-153 | in every run, whatever the client was told in its session about the id of one of its NORMAL topics names this topic, if and only if it was not about a predefined topic of its table with the same number |
| `SessionTopics.LoggedTold` | paho.mqtt-sn.embedded-c/MQTTSNGateway/src/MQTTSNGWPublishHandler.cpp:187-234 | the invariant behind it: every NORMAL entry of the table has been announced, every held PUBLISH has its REGISTER with its id, topic and message id in the log |
| `SessionTopics.ReleasedByItsRegack` | paho.mqtt-sn.embedded-c/MQTTSNGateway/src/MQTTSNGWPublishHandler.cpp:215-234 | a held PUBLISH leaves the list only on a REGACK with the message id of its own REGISTER, and is then what the client is sent |
| `SessionTopics.ReleasedAtMostOnce` | paho.mqtt-sn.embedded-c/MQTTSNGateway/src/MQTTSNGWClient.cpp:620-687 | over every run: each held PUBLISH is waiting or released, none released twice; two share a message id exactly when a multiple of 255 lies between them |
| `SessionTopics.RegackFindsItsOwn` | paho.mqtt-sn.embedded-c/MQTTSNGateway/src/MQTTSNGWClient.cpp:643-687 | in every run a REGACK finds exactly the PUBLISH whose REGISTER it answers if and only if none that has waited longer was held a whole number of periods of 255 before |
| `SessionTalk.OldWaitShadowsNew` | paho.mqtt-sn.embedded-c/MQTTSNGateway/src/MQTTSNGWClient.cpp:620-687 | a concrete run in which, 255 REGISTERs later, the REGACK for a later PUBLISH releases an older one |
| `SessionAcks.PubackCarriesLatest` | paho.mqtt-sn.embedded-c/MQTTSNGateway/src/MQTTGWPublishHandler.cpp:180-197 | in every run a broker PUBACK is passed on exactly when the latest client PUBLISH noted with its message id has not been answered or forgotten, as a PUBACK with this message id, code 0 and the id that stands in that PUBLISH (for a short name the number whose low byte is the first character); never more than 21 records |
| `SessionAcks.BrokerAnswers` | paho.mqtt-sn.embedded-c/MQTTSNGateway/src/MQTTGWPublishHandler.cpp:180-235 | in every run, of a client PUBLISH at QoS 1 or 2 that went to the broker as m: the PUBACK with the message id of m tells the client the topic of that PUBLISH if it was noted and its message id not used since; a PUBREC or PUBCOMP with it is passed on exactly to a listening client; all with the client's message id |
| `SessionAcks.PubackLostIff` | paho.mqtt-sn.embedded-c/MQTTSNGateway/src/MQTTGWPublishHandler.cpp:180-197 | the PUBACK for a client's PUBLISH, with nothing between that has to do with its message id, is not passed on exactly when more than twenty records were kept at the time of the PUBLISH (or it has no topic id) and none for its message id |
| `SessionExamples.PubackLost` | paho.mqtt-sn.embedded-c/MQTTSNGateway/src/MQTTGWPublishHandler.cpp:180-235 | a concrete run: after twenty-one complete QoS 2 handshakes the PUBACK for a QoS 1 PUBLISH is dropped |
| `SessionAcks.PubIdsAreOps` | paho.mqtt-sn.embedded-c/MQTTSNGateway/src/MQTTSNGWPublishHandler.cpp:113-117 | the session's map is what the recorded, answered and cleared operations of the run make of it |
| `Wire.WriteInt` | paho.mqtt-sn.embedded-c/MQTTSNPacket/src/MQTTSNPacket.c:162-168 | two bytes at the pointer, nothing else touched, pointer advanced |
| `Wire.ReadInt` | paho.mqtt-sn.embedded-c/MQTTSNPacket/src/MQTTSNPacket.c:123-129 | the integer of the two bytes at the pointer |
| `Wire.IntRoundTrip` | paho.mqtt-sn.embedded-c/MQTTSNPacket/src/MQTTSNPacket.c:123-168 | reading what was written gives the integer modulo 65536 |
| `SnCodec.EncodeLength` | paho.mqtt-sn.embedded-c/MQTTSNPacket/src/MQTTSNPacket.c:65-81 | one byte, or 1 and two bytes |
| `SnCodec.DecodeLengthField` | paho.mqtt-sn.embedded-c/MQTTSNPacket/src/MQTTSNPacket.c:90-115 | length and size of the field, -1 when it is cut off |
| `SnCodec.FrameSize` | paho.mqtt-sn.embedded-c/MQTTSNPacket/src/MQTTSNPacket.c:54-81 | the bytes written are the announced length except for a body of 255, where they are two more |
| `SnCodec.AnnouncedLength` | paho.mqtt-sn.embedded-c/MQTTSNPacket/src/MQTTSNPacket.c:54-115 | the receiver reads the true length exactly for bodies up to 65532 other than 255 |
| `SnCodec.SerializePublish` | paho.mqtt-sn.embedded-c/MQTTSNPacket/src/MQTTSNSerializePublish.c:30-103 | the buffer starts with exactly the encoded PUBLISH and is untouched behind it; or it is too short and unchanged; or, exactly for a body of 255 bytes in a buffer of 256 or 257, it is overrun |
| `SnCodec.DeserializePublish` | paho.mqtt-sn.embedded-c/MQTTSNPacket/src/MQTTSNDeserializePublish.c:36-86 | what the specification reads from these bytes, including refusals and reads outside the buffer |
| `SnCodec.PublishRoundTrip` | paho.mqtt-sn.embedded-c/MQTTSNPacket/src/MQTTSNSerializePublish.c:54-103 | reading back gives the same PUBLISH, for every topic form, payload and trailing bytes, if and only if the body is not 255 bytes and at most 65532 |
| `SnCodec.SetPublish` | paho.mqtt-sn.embedded-c/MQTTSNGateway/src/MQTTSNGWPacket.cpp:222-230 | a packet the gateway builds consists of the encoded bytes if its announced length is at most 1024; otherwise it is not in the buffer |
| `SnCodec.SerializeRegister` | paho.mqtt-sn.embedded-c/MQTTSNPacket/src/MQTTSNSerializePublish.c:212-254 | the buffer starts with exactly the encoded REGISTER and is untouched behind it; or it is too short and unchanged; or, exactly for a body of 255 bytes in a buffer of 256 or 257, it is overrun |
| `SnCodec.DeserializeRegister` | paho.mqtt-sn.embedded-c/MQTTSNPacket/src/MQTTSNDeserializePublish.c:160-188 | ids and name as the specification reads them from these bytes, including refusals and reads outside the buffer |
| `SnCodec.RegisterRoundTrip` | paho.mqtt-sn.embedded-c/MQTTSNPacket/src/MQTTSNDeserializePublish.c:160-188 | reading back gives the same REGISTER, with anything behind it, if and only if the body is not 255 bytes and at most 65532 |
| `SnCodec.SetRegister` | paho.mqtt-sn.embedded-c/MQTTSNGateway/src/MQTTSNGWPacket.cpp:204-211 | the same for a REGISTER |
| `SnCodec.SerializeSubscribe` | paho.mqtt-sn.embedded-c/MQTTSNPacket/src/MQTTSNSubscribeClient.c:28-95 | the buffer starts with exactly the encoded SUBSCRIBE and is untouched behind it; or it is too short and unchanged; or, exactly for a body of 255 bytes in a buffer of 256 or 257, it is overrun |
| `SnCodec.DeserializeSubscribe` | paho.mqtt-sn.embedded-c/MQTTSNPacket/src/MQTTSNSubscribeServer.c:32-75 | flags, message id and filter as the specification reads them from these bytes, including refusals and reads outside the buffer |
| `SnCodec.SubscribeRoundTrip` | paho.mqtt-sn.embedded-c/MQTTSNPacket/src/MQTTSNSubscribeServer.c:32-75 | reading back gives the same SUBSCRIBE for each kind of filter, with anything behind it, if and only if the body is not 255 bytes and at most 65532 |
| `SnCodec.SerializePuback` | paho.mqtt-sn.embedded-c/MQTTSNPacket/src/MQTTSNSerializePublish.c:106-131 | the buffer starts with exactly the encoded PUBACK and is untouched behind it, or it has fewer than seven bytes and is unchanged |
| `WireLayout.FrameLayout` | paho.mqtt-sn.embedded-c/MQTTSNPacket/src/MQTTSNPacket.c:54-81 | the length is the first byte, or 1 and two bytes with the most significant first, and the body follows |
| `WireLayout.PublishLayout` | paho.mqtt-sn.embedded-c/MQTTSNPacket/src/MQTTSNSerializePublish.c:54-103 | byte for byte: type 12; flags with dup in bit 7, QoS in 6 and 5, retain in 4, the kind of topic in 1 and 0, 0 elsewhere; id or short name; message id; name; payload |
| `WireLayout.PublishRead` | paho.mqtt-sn.embedded-c/MQTTSNPacket/src/MQTTSNDeserializePublish.c:36-86 | any bytes with these numbers at these places are read as those fields |
| `WireLayout.PublishWithNameRead` | paho.mqtt-sn.embedded-c/MQTTSNPacket/src/MQTTSNDeserializePublish.c:36-86 | at QoS -1 with a NORMAL topic the two bytes are the length of a name that precedes the payload |
| `WireLayout.RegisterLayout` | paho.mqtt-sn.embedded-c/MQTTSNPacket/src/MQTTSNSerializePublish.c:226-254 | type 10, topic id, message id, name |
| `WireLayout.RegisterRead` | paho.mqtt-sn.embedded-c/MQTTSNPacket/src/MQTTSNDeserializePublish.c:160-188 | any bytes with these numbers at these places are read as those fields |
| `WireLayout.SubscribeLayout` | paho.mqtt-sn.embedded-c/MQTTSNPacket/src/MQTTSNSubscribeClient.c:28-95 | type 18, flags as in a PUBLISH without retain, message id, and a name, an id or two characters as the flags say |
| `WireLayout.SubscribeRead` | paho.mqtt-sn.embedded-c/MQTTSNPacket/src/MQTTSNSubscribeServer.c:32-75 | any bytes with these numbers at these places are read as those fields |
| `WireLayout.PubackLayout` | paho.mqtt-sn.embedded-c/MQTTSNPacket/src/MQTTSNSerializePublish.c:106-131 | seven bytes: 7, type 13, topic id, message id, return code |
| `WireLayout.OtherType` | paho.mqtt-sn.embedded-c/MQTTSNPacket/src/MQTTSNDeserializePublish.c:36-86 | another type byte and the packet is refused |
| `MqttCodec.EncodeLength` | paho.mqtt-sn.embedded-c/MQTTSNGateway/src/MQTTGWPacket.cpp:41-54 | the loop writes the base-128 digits of the length |
| `MqttCodec.ReceiveLength` | paho.mqtt-sn.embedded-c/MQTTSNGateway/src/MQTTGWPacket.cpp:195-208 | the loop reads at most three bytes, else -2; -1 when the connection fails; on a closed connection it goes on with the byte before |
| `MqttCodec.LengthRoundTrip` | paho.mqtt-sn.embedded-c/MQTTSNGateway/src/MQTTGWPacket.cpp:41-54 | reading what was written, followed by anything, gives the length and uses exactly its bytes below 128^3, and refuses every longer one |
| `MqttCodec.LengthMinimal` | paho.mqtt-sn.embedded-c/MQTTSNGateway/src/MQTTGWPacket.cpp:41-54 | no shorter sequence of bytes is read as the same length |
| `MqttCodec.MQTTGWPacket.SetPublish` | paho.mqtt-sn.embedded-c/MQTTSNGateway/src/MQTTGWPacket.cpp:403-432 | header and data hold the PUBLISH; two bytes less at QoS 0 |
| `MqttCodec.MQTTGWPacket.GetPublish` | paho.mqtt-sn.embedded-c/MQTTSNGateway/src/MQTTGWPacket.cpp:281-304 | what the specification reads from header and data, message id 0 at QoS 0 |
| `MqttCodec.MQTTGWPacket.GetPacketData` | paho.mqtt-sn.embedded-c/MQTTSNGateway/src/MQTTGWPacket.cpp:472-480 | header byte, length and data one after the other, nothing else touched; or, exactly when they are more than the buffer has, it is overrun |
| `MqttCodec.MQTTGWPacket.Send` | paho.mqtt-sn.embedded-c/MQTTSNGateway/src/MQTTGWPacket.cpp:234-241 | the flattened packet, unless it has more than 1024 bytes |
| `MqttCodec.SentIff` | paho.mqtt-sn.embedded-c/MQTTSNGateway/src/MQTTGWPacket.cpp:234-241 | the send buffer holds a packet exactly when its data has at most 1021 bytes |
| `MqttCodec.MQTTGWPacket.Recv` | paho.mqtt-sn.embedded-c/MQTTSNGateway/src/MQTTGWPacket.cpp:183-232 | header and data as sent and the size of the packet, or 0, -1 or -2; for the data, no more bytes are asked for than 16 bits say |
| `MqttCodec.PacketRoundTrip` | paho.mqtt-sn.embedded-c/MQTTSNGateway/src/MQTTGWPacket.cpp:183-232 | a flattened packet is received as it was, with anything behind it, if and only if it has fewer than 65536 bytes of data, and is otherwise refused |
| `MqttCodec.MadeUpIff` | paho.mqtt-sn.embedded-c/MQTTSNGateway/src/MQTTGWPacket.cpp:183-232 | of a connection that is closed after the first byte a packet is received exactly when the byte variable, which is not initialised, holds 0 |
| `MqttCodec.PublishRoundTrip` | paho.mqtt-sn.embedded-c/MQTTSNGateway/src/MQTTGWPacket.cpp:281-304 | the data of a PUBLISH reads back exactly when the topic's length fits in 16 bits |
| `MqttCodec.PublishOverTheWire` | paho.mqtt-sn.embedded-c/MQTTSNGateway/src/MQTTGWPacket.cpp:403-480 | set, flattened, received and read, a PUBLISH is the same (message id 0 at QoS 0) if and only if its data has fewer than 65536 bytes |
| `MqttCodec.LongPayloadRefused` | paho.mqtt-sn.embedded-c/MQTTSNGateway/src/linux/Network.cpp:485-499 | a PUBLISH with a payload of 70000 bytes: 4469 bytes are asked for, and it is refused |
| `WireLayout.MqttPublishLayout` | paho.mqtt-sn.embedded-c/MQTTSNGateway/src/MQTTGWPacket.cpp:403-432 | first byte with 3 in bits 7 to 4, dup in 3, QoS in 2 and 1, retain in 0; the topic's length in two bytes with the most significant first, the topic, at QoS 1 and 2 the message id, the payload |
| `WireLayout.MqttPublishRead` | paho.mqtt-sn.embedded-c/MQTTSNGateway/src/MQTTGWPacket.cpp:281-304 | any first byte and data with these numbers at these places are read as those fields |
| `WireLayout.RemainingLengthLayout` | paho.mqtt-sn.embedded-c/MQTTSNGateway/src/MQTTGWPacket.cpp:41-54 | one, two or three bytes: seven bits each, least significant first, the top bit in all but the last; the data follows |
| `WireLayout.RemainingLengthRead` | paho.mqtt-sn.embedded-c/MQTTSNGateway/src/MQTTGWPacket.cpp:195-208 | and such bytes are read as that number |
| `Translation.ClientToBroker` | paho.mqtt-sn.embedded-c/MQTTSNGateway/src/MQTTSNGWPublishHandler.cpp:61-134 | the bytes of a client's PUBLISH for a known topic become MQTT bytes from which exactly the same PUBLISH is read (dup flag, QoS, retain flag, topic name, payload, and at QoS 1 and 2 the message id) if and only if the payload is not 249 bytes, the client's packet has at most 1024 bytes and the MQTT packet too |
| `Translation.BrokerToClient` | paho.mqtt-sn.embedded-c/MQTTSNGateway/src/MQTTGWPublishHandler.cpp:76-167 | a listening client hears exactly what the broker said (dup flag, QoS, retain flag, topic name, message id, payload) if and only if the gateway can name the topic to it (short, known, or matched with room in the table), the topic has at least two bytes, the payload is not 249 bytes and its packet has at most 1024; and when a REGISTER must come first, whose bytes alone tell the client the name, the topic is not 250 bytes and that packet has at most 1024 |
| `Translation.EndToEnd` | paho.mqtt-sn.embedded-c/MQTTSNGateway/src/MQTTGWPublishHandler.cpp:76-167 | from client A's bytes over MQTT bytes to client B's bytes topic name, payload, QoS and retain flag are kept, and the dup flag and message id are those the broker chose, although A and B hold different ids, if and only if the conditions of both ways hold |
| `Translation.ArrivedIff` | paho.mqtt-sn.embedded-c/MQTTSNGateway/src/MQTTSNGWPacket.cpp:95-109 | the gateway reads what a client sent exactly when the packet has at most 1024 bytes and the payload is not 249, and otherwise nothing or less of the payload |
| `Translation.TooLongForBroker` | paho.mqtt-sn.embedded-c/MQTTSNGateway/src/MQTTGWPacket.cpp:234-241 | a topic of 600 characters and a payload of 600 bytes: the packet arrives whole, and the one for the broker overruns the buffer |
| `Translation.NameCutShort` | paho.mqtt-sn.embedded-c/MQTTSNGateway/src/MQTTSNGWPacket.cpp:204-211 | a topic of 250 characters under the filter `#`: the client is told one of 248 |
| `Packets.SnBytes` | paho.mqtt-sn.embedded-c/MQTTSNPacket/src/MQTTSNSerializePublish.c:54-103 | the bytes of any MQTT-SN PUBLISH that is sent, in terms of its own fields: kind 0 with a NORMAL id, 1 with a predefined one, 2 with the two characters |
| `Packets.SnRead` | paho.mqtt-sn.embedded-c/MQTTSNGateway/src/MQTTSNGWPacket.cpp:366-383 | and what the gateway reads from any such bytes |
| `Packets.RegisterBytes` | paho.mqtt-sn.embedded-c/MQTTSNGateway/src/MQTTSNGWPacket.cpp:204-211 | the bytes of a REGISTER the gateway sends: id, message id and the characters of the name |
| `Packets.GwBytes` | paho.mqtt-sn.embedded-c/MQTTSNGateway/src/MQTTGWPacket.cpp:403-432 | first byte and data of any PUBLISH for the broker, in terms of its own fields and the characters of its topic |
| `Packets.GwRead` | paho.mqtt-sn.embedded-c/MQTTSNGateway/src/MQTTGWPacket.cpp:281-304 | and what the gateway reads from any such bytes |
| `Packets.PubackNames` | paho.mqtt-sn.embedded-c/MQTTSNGateway/src/MQTTSNGWPublishHandler.cpp:113-117 | the bytes for the topic in a PUBACK are those in the PUBLISH if and only if it has an id or a short name of two equal characters; otherwise they are in the opposite order |
| `Packets.PubackOverTheWire` | paho.mqtt-sn.embedded-c/MQTTSNGateway/src/MQTTGWPublishHandler.cpp:180-197 | the same of every PUBACK that is passed on, in every run |

## Left out

- ClientSession.Session.HandleSubscribe: the map of the message ids that wait for a SUBACK, and the SUBACKs of the broker, are not modelled.
- ClientSession.Session.HandleConnect: the CONNECT data, will topic and will message packets and the session flag are not kept.
- ClientSession.Session.HandleClientPublish: the QoS -1 proxy, the aggregated path and long topic names at QoS -1 are not followed; a short name's 16-bit id is that of a little-endian machine.
- ClientSession.Session.RunOnce: stop, timeout and broadcast events, and packets other than those of `FromClient` and `FromBroker`, are not modelled; the send queues are unbounded logs.
- EventQueue.NoLostWakeUp: the threads are a state machine over the contract of `Que`; an interrupted semaphore wait is the step that gives up without a token; fairness of the scheduler is not assumed.
- EventQueue.EventQue.Wait: the method ends where the thread goes to sleep; what wakes it is a matter of the state machine. The mutex is not a field of the object, and its `size` is not modelled.
- SessionFlow.Conservation: a handler runs as one step; the report of a sent CONNECT falls between handlers or between a handler and its status update, not into one.
- SessionFlow.DrainKeepsOrder: nothing is said of a PUBLISH that was queued behind the PINGREQ and is handled before the drained ones.
- SessionTopics.UseAfterAnnouncement: the announcement by SUBACK is represented by the client's own subscription. A predefined topic configured with id 0, which the source makes a NORMAL one, is not covered.
- SessionPing.PingForwardedIff: REGACKs that are repeated or out of order are the matter of PingsIff.
- SessionLosses.AcknowledgedLostIff: a PUBLISH put on the REGACK list counts as held, also when no REGACK for it ever comes.
- SessionAcks.PubackLostIff: between the PUBLISH and its PUBACK the message id is not used again, answered or cleared; PubackCarriesLatest has the other cases.
- Tree23Map.Tree23.RemoveMax: the element is returned instead of stored through a pointer; elements are values.
- TopicsList.Topics.Register: names are strings of bytes; the check of a packet's topic type is kept, the C string conversion is `CStr`.
- MessageIds.MessageIdTable.Erase: the table's destructor and the locks around its methods are not modelled.
- SnCodec.SetPublish: what lies behind the buffer, of which the source copies 65534 bytes when a packet is too long for it, is not modelled; the result is None.
- SnCodec.DeserializePublish: the dup flag is read as a truth value (the C bit-field is signed and gives 255); a read outside the buffer ends the model's reading as `Broken`.
- MqttCodec.MQTTGWPacket.GetPacketData: what is overwritten behind the buffer, of whose size the source knows nothing, is not modelled; the result is Overrun.
- MqttCodec.MQTTGWPacket.Recv: one call of `Network::recv` is taken to deliver as much of what it is asked for as the packet has; a stream may deliver less, and the source then gives up with -2. The TLS path and a failed allocation (-3) are not modelled.
- Translation.BrokerToClient: a PUBLISH that is held counts as heard, although it leaves only on a REGACK with its message id (ReleasedByItsRegack), which the client is assumed to send.
- Translation.EndToEnd: QoS 0 to 2 and topics without NUL; B's predefined ids are configured once each; the broker is taken to keep topic, payload, QoS and retain flag and to choose its own message id and dup flag. Under a known id B is taken to know the table the gateway keeps for it, which UseAfterAnnouncement and AnnouncementsAgree bear out.
- Names that begin with `$` (section 4.7.2 of MQTT 3.1.1): the source treats them like others, and so does the model.
- `setMsgId` on a PUBLISH, which overwrites bytes before the id: aggregation is not part of this model.
- Sockets, TLS, timers, log output, configuration files, process control, the client library and the tester: input, output and plumbing.
- Memory release and ownership: objects are garbage-collected.
