# Verified model of the game's network layer

The game runs a client and an authoritative server over UDP. This project models the C++ code
that makes UDP usable for it, and proves what that code guarantees and where it stops
guaranteeing it:

- **Sequence numbers** (`SequenceNumbers.dfy`). A sender counts in 64 bits and sends its count
  modulo 65535; the receiver rebuilds a 64-bit count from differences modulo 65536.
- **The acknowledgement field** (`AckBits.dfy`). `ComputeAckBits` packs the last packets into 32
  bits, `VerifyAck` and `StoreAcks` unpack them.
- **The two game-state handlers** (`Links.dfy`, `ServerLink.dfy`, `ClientLink.dfy`). What every
  packet does to the counters and lists of a server-side player and of the client, over every run.
- **Times** (`Timing.dfy`). What the ends record of each packet, and the round trip that the client
  notes, in terms of when packets were sent and first answered, over every run.
- **Both ends together** (`Channels.dfy`, `Exchange.dfy`, `Marking.dfy`, `Origins.dfy`). Client,
  server and two channels that lose, repeat and reorder packets as a step system. At every step of
  every run: which packets an acknowledgement marks, in terms of what its sender has counted, and
  when only received packets are ever marked.
- **In order** (`Reliability.dfy`, `Wrapping.dfy`, `Streams.dfy`). The same in terms of the packets
  received, on channels that keep their order: before the first wrap of the wire number, and past
  any number of wraps if the gaps can be bridged.
- **Where soundness ends** (`Rounds.dfy`, `Lateness.dfy`, `Misleading.dfy`, `Drift.dfy`,
  `Overtaking.dfy`). Runs of both ends from the start that end with a packet acknowledged but never
  received: by delay, at a wrap in three ways, and by overtaking.
- **The queue between two threads** (`NetworkQueue.dfy`). Sequentially, and in every interleaving
  of single loads and stores.
- **The checksum** (`Bits.dfy`, `Crc32Spec.dfy`, `Crc32.dfy`, `NetworkPacket.dfy`). The table-driven
  CRC against the shift register of section 8 of RFC 1952, and what damage it must notice.
- **The game-state packet** (`Wire.dfy`, `GamePacket.dfy`). Byte layout, writers, readers, round trip.
- **The connection handshake** (`Handshake.dfy`, `HandshakeRuns.dfy`). Server handlers, the client's
  attempt, their agreement over lossy channels, and runs that show what it needs.
- **Clock synchronisation** (`IntegerDivision.dfy`, `ClockSync.dfy`).

`Wrappers.dfy` holds the option type that several of them use.

Code that changes state step by step is a class or a method with loops, proved against a function
of the old state; the properties are lemmas about those functions. A run of a system is a sequence
of states and a sequence of actions. Time and random numbers are parameters.

## Where the code departs from its evident intent

The model follows the code. These are results, each with its exact condition, and where a
guarantee fails with a run that shows it:

- An acknowledged packet was not always received. Over every run it was exactly if each header that
  comes in is harmless to what is then stored (`AcknowledgedWasReceivedIff`), and which headers are
  is given exactly (`ClientStepMarksExactly`, `ServerStepMarksExactly`). Before the first wrap, on
  channels that keep their order, all are that lag by at most 32768 (`PromptIsSound`).
- A later acknowledgement is taken for packet 2 L - A - 65536 instead of A (`TranslateAckIs`,
  `LateMarksExactly`), which is harmless under an exact condition (`AcknowledgedWasReceived`,
  `LateIsHarmlessIff`). A client that hears nothing makes the server retire every second number, from
  packet 32769 on (`SilenceIsAcknowledged`, `SilenceMisleads`).
- Each wrap of the wire number costs the receiver one count (`StreamTracksIff`, `TracksModulo`). That
  breaks acknowledgements in three ways. One that crosses a wrap is taken for another packet
  (`TruthfulMarksExactly`, `TruthfulIsHarmlessIff`); a run in which of 65535 replies only the
  first and the last are lost retires the first (`WrapMisleads`). A reply whose window spans a wrap reports
  the packets before the wrap one place off (`AnswerMarksExactly`), and is true under an exact
  condition (`AnswerIsTrueIff`); if only packets 65534 and 65535 arrive the client marks 65533 and not
  65534 (`WindowMisleads`). And the client computes its field for the small remote number, which
  drifts away from the large one (`HeaderMarksExactly`); a run with losses only ends with a reply
  retired that never came in (`DriftMisleads`). Over every run in order, what each packet does past
  any number of wraps is given by `ClientStepInOrder` and `ServerStepInOrder`.
- The client's field reports on all arrivals exactly when the window before the small number looks
  like the one before the large number (`FieldReportsHistoryIff`), and it is empty exactly when
  nothing lies before the small number (`FieldIsEmptyIff`). In between it claims packets that were
  never received: four packets in order are enough (`DriftedFieldMisreports`).
- `SequenceNumberDiff` never reports a backward step: a shorter backward step is folded into a
  positive distance (`DiffMeaning`, `LatePacketAdvances`). So the reply to the first overtaken packet
  reports on packets a fixed distance later than it says (`OvertakenReplyClaims`), truly under an
  exact condition (`OvertakenReplyIsTrueIff`), and from any quiet state, the start included, a run
  ends with a false acknowledgement (`OvertakingMisleads`, `OvertakingMisleadsAtStart`). What every
  reply says after any arrivals in any order is given over their counts (`ReplyMarksExactly`).
- Bit 0 of the field is written but never acted on (`WindowTransfer`).
- A scan for a small `ack` can miss an entry when its counter underflows (`ScanIsMembershipIff`).
- The client's pruning empties its list when fewer than 33 packets are stored, and the second
  pruning block never does anything (`PruneMeaning`). So it counts packets as lost that the server
  has received, exactly those outside the window of the acknowledgement at hand (`LostOverRuns`).
- The player list arrives only with up to 33 players, because a longer packet does not fit the
  receive buffer (`PlayersArriveIff`); the signed count byte alone would allow 127
  (`CountByteSufficesIff`).
- A new player gets an ID that is in use already exactly when ID 1 is (`NewIDIsTakenIff`).
- Client and server agree on the connection only while messages keep their order and salts are fresh
  (`ConnectedClientIsConnectedAtServer`, `SaltReuseDisagrees`, `OvertakingDisagrees`).
- A player left behind by an unfinished attempt makes every later clean attempt from that address
  fail (`CleanAttemptSucceedsIff`, `LeftoverBlocksForever`).
- Clock samples do not cancel the round trip (`SampleMeaning`, `SymmetricBias`).

## Model

| member | source | states |
|---|---|---|
| SequenceNumbers.DiffMeaning | src/cpp/RocketServer/NetworkUtilities.h:16-27 | the difference is the forward distance modulo 65536 exactly when the step is not a backward step shorter than half the range; such a step comes out positive; only a repeat gives zero |
| SequenceNumbers.StepIsExactIff | src/cpp/RocketServer/NetworkUtilities.h:16-27 | for any later packet the wire difference equals the growth of the sender's count plus its wraps exactly when no wrap is crossed or at most 32766 packets are skipped |
| SequenceNumbers.AdvanceTracksIff | src/cpp/RocketServer/Server.cpp:308-316 | a receiver in step stays in step under exactly that condition |
| SequenceNumbers.StreamTracksIff | src/cpp/RocketConsole/Client.cpp:383-391 | over every non-decreasing stream the rebuilt count is the sender's count plus one for each wrap, after every packet, exactly when every gap stays within one round of the wire number or skips at most 32766 packets |
| SequenceNumbers.TracksModulo | src/cpp/RocketServer/Server.cpp:362-363 | the rebuilt count agrees with the wire number modulo 65536, and with the sender's count exactly before the first wrap |
| SequenceNumbers.LatePacketAdvances | src/cpp/RocketServer/Server.cpp:308-321 | any smaller wire number moves the receiver forward, by the step back or by its complement; the out-of-order branch is never reached |
| SequenceNumbers.TranslateAckIff | src/cpp/RocketServer/Server.cpp:328-331 | an acknowledgement of any earlier packet is translated to that packet exactly when no wrap lies in between and it lags by at most 32768 |
| SequenceNumbers.TranslateAckIs | src/cpp/RocketServer/Server.cpp:328-331 | what becomes of every acknowledgement A less than a whole round before L: A itself; if it lags by more than 32768, 2 L - A - 65536; if a wrap lies in between, 2 L - A - 65535 |
| AckBits.AckFieldMeaning | src/cpp/RocketServer/NetworkUtilities.h:29-52 | on any ascending list, which bits the two-index scan sets, underflow included |
| AckBits.ScanIsMembershipIff | src/cpp/RocketServer/NetworkUtilities.h:29-52 | every bit is membership of ack - 32 + b in 64 bits, exactly when no underflow can hide an entry |
| AckBits.ComputeAckBits | src/cpp/RocketServer/NetworkUtilities.h:29-52 | the nested loops compute that field |
| AckBits.StoreAcks | src/cpp/RocketServer/NetworkUtilities.h:54-78 | the two loops append ack and the numbers of the set bits that are not there yet |
| AckBits.StoredMeaning | src/cpp/RocketServer/NetworkUtilities.h:54-78 | old data stays in front, exactly ack and ack - 32 + b for set bits are added, and no duplicates arise |
| AckBits.EncodeInvertsDecodeIff | src/cpp/RocketServer/NetworkUtilities.h:29-78 | packing the sorted result of unpacking gives the 32 bits back exactly when no set bit speaks of a number below zero |
| AckBits.VerifyAck | src/cpp/RocketServer/NetworkUtilities.h:80-111 | on any ascending list, for every stored packet: if it was not acknowledged and is claimed, it keeps its number and time of sending, is marked, and gets the clock reading of the iteration that finds it and the time passed since it was sent; otherwise it is unchanged. On any other list the loops equal the function Verified |
| AckBits.VerifiedMeaning | src/cpp/RocketServer/NetworkUtilities.h:80-111 | the same of that function: which entries are claimed, including the first entry after an underflow, and each field of what they become; every other entry, and every earlier acknowledgement, is unchanged |
| AckBits.WindowTransfer | src/cpp/RocketServer/NetworkUtilities.h:29-111 | packing at the receiver and unpacking at the sender newly acknowledges exactly ack and the received entries from ack - 31 to ack - 1, and past zero the first entry if it is the receiver's first, each stamped with the clock reading and the time since it was sent |
| Links.BoundedHistory | src/cpp/RocketServer/Server.cpp:346-360 | the field for the newest number on the newest 33 or more entries is the field on the whole history |
| Links.ThirtyTwoIsTooFew | src/cpp/RocketConsole/Client.h:43 | 33 is tight: with 32 entries a received packet disappears from the field |
| Links.ArrivalKeepsHistory | src/cpp/RocketConsole/Client.cpp:383-391 | for any arriving number the trimmed list stays the newest part of a strictly rising history that ends at the remote number |
| ServerLink.Player.ReceiveNumber | src/cpp/RocketServer/Server.cpp:308-326 | the first part of the handler: count forward and remember the packet, or nothing on a repeat |
| ServerLink.Player.ReceiveAck | src/cpp/RocketServer/Server.cpp:328-331 | the acknowledgement is translated and applied to the stored packets |
| ServerLink.Player.TidyLists | src/cpp/RocketServer/Server.cpp:333-353 | acknowledged packets leave the list, received packets are cut to the newest 60 |
| ServerLink.Player.SendReply | src/cpp/RocketServer/Server.cpp:359-387 | the reply's header and the new stored packet |
| ServerLink.Player.HandleGameState | src/cpp/RocketServer/Server.cpp:308-387 | the whole handler is the step ServerStep, and its reply is Reply |
| ServerLink.RemoveAcknowledged | src/cpp/RocketServer/Server.cpp:334-344 | the removal loop keeps the unacknowledged packets in order |
| ServerLink.UnacknowledgedSplits | src/cpp/RocketServer/Server.cpp:334-344 | removal splits the stored numbers into kept and retired ones, none in both, none lost |
| ServerLink.ServerKeeps | src/cpp/RocketServer/Server.cpp:308-387 | over every run of arbitrary packets: the received list is the newest 60 of all arrivals, strictly ascending, ending at the remote number; the numbers 1 to localLarge are exactly split into stored unacknowledged packets and retired ones, and the list ends at localLarge |
| ServerLink.ReplyReportsFullHistory | src/cpp/RocketServer/Server.cpp:346-372 | over every run the reply's field is the field of all arrivals, not only of the 60 stored |
| ClientLink.PrunePackets | src/cpp/RocketConsole/Client.cpp:409-443 | the countdown pass removes a prefix and counts acknowledged, lost and round-trip time |
| ClientLink.PruneMeaning | src/cpp/RocketConsole/Client.cpp:409-454 | each removed packet is counted once; with 33 or more stored exactly the newest 33 survive, with fewer none; the second block finds nothing to do |
| ClientLink.AverageBetween | src/cpp/RocketConsole/Client.cpp:456-463 | the average round trip lies between the shortest and the longest one it is taken over |
| ClientLink.AverageMeaning | src/cpp/RocketConsole/Client.cpp:456-467 | the two divisions, one by the number of packets and one by a million, are one division of the summed round trips of the removed packets; without an acknowledged one the old value stays |
| ClientLink.AverageIsFloor | src/cpp/RocketConsole/Client.cpp:456-467 | for a sum in range it is the whole number of milliseconds: n times a million times the result is at most the sum, and the sum is less than for one more |
| ClientLink.SumsFromFront | src/cpp/RocketConsole/Client.cpp:415-443 | both sums over the removed packets are the same counted from the other end: one entry is worth one and its round trip if it is acknowledged, and nothing if not |
| ClientLink.Client.HandleGameState | src/cpp/RocketConsole/Client.cpp:369-476 | with the right salt the handler is the step ClientReceive; if no removed packet is acknowledged the noted round trip stays, and otherwise it is their summed round trips divided by their number and by a million, rounded towards zero, in 64 bits. With a wrong salt nothing changes |
| ClientLink.Client.PruneLists | src/cpp/RocketConsole/Client.cpp:409-476 | both pruning blocks, the cut of the received list, and that average |
| ClientLink.Client.SendGameState | src/cpp/RocketConsole/Client.cpp:500-521 | the header of the next packet, with the field for the small remote number, and the new stored packet |
| ClientLink.ClientKeeps | src/cpp/RocketConsole/Client.cpp:383-521 | over every run: acknowledged plus lost plus stored equals sent, the stored numbers end at localLarge without a gap, and the received list is the newest 33 of all arrivals |
| Timing.ClientRecords | src/cpp/RocketServer/NetworkUtilities.h:101-103 | over every run of the client, with arbitrary packets coming in: each stored packet carries the clock reading at which it was sent; it is marked exactly if a header has acknowledged it since; and then its round trip is the reading for the first such header less the reading at which it was sent |
| Timing.NotedRoundTrip | src/cpp/RocketConsole/Client.cpp:409-467 | over every run: when a packet comes in, the noted round trip stays if none of the packets removed was ever answered, and otherwise it is the whole-millisecond average, over the answered ones among them, of the time from sending to the first answer |
| Timing.ServerRecords | src/cpp/RocketServer/Server.cpp:384-387 | over every run of the server each stored reply carries the time at which it was sent, and is not acknowledged |
| Timing.UnacknowledgedAre | src/cpp/RocketServer/Server.cpp:333-344 | removal leaves exactly the entries that are not acknowledged, and leaves them as they are |
| ClientLink.FieldReportsHistoryIff | src/cpp/RocketConsole/Client.cpp:503-504 | over every run the client's field is the field of all arrivals exactly when the 32 places before the small remote number look like those before the large one |
| ClientLink.FieldIsEmptyIff | src/cpp/RocketConsole/Client.cpp:503-504 | the field is zero exactly when no stored number lies in the 32 places before the small remote number |
| ClientLink.DriftedFieldMisreports | src/cpp/RocketConsole/Client.cpp:503-504 | a run of four in-order packets after which the field claims a packet that was never received |
| Exchange.AcknowledgedWasReceivedIff | src/cpp/RocketServer/NetworkUtilities.h:16-111 | over every run, with loss, repetition, overtaking, wraps and delays: what either end has marked acknowledged the other has always received, exactly when at every step the stored packets that the incoming header is taken to claim were received |
| Marking.TruthfulMarksExactly | src/cpp/RocketServer/NetworkUtilities.h:80-111 | a truthful header, however late and across a wrap or not, marks the packet that its acknowledgement is taken for, and each stored one before it whose counterpart, as far before the acknowledged one, was received |
| Marking.TruthfulIsHarmlessIff | src/cpp/RocketServer/NetworkUtilities.h:80-111 | it marks nothing falsely exactly when all of those were received |
| Marking.ReplyMarksExactly | src/cpp/RocketServer/Server.cpp:308-372 | over every run of the server, whatever arrived and in whatever order: its reply makes any client mark exactly the stored packets that lie as far before the one taken as some arrival's count lies before the newest count |
| Marking.ReplyIsHarmlessIff | src/cpp/RocketServer/Server.cpp:308-372 | nothing falsely exactly when all of those were received |
| Marking.NextHeaderMarksExactly | src/cpp/RocketConsole/Client.cpp:500-511 | the same for the client's next packet over every run of the client, counted from the small remote number over the newest 33 arrivals |
| Marking.NextHeaderIsHarmlessIff | src/cpp/RocketConsole/Client.cpp:500-511 | nothing falsely exactly when all of those were received |
| Origins.ClientStepMarksExactly | src/cpp/RocketConsole/Client.cpp:383-407 | at every step of every run of both ends: the packet the client takes is a reply after some run of the server, it marks exactly what that run's counts vouch for, and the step is harmless exactly when the server has received those |
| Origins.ServerStepMarksExactly | src/cpp/RocketServer/Server.cpp:308-331 | the same whenever the server takes a packet |
| Reliability.MarksExactly | src/cpp/RocketServer/NetworkUtilities.h:80-111 | before the first wrap a truthful header marks exactly what it covers of the stored packets; if it lags by at most 32768, exactly the ones in its window that the peer has received |
| Reliability.ReplyIsAccurate | src/cpp/RocketServer/Server.cpp:359-372 | the reply to an in-order packet tells exactly what the server has received in its window |
| Reliability.NextHeaderIsAccurate | src/cpp/RocketConsole/Client.cpp:500-511 | so does the client's next packet, before the first wrap |
| Reliability.StepKeeps | src/cpp/RocketServer/Server.cpp:293-397 | every step in order before the first wrap, of either end or channel and however late, keeps the system invariant: both ends, both channels, and what each header in flight claims |
| Reliability.AcknowledgedWasReceived | src/cpp/RocketServer/NetworkUtilities.h:16-111 | over every run in order before the first wrap, with loss and repetition: only received packets are ever marked acknowledged, exactly when every header that lags by more than 32768 covers no stored packet that was not received |
| Reliability.PromptIsSound | src/cpp/RocketServer/NetworkUtilities.h:16-111 | so soundness holds in every such run in which no acknowledgement lags by more than 32768 |
| Reliability.ClientMarksExactly | src/cpp/RocketConsole/Client.cpp:383-407 | completeness: over every such run, however late, what one packet delivered to the client marks; in time, exactly the stored packets from ack - 31 to ack that the server has received |
| Reliability.ServerMarksExactly | src/cpp/RocketServer/Server.cpp:308-331 | the same for the server |
| Reliability.LostOverRuns | src/cpp/RocketConsole/Client.cpp:409-443 | over every such run, which packets a prune counts as lost: those not covered; of the ones that the server has received, if the acknowledgement comes in time, exactly those outside its window |
| Reliability.RoundTripAcknowledges | src/cpp/RocketConsole/Client.cpp:369-521 | progress: from a quiet state before the first wrap, one undisturbed round trip acknowledges the packet sent |
| Wrapping.ServerCounts | src/cpp/RocketServer/Server.cpp:308-316 | over every in-order stream with gaps that can be bridged, the server counts each packet with the wraps before it |
| Wrapping.ClientCounts | src/cpp/RocketConsole/Client.cpp:383-391 | so does the client |
| Wrapping.AnswerMarksExactly | src/cpp/RocketServer/Server.cpp:308-372 | past any number of wraps: what the server's reply makes the client mark; a packet of the round before the acknowledged one's is marked exactly when the next packet of its round was received |
| Wrapping.AnswerIsTrueIff | src/cpp/RocketServer/Server.cpp:346-372 | the reply's field is true exactly when every packet of the round before, in its window, whose successor in that round was received was received itself |
| Wrapping.AnswerIsHarmlessIff | src/cpp/RocketServer/Server.cpp:308-372 | the reply marks nothing falsely exactly when all that it stands for was received, across wraps and delays |
| Wrapping.PromptAnswerIsHarmlessIff | src/cpp/RocketConsole/Client.cpp:404-407 | a client that takes it in time and in the same round marks nothing falsely exactly when every stored packet of that kind was received |
| Wrapping.HeaderMarksExactly | src/cpp/RocketConsole/Client.cpp:500-511 | past any number of wraps: what the client's next packet makes the server mark, by the newest 33 counts before the small number |
| Wrapping.HeaderIsHarmlessIff | src/cpp/RocketConsole/Client.cpp:500-511 | nothing falsely exactly when all that it stands for was received |
| Wrapping.SmallCountsAreEarly | src/cpp/RocketConsole/Client.cpp:503-504 | all that the client's field reports on is packets of the first round |
| Streams.ClientStepInOrder | src/cpp/RocketConsole/Client.cpp:383-407 | over every run of both ends in order, past any number of wraps: each reply the client takes reports on a stream of received packets; if its gaps could be bridged and it is less than a round late, what it marks and when the step is harmless, in terms of those packets |
| Streams.ServerStepInOrder | src/cpp/RocketServer/Server.cpp:308-331 | the same for each packet the server takes |
| Lateness.LateMarksExactly | src/cpp/RocketServer/Server.cpp:328-331 | before the first wrap, an acknowledgement A that lags by more than 32768 marks packet 2 L - A - 65536, whatever was received, and those before it whose counterpart before A was received |
| Lateness.LateIsHarmlessIff | src/cpp/RocketServer/Server.cpp:328-331 | nothing falsely exactly when all of those were received |
| Lateness.SilenceIsAcknowledged | src/cpp/RocketServer/Server.cpp:328-344 | a run from the start for every n below 65535: after n rounds with every reply lost, the server has retired exactly the even numbers up to 2 (n - 1) - 65536, and the client has received nothing |
| Lateness.SilenceMisleads | src/cpp/RocketServer/Server.cpp:328-344 | so after 32770 rounds exactly packet 2 |
| Misleading.RunStores | src/cpp/RocketServer/Server.cpp:308-387 | over every run in which only the first reply is lost and every later one acknowledged, the server stores its first and its last reply |
| Misleading.LostReplyIsRetired | src/cpp/RocketServer/Server.cpp:328-344 | after 65535 such packets a truthful acknowledgement of reply 65534 retires reply 1, which was never received |
| Misleading.WrapMisleads | src/cpp/RocketServer/Server.cpp:328-344 | a run of both ends from the start, in order: of 65535 replies only the first and the last are lost, and the client's next packet makes the server retire the first |
| Misleading.WindowMisleads | src/cpp/RocketServer/Server.cpp:346-372 | a run from the start, in order: only packets 65534 and 65535 arrive, and the second reply makes the client mark 65533, which did not, and not 65534 |
| Drift.DriftMisleads | src/cpp/RocketConsole/Client.cpp:503-504 | a run from the start, in order: of 65734 replies four come in, and the drifted client's next packet makes the server retire one that did not |
| Overtaking.OvertakenReplyClaims | src/cpp/RocketServer/Server.cpp:308-372 | at a server in order so far, the reply to an overtaken packet m claims m, and of an earlier packet in its window exactly whether the packet a fixed distance later was received |
| Overtaking.OvertakenReplyIsTrueIff | src/cpp/RocketServer/Server.cpp:308-372 | all its claims are true exactly when everything received at that distance after the window was received in the window, too |
| Overtaking.OvertakenReplyMarks | src/cpp/RocketConsole/Client.cpp:404-407 | a client that gets the reply in time marks exactly what it claims |
| Overtaking.OvertakingMisleads | src/cpp/RocketServer/Server.cpp:308-372 | from every quiet state a run with one loss, one overtaking and one lost reply ends with a packet marked acknowledged that the server never received |
| Overtaking.OvertakingMisleadsAtStart | src/cpp/RocketServer/Server.cpp:308-372 | the same from the start, for packet 1 |
| NetworkQueues.NetworkQueue.Push | src/cpp/RocketServer/NetworkQueue.h:14-26 | appends the item, or refuses exactly when capacity - 1 items are present and changes nothing |
| NetworkQueues.NetworkQueue.Pop | src/cpp/RocketServer/NetworkQueue.h:29-39 | removes and returns the oldest item, or nothing exactly when the queue is empty |
| NetworkQueues.StepKeeps | src/cpp/RocketServer/NetworkQueue.h:14-39 | each single load, store or buffer access, by either thread, keeps the ring-buffer invariant |
| NetworkQueues.PoppedIsPrefix | src/cpp/RocketServer/NetworkQueue.h:14-39 | in every interleaving the popped items are a prefix of the pushed ones, with fewer than capacity in flight |
| NetworkQueues.SlotsNeverConflict | src/cpp/RocketServer/NetworkQueue.h:19-36 | when the producer is about to write a slot, it is no slot that holds an unread item, and not the slot the consumer is about to read |
| NetworkQueues.NeverBlocked | src/cpp/RocketServer/NetworkQueue.h:14-39 | in every interleaving both threads can always take their next access, inside the buffer |
| NetworkQueues.RefinesFifo | src/cpp/RocketServer/NetworkQueue.h:14-39 | every access is a step of an atomic bounded queue; full is reported only with capacity - 1 items present when m_tail is read, empty only with none when m_head is read |
| NetworkQueues.UninterruptedPush | src/cpp/RocketServer/NetworkQueue.h:14-26 | the single accesses of a push, uninterrupted, have the effect of the whole method |
| NetworkQueues.UninterruptedPop | src/cpp/RocketServer/NetworkQueue.h:29-39 | so have those of a pop |
| Crc32.GenerateTable | src/cpp/RocketServer/CRC32.cpp:9-22 | entry i of the table is eight bit times applied to i |
| Crc32.CRC32.Update | src/cpp/RocketServer/CRC32.cpp:35-40 | the loop feeds the bits of the data into the reference register, from any state |
| Crc32.UpdateWordIsFeed | src/cpp/RocketServer/CRC32.cpp:38 | one table step is eight bit times of the shift register of section 8 of RFC 1952 |
| Crc32.UpdateIsBitwise | src/cpp/RocketServer/CRC32.cpp:35-40 | for every state and byte string the table form equals the bitwise form |
| Crc32.UpdateConcat | src/cpp/RocketServer/CRC32.cpp:35-40 | updating by a and then by b is updating by a + b |
| Crc32.Calculate | src/cpp/RocketServer/CRC32.cpp:47-52 | bit b of the one-shot checksum is set exactly if bit b of the shift register is not, after all bits of the data were fed into it from all ones (section 8 of RFC 1952) |
| Crc32.ChecksumBit | src/cpp/RocketServer/CRC32.cpp:42-52 | the same of the function: start value, every byte, and the final complement |
| Crc32Spec.PolynomialIs | src/cpp/RocketServer/CRC32.cpp:4 | the constant is the polynomial of that section, term by term |
| Crc32.ChecksumDetectsBurst | src/cpp/RocketServer/CRC32.cpp:35-45 | messages of any length that differ only within 32 consecutive bits have different checksums |
| Crc32Spec.BurstDetected | src/cpp/RocketServer/CRC32.cpp:4 | the reason, on the register: a bit time is linear and loses nothing for this polynomial |
| Packets.ValidatesIffStamped | src/cpp/RocketServer/NetworkPacket.cpp:129-153 | a packet validates exactly if its field is what CalculateCRC writes |
| Packets.ValidatesIffHoldsChecksum | src/cpp/RocketServer/NetworkPacket.cpp:129-143 | a packet validates exactly if each bit of its field is the complement of the register's, for the byte 0xFE and the rest, most significant byte first |
| Packets.StampBit | src/cpp/RocketServer/NetworkPacket.cpp:145-153 | each bit that CalculateCRC writes, in terms of the register of section 8 of RFC 1952 |
| Packets.FieldDamageDetected | src/cpp/RocketServer/NetworkPacket.cpp:129-143 | any change confined to the CRC field is rejected |
| Packets.BurstDamageDetected | src/cpp/RocketServer/NetworkPacket.cpp:129-143 | any change to the payload confined to 32 consecutive bits is rejected |
| Packets.FourByteDamageDetected | src/cpp/RocketServer/NetworkPacket.cpp:129-143 | any change confined to four consecutive payload bytes is rejected, for payloads of any length |
| Wire.GetPut64 | src/cpp/RocketServer/NetworkPacket.cpp:56-105 | a 64-bit value written anywhere is read back from there |
| Wire.GetPut32 | src/cpp/RocketServer/NetworkPacket.cpp:49-97 | so is a 32-bit value |
| Wire.GetPut16 | src/cpp/RocketServer/NetworkPacket.cpp:42-89 | so is a 16-bit value |
| Wire.BigEndian64 | src/cpp/RocketServer/NetworkPacket.cpp:56-68 | the most significant byte goes first |
| Wire.BigEndian32 | src/cpp/RocketServer/NetworkPacket.cpp:49-54 | so it does for 32 bits |
| Wire.BigEndian16 | src/cpp/RocketServer/NetworkPacket.cpp:42-47 | and for 16 bits |
| GamePackets.KeyboardRoundTrip | src/cpp/RocketServer/Keyboard.h:12-30 | each of the five keys comes back as 1 if it was not zero and as 0 if it was |
| GamePackets.KeysWritten | src/cpp/RocketServer/Keyboard.h:21-30 | bits 0 to 4 of the byte say which of up, down, left, right and space are not zero; the other bits are clear |
| GamePackets.KeysRead | src/cpp/RocketServer/Keyboard.h:12-19 | from any byte, key i is read as 1 if bit i is set and as 0 if it is not |
| GamePackets.PlayerLayout | src/cpp/RocketServer/GamePacket.cpp:3-14 | the place of each field in the 30 bytes of a player state |
| GamePackets.PlayerRoundTrip | src/cpp/RocketServer/GamePacket.cpp:3-40 | a player state comes back with its keyboard normalised and without its frame time |
| GamePackets.GameStateRoundTrip | src/cpp/RocketServer/Server.cpp:368-380 | the server's stamped bytes validate, and the client reads back every field and as many players as the signed count byte lets through |
| GamePackets.FrameLayout | src/cpp/RocketServer/Server.cpp:368-382 | the place of each field in the packet: checksum, packet type 10, salt, numbers, field and count |
| GamePackets.FramePlayers | src/cpp/RocketServer/Server.cpp:376-380 | the player numbered i stands 22 + 30 i bytes into the packet, in the order of the server's list |
| GamePackets.RefusedIff | src/cpp/RocketConsole/Client.cpp:339-356 | a complete packet is refused exactly if its field is not the checksum of the rest or its type is not 10 |
| GamePackets.CountByteSufficesIff | src/cpp/RocketServer/GamePacket.cpp:16-25 | as far as the signed count byte goes, the player list is read whole, with the cursor at the end of the packet, exactly for up to 127 players |
| GamePackets.PlayersArriveIff | src/cpp/RocketServer/Network.cpp:170-209 | through the 1024-byte receive buffer, on sockets that cut longer datagrams and on sockets that refuse them, the player list arrives whole exactly for up to 33 players |
| GamePackets.GamePacket.CalculateCRC | src/cpp/RocketServer/NetworkPacket.cpp:145-153 | leaves everything behind the first four bytes, and makes these hold, most significant byte first, the complement of the register that was fed the byte 0xFE and the rest |
| GamePackets.GamePacket.ReadAndValidateCRC | src/cpp/RocketServer/NetworkPacket.cpp:129-143 | returns 0 exactly if the first four bytes hold that checksum, bit for bit, and 1 otherwise; passes the field |
| GamePackets.GamePacket.Clear | src/cpp/RocketServer/NetworkPacket.cpp:29-35 | leaves the zero placeholder and the cursor at the start |
| GamePackets.GamePacket.SerializePlayerState | src/cpp/RocketServer/GamePacket.cpp:3-14 | appends the 30 bytes of a state |
| GamePackets.GamePacket.DeserializePlayerState | src/cpp/RocketServer/GamePacket.cpp:27-40 | reads the state whose fields stand where PlayerLayout says, and moves the cursor 30 bytes on |
| GamePackets.GamePacket.DeserializePlayerStates | src/cpp/RocketServer/GamePacket.cpp:16-25 | reads the count and that many states |
| GamePackets.SendGameState | src/cpp/RocketServer/Server.cpp:368-382 | the object built by the writers holds exactly the frame |
| GamePackets.ReceiveGameState | src/cpp/RocketConsole/Client.cpp:371-381 | the reads, in order, return what Parse says and end at the end of the player list |
| Handshakes.Server.FindPlayerID | src/cpp/RocketServer/Server.cpp:131-166 | the search loops as written find the ID of NewIDMeaning |
| Handshakes.NewIDMeaning | src/cpp/RocketServer/Server.cpp:131-166 | which ID they find: that of the first player at the address unless it is zero, otherwise the last of the IDs 1, 2, ... taken without a gap, at most 7, or 1 if that is free |
| Handshakes.NewIDIsTakenIff | src/cpp/RocketServer/Server.cpp:142-166 | a new address gets an ID already in use exactly when some player has ID 1 |
| Handshakes.Server.HandleConnectionRequest | src/cpp/RocketServer/Server.cpp:129-204 | appends one CONNECTING player with both salts, that ID and no clock offset, whose connection salt has exactly those bits set that are set in one of the salts and not the other; answers with both salts; leaves all others |
| Handshakes.XorCombines | src/cpp/RocketServer/Server.cpp:176 | bit i of a connection salt is set exactly if it is set in one of the two salts and not in the other |
| Handshakes.CombinedOnce | src/cpp/RocketConsole/Client.cpp:164 | no other salt has that property |
| Handshakes.XorLaws | src/cpp/RocketConsole/Client.cpp:102 | the salts can be exchanged, either is got back with the other, and the unset salt changes nothing |
| Handshakes.Server.HandleChallengeResponse | src/cpp/RocketServer/Server.cpp:206-261 | the first player at the address decides: with its connection salt it becomes CONNECTED, nothing else changes, and its ID is sent back; with another it is erased and denied; without a player there is no answer |
| Handshakes.Server.HandleDisconnect | src/cpp/RocketServer/Server.cpp:399-421 | removes the players with that salt at that address |
| Handshakes.Server.HandlePacket | src/cpp/RocketServer/Server.cpp:77-123 | the switch of the receive loop: what each kind of message does and is answered with |
| Handshakes.DisconnectedKeepsOthers | src/cpp/RocketServer/Server.cpp:399-421 | each player without that salt at that address stays, as it was and as often as it was there, and the others go |
| Handshakes.DisconnectedFromFront | src/cpp/RocketServer/Server.cpp:399-421 | in the same order |
| Handshakes.Server.HandleClockSync | src/cpp/RocketServer/Server.cpp:263-291 | if some player has the salt at the address, the first one's clock offset becomes the server's time less the client's, nothing else changes, and the server's time is sent back; otherwise nothing happens |
| Handshakes.ClockSyncKeepsQueues | src/cpp/RocketServer/Server.cpp:263-291 | a clock request is answered exactly if a player has its salt at its address, and disturbs no connection attempt |
| Handshakes.RequestJoinsQueue | src/cpp/RocketServer/Server.cpp:168-187 | per address the players form a queue of connection salts that a request joins at the end |
| Handshakes.ResponseMeetsHead | src/cpp/RocketServer/Server.cpp:206-261 | a response is compared with the head of its own queue only: accepted if equal, otherwise denied and the head is lost; other addresses are untouched |
| Handshakes.DisconnectClearsSalt | src/cpp/RocketServer/Server.cpp:399-421 | a disconnect removes exactly its salt from its queue |
| Handshakes.CleanAttemptSucceedsIff | src/cpp/RocketServer/Server.cpp:129-261 | an attempt whose packets all arrive once succeeds exactly when the queue was empty or its head happens to be the new salt |
| Handshakes.LeftoverBlocksForever | src/cpp/RocketServer/Server.cpp:206-261 | with one player left behind, any number of later clean attempts with differing salts are all denied |
| Handshakes.Client.EstablishConnection | src/cpp/RocketConsole/Client.cpp:21-169 | it succeeds exactly if both sends do, the challenge repeats the client's salt, and the answer is an acceptance; then the client is CONNECTED with the given ID and the bitwise combination of both salts, which is also what it has sent; otherwise salts and ID are cleared, and the state says how far it came |
| Handshakes.StepKeeps | src/cpp/RocketServer/Server.cpp:77-123 | every step in order of client, server, other clients and channels keeps the handshake invariant |
| Handshakes.ConnectedClientIsConnectedAtServer | src/cpp/RocketConsole/Client.cpp:128-169 | agreement over every run with fresh salts in which no message overtakes another: while a client is CONNECTED, the first player at its address is CONNECTED with its connection salt, and was marked so since the start |
| HandshakeRuns.SaltReuseDisagrees | src/cpp/RocketConsole/Client.cpp:28 | fresh salts are needed: a run in order with one salt used twice ends CONNECTED with a salt the server never accepted |
| HandshakeRuns.OvertakingDisagrees | src/cpp/RocketConsole/Client.cpp:128-169 | order is needed: a run with fresh salts in which the answer left from a timed-out attempt is overtaken by the next challenge ends the same way |
| ClockSync.Clock.SyncClock | src/cpp/RocketConsole/Client.cpp:171-276 | result, offset, round trip and connection state after all rounds: on success the samples' sum and all times of receipt less all times of sending, divided by the number of answers; a zero offset on failure; a lost connection exactly when a request could not be sent |
| ClockSync.MeasureFromFront | src/cpp/RocketConsole/Client.cpp:187-262 | the rounds in order: the first that fails decides, a timeout is skipped, and the answered ones are collected |
| ClockSync.RoundTripsTotal | src/cpp/RocketConsole/Client.cpp:246-247 | the summed round trips are all times of receipt less all times of sending |
| ClockSync.AverageRoundTripBounds | src/cpp/RocketConsole/Client.cpp:265-270 | the averaged round trip lies between the fastest and the slowest |
| ClockSync.SampleMeaning | src/cpp/RocketConsole/Client.cpp:246-256 | a sample is the server stamp against the time of receipt, up to one millisecond of rounding |
| ClockSync.SampleBounds | src/cpp/RocketConsole/Client.cpp:246-256 | a sample lies between the true offset less the round trip and the true offset plus one |
| ClockSync.SymmetricBias | src/cpp/RocketConsole/Client.cpp:253-256 | with equally long ways the sample is short by half the round trip |
| ClockSync.OffsetsBracket | src/cpp/RocketServer/Server.cpp:265-276 | the offset the server notes and the client's sample lie on either side of the true offset, a round trip apart |
| ClockSync.HandlersBracket | src/cpp/RocketServer/Server.cpp:263-291 | so for every exchange with the server's handler: it sends its time back, and the offset that it notes for the player and the client's sample lie on either side of the true offset, a round trip apart |
| ClockSync.AverageOffsetBounds | src/cpp/RocketConsole/Client.cpp:265-269 | for any number of samples the average lies between the true offset less the slowest round trip and the true offset plus one |

## Left out

- Sockets, logging, signals, sleeping and environment variables: a channel is a sequence of messages, a clock reading a parameter.
- The server's search for the player by salt and address in front of HandleGameState: ServerLink.Player stands for the player found. The keyboard it keeps from the packet, and the client's hand-over of the states read, are assignments outside the reliability state.
- The dispatch to HandleGameState: the server has no case for INPUT_FRAME, which the client sends, so the handlers themselves are taken as the steps of the protocol.
- The rest of the INPUT_FRAME packet: its layout is that of one player state, which is covered.
- Physics, prediction and RollbackAndReplay: floating-point simulation, and a replay that is never reached.
- Graphics, windowing and the .NET programs.
- PackKeyboard and WriteKeyboard: not used by the protocol.
- The player's ID on the wire: the server writes eight bytes where the client reads one, so Accepted carries an abstract number.
- The fixed size of 1000 bytes of connection requests and challenge responses, and the padding that gives it.
- Reads past the end of a packet: Complete and the readers' preconditions say which packets are long enough.
- Memory orders weaker than interleaving: the queue's steps are single loads and stores in some order.
- The C++ class Client is split by concern into the classes of ClientLink, Handshakes and ClockSync; NetworkPacket and GamePacket, which share one buffer and cursor, are one class.
- The CRC table is a field of each object here, and a static field filled once in the source.
- Lists of packets that the source changes in place are sequences held in fields, or passed to and returned from the static helpers, so aliasing of lists is not captured.
- ServerLink.ServerKeeps: for runs of fewer than 2^47 packets, so that no 64-bit counter wraps; so are ServerLink.ReplyReportsFullHistory, ClientLink.ClientKeeps and ClientLink.FieldReportsHistoryIff.
- Exchange.AcknowledgedWasReceivedIff: for runs of fewer than 2^47 steps, for the same reason; so are the theorems of Timing, Marking, Origins, Wrapping and Streams about runs.
- Reliability.AcknowledgedWasReceived: for counters below 65535 and channels that keep their order; Exchange.AcknowledgedWasReceivedIff has neither condition, and Streams and Origins say what is marked beyond them.
- Streams.ClientStepInOrder: in terms of packets only where gaps can be bridged and a reply is less than a round late, as is Streams.ServerStepInOrder; beyond that Origins.ClientStepMarksExactly and Origins.ServerStepMarksExactly hold, in terms of counts.
- Handshakes.ConnectedClientIsConnectedAtServer: for channels that keep their order and salts that are never drawn twice; HandshakeRuns shows that both are needed.
