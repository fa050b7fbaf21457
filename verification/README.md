# A verified model of the firewall's packet engine

The app routes all traffic of a device into a tun device and runs its own TCP and UDP proxy on it:
it ends every connection of an app, keeps its own TCP state machine and reassembly queue, forwards to
a non-blocking socket, and writes IP, TCP and UDP packets by hand. A table of apps decides which uid
may use the network. This project models that engine in Dafny and proves what it keeps over whole runs.

`dafny verify dfyconfig.toml` checks everything.

## How the model is built

Every component has a specification on values and, where the code updates something in place, a class
or a method on arrays and linked nodes that is proved to do exactly what the specification says. The
properties are proved about the specification, over all inputs and over all runs.

- TCP session. `TcpModel` is the state machine: a step takes a packet, a socket event, a poll, a sweep
  or a lost permission. Results of `send`, `recv`, `epoll_ctl` and writes to the tun device are inputs,
  so every theorem is about all of them. A log records what the outside world saw; unbounded stream
  offsets are derived from it, so claims survive the wrap of 32-bit numbers. The properties are in
  `TcpLifecycle`, `TcpUpstream`, `TcpSynData`, `TcpReading`, `TcpDownstream`, `TcpFlow`,
  `TcpHalfSpace`, `TcpScale`, `TcpAcks`, `TcpAnswers`, `TcpFin`, `TcpReceive`, `TcpRetransmit`, `TcpStall`,
  `TcpDelivery`, `TcpCloseWait`, `TcpProgress`, `TcpWire` and `TcpUsage`; `TcpPackets` and `TcpLoop` say exactly
  what each packet, socket event, poll and sweep does, and `TcpConversation` follows whole conversations;
  `TcpExamples` has pieces of concrete runs. `TcpSession` is the object with its fields and
  its linked queue (`LinkedLists`, `SegmentList`). `Serial`, `Reassembly`, `ArrivalOrder` and
  `Contiguous` are the comparison and the queue.
- Sessions. `Udp`, `UdpDelivery`, `UdpWire` and `UdpSession` are the UDP session. `SessionModel` has the sweep, the
  timeouts, the permission check and the wait; `SessionRuns` the list over whole runs; `SessionPlaces` and
  `SessionHistory` what one connection goes through in a run of the table; `IcmpRuns` the sessions of echo
  requests; `SessionQueues` the segments they hold; `SessionTable` the linked list itself.
- Packets. `Words`, `NetworkOrder`, `Checksum`, `PacketCodec`, `PacketReading`, `PacketWriter` and
  `TcpOptionList`.
- DNS. `DnsName`, `DnsRoundTrip`, `DnsLongName`, `DnsResponse` and `DnsReadBack`.
- Indexes. `ProcNet`, `UidCache` and `UidLookups` for the tables under /proc/net; `SortedLists`, `AppTable`,
  `AppDecisions` and `Firewall` for the app table and its three sorted uid lists.

## Findings

Where the code does not have a property, the model keeps the code as it is, a lemma names an input, and
another says exactly when the property holds.

- A FIN is taken by its acknowledgement number alone. If it overtakes lost data it is counted too early
  and its acknowledgement covers bytes that the socket never got (`TcpFin.FinOvertakesData`); it is
  counted rightly iff it directly follows the data received (`TcpFin.FinCountedRightly`).
- Data on a SYN is queued at the initial number, one before its true place. Once the SYN is counted it is
  behind the edge, and the socket never gets a byte (`TcpSynData.SynDataForwardsNothing`). A session that is
  closing before it connected still forwards its queue, and then a byte can be sent twice
  (`TcpSynData.SynDataRepeatsByte`): the stream is safe in every run iff the SYN carries no data
  (`TcpSynData.SafeIffNoSynData`).
- One family of acknowledgement numbers, half the number space away, moves `acked` backwards: a run takes
  one (`TcpHalfSpace.AckedGoesBack`), and no other packet does it (`TcpFlow.StepFlow`,
  `TcpFlow.FlowIffNoHalfSpaceAcks`).
- While a wrap lies between what the client acknowledged and what was sent, the send window is 64 KiB too small: a
  client whose window is not scaled gets nothing until it acknowledges past the wrap (`TcpFlow.WrapClosesWindow`).
- The window scale of the client is not clamped. Under a scale from 16 to 30, and under no other, so much may
  be in flight that acknowledging the first of it resets the session (`TcpScale.UnderstoodIffModerate`).
- Its MSS is not bounded either. A segment may become too long for an IP packet, whose length field then wraps;
  every packet of every run is valid iff the MSS fits (`TcpWire.ArriveIffMssFits`).
- A datagram to an IPv6 client whose sum is 0xFFFF is written with a zero checksum, which section 8.1 of
  RFC 8200 forbids: `PacketCodec.DiscardedDatagram` gives one for every connection, and the others are valid
  (`PacketCodec.EmittedPacketsVerify`, `UdpWire.DatagramsValid`).
- The option loop never ends iff the options reach one of length zero (`TcpOptionList.HangsIffZeroLength`,
  with a packet in `TcpOptionList.HangingSyn`). The MSS of an emitted SYN is in host order, so it reads
  back byte-swapped (`TcpOptionList.SynOptionsReadBack`).
- Label lengths from 64 to 191, which section 4.1.4 of RFC 1035 reserves, are read as pointers
  (`DnsRoundTrip.CompressedName`). The offset behind a compressed name is right iff no label precedes the pointer (`DnsRoundTrip.OffsetRightIff`,
  with a message in `DnsRoundTrip.SplitNameOffset`). A legal name of more than 26 labels and pointers is refused
  (`DnsRoundTrip.CompressedName`, with a name in `DnsRoundTrip.ManyLabelsRefused`). A name that is too long may
  be read as its last labels (`DnsLongName.LongNameForgets`); `DnsLongName.LongName` says which ones are.
- A repeated uid query is answered with the first row that fits, the first query with the last
  (`UidCache.CacheAgreesWithScan`).
- An update of a row under another uid moves the row but not its entries in the lists
  (`AppTable.UpdateAgrees`). No caller does that.
- A retransmission that is shorter than what was already sent of the head stalls the queue, because the
  unsigned difference becomes huge: a run gets there (`TcpStall.ShorteningSticks`), no other packet does
  (`TcpRetransmit.SentThroughoutIffNoneShortens`), and the socket gets nothing more until a long enough
  retransmission of the head arrives (`TcpStall.StuckForGood`).
- Segments that overlap leave a head behind the edge, and then the session never forwards again, whatever
  the client sends: a run gets there (`TcpStall.OverlapSticks`, `TcpStall.BehindForGood`), and a pass with
  room does so iff segments without gap from the edge on overlap (`Contiguous.ForwardContiguous`).
  Neither stall corrupts the stream: `TcpUpstream.UpstreamSafety` needs no hypothesis about them.
- In CLOSE_WAIT a packet with data resets the session, even one that repeats what is still queued: a run loses
  all of the client's data so (`TcpCloseWait.RepeatedDataIsLost`, with the exact packets in
  `TcpCloseWait.ResetInCloseWaitIff`). Left alone, all of it arrives (`TcpDelivery.WholeStreamArrives`).
- Nothing keeps the table at its maximum of sessions. Above it timeouts get negative, exactly when
  `SessionModel.TimeoutShrinksWithLoad` says, and the next sweep ends even sessions that were active this second
  (`SessionModel.NegativeTimeoutEnds`, `SessionModel.CrowdedTableEnds`).
- A client may announce an MSS of zero. Then a read of no bytes is asked for, which looks like the end of
  the stream: data from the server closes the socket iff the MSS is zero (`TcpProgress.DataClosesIffNoMss`,
  with a run in `TcpProgress.ZeroMssEndsSession`).
- A broadcast that a package was added or replaced inserts a row even when none of the packages of the uid
  may use the internet (`AppTable.AddedWithoutInternet`): rows stay those of uids with that permission iff
  the broadcast satisfies `AppTable.EntitledIff`, and loading restores it (`AppTable.LoadAgrees`).

## Hypotheses

- The client puts no data on its SYN.
- Segments of the client lie within 2^30 of the forwarded edge.
- Where `acked` is claimed to move forward, no half-space acknowledgement is taken; the condition is exact.
- Where the receive window is claimed to fit the socket buffer, no retransmission is shorter than what
  was already sent of its segment, and less than 2^32 bytes are queued.
- Where less than 2^31 is claimed to be in flight, the window scale is not from 16 to 30; the condition is
  exact for what an acknowledgement does.
- The socket delivers events only while it is open, and buffer sizes reported by the kernel are not
  negative.
- The clock does not run backwards between a uid query and its repetition.
- The uid tables print ports as four hexadecimal digits, and the device is little-endian.

## Model

| member | source | states |
|---|---|---|
| Serial.CompareAgainstRfc1982 | app/src/main/jni/netguard/util.c:43-55 | for every pair of words: `compare_u32` is negative exactly when section 3.2 of RFC 1982 says less, except for the two distances 2^31 - 1 and 2^31, which are named exactly |
| Serial.CompareInWindow | app/src/main/jni/netguard/util.c:43-55 | for words within 2^30 of a common reference `compare_u32` is the strict total order by signed distance, across the wrap at 2^32 |
| Serial.DeltaOfWraps | app/src/main/jni/netguard/util.c:43-55 | the signed distance of two 32-bit words is the distance of the unbounded offsets they stand for whenever that is below 2^31 |
| Reassembly.InsertAscending | app/src/main/jni/netguard/tcp.c:987-1034 | inserting a segment keeps the queue strictly ascending by serial distance, so without duplicates |
| Reassembly.InsertElements | app/src/main/jni/netguard/tcp.c:987-1034 | after an insertion every element is an old one, the new one, or the old one of the same number with the new data; nothing else is lost |
| Reassembly.SentAgain | app/src/main/jni/netguard/tcp.c:1017-1033 | a segment that is sent again changes nothing if its length is the same, whatever its bytes are, and otherwise gets the new data and keeps what was sent of it |
| Reassembly.SentFirst | app/src/main/jni/netguard/tcp.c:994-1014 | a segment of a new number is spliced in at its place, unsent, with its push flag |
| Reassembly.InsertOnlyHeadSent | app/src/main/jni/netguard/tcp.c:987-1034 | only the first segment is ever partly sent, and what is sent of it does not change on insertion |
| Reassembly.QueueTcpHolds | app/src/main/jni/netguard/tcp.c:977-1036 | queueing a genuine segment keeps the whole queue genuine against the client's stream |
| Reassembly.DrainAdvances | app/src/main/jni/netguard/tcp.c:473-518 | one forwarding pass, with any partial sends and errors: the bytes the socket took are exactly the next bytes of the stream, and the rest of the queue still continues it |
| ArrivalOrder.InsertCommutes | app/src/main/jni/netguard/tcp.c:987-1034 | insertions at two distinct sequence numbers commute |
| ArrivalOrder.AnyOrderSameQueue | app/src/main/jni/netguard/tcp.c:977-1036 | every order of arrival of the segments that tile a piece of stream, each sent any number of times, gives the same queue, the one in sequence order |
| ArrivalOrder.AnyOrderSameDelivery | app/src/main/jni/netguard/tcp.c:473-518 | whatever the order and the repetitions, a socket that accepts everything and has enough buffer gets all the bytes of the tiles once, in order, and the queue is empty |
| Contiguous.ForwardContiguous | app/src/main/jni/netguard/tcp.c:470-530 | gaps and overlaps: with room for all that is queued and a socket that takes it, the socket then has the stream up to the first byte that no queued segment holds, unless the first segment is behind the edge or behind a run without gap comes a segment that starts inside it; then, and only then, the head is left behind the edge |
| Contiguous.DeliversContiguous | app/src/main/jni/netguard/tcp.c:473-518 | the same of one pass of the loop on any queue |
| TcpUpstream.UpstreamSafety | app/src/main/jni/netguard/tcp.c:237-621 | over every run: the bytes the socket accepted are a prefix of the client's stream (no gap, repeat or reordering, across any number of wraps), `remote_seq` is the initial number plus counted SYN, forwarded bytes and counted FIN modulo 2^32, each counted at most once, and in CLOSE_WAIT the FIN is counted iff the queue is empty |
| TcpSynData.SafeIffNoSynData | app/src/main/jni/netguard/tcp.c:761-771 | the bytes the socket accepts are a prefix of the client's stream in every run, for every stream, if and only if the SYN carries no data |
| TcpSynData.SynDataRepeatsByte | app/src/main/jni/netguard/tcp.c:473-510 | for every SYN with data, a run after which the socket got a byte twice: the session is reset before it connects, and a segment one byte behind its true place follows the data of the SYN |
| TcpSynData.SynDataForwardsNothing | app/src/main/jni/netguard/tcp.c:473-510 | over every run of the stream of a client whose SYN carried data: the socket gets nothing at all, whatever is sent again, unless the session closes before its SYN is counted |
| TcpUpstream.StepUpstream | app/src/main/jni/netguard/tcp.c:623-975 | each single step keeps that invariant |
| TcpUpstream.DropsOldData | app/src/main/jni/netguard/tcp.c:982-986 | for segments within 2^30 of the edge, those dropped as already forwarded start before the edge, and only those |
| TcpUpstream.DrainedUpstream | app/src/main/jni/netguard/tcp.c:473-518 | a forwarding pass keeps the sequence accounting and the prefix property |
| TcpUpstream.ForwardUpstream | app/src/main/jni/netguard/tcp.c:470-530 | forwarding keeps both even when a send fails for good, and says when a waiting FIN becomes due |
| TcpUpstream.AcknowledgeUpstream | app/src/main/jni/netguard/tcp.c:532-548 | the acknowledgement counts a waiting FIN exactly when the last byte was forwarded |
| TcpAcks.StepAcks | app/src/main/jni/netguard/tcp.c:1176-1283 | every acknowledging packet of a step carries `remote_seq` as it is after the step, or one less for a keep-alive |
| TcpAcks.AckNeverAhead | app/src/main/jni/netguard/tcp.c:1139-1174 | after every run, however many times the numbers wrap: each acknowledgement that the next step emits is the number of one exact unbounded offset, or of the one before it; that offset counts the SYN, the completely forwarded bytes, which the socket accepted and which are a prefix of the stream, and a counted FIN |
| TcpAnswers.TakenIsAcknowledged | app/src/main/jni/netguard/tcp.c:532-548 | for every socket event without an error whose writes succeed, in every connected state: a packet acknowledging exactly what was taken, with the window then in force, is written if the socket takes something or the receive window opens from zero, in particular whenever a byte was accepted, and otherwise no bare acknowledgement is |
| TcpAnswers.ForwardedIsAcknowledged | app/src/main/jni/netguard/tcp.c:532-548 | over every run after the SYN was counted, as long as the session lives or its writes succeed: some packet was written that acknowledges exactly the SYN, all bytes of whole segments that the socket accepted, and a counted FIN |
| TcpFin.FinCountedRightly | app/src/main/jni/netguard/tcp.c:880-896 | for a FIN that ends the client's stream: in every run after it, a counted FIN means that the socket has the whole stream, if and only if the FIN directly follows all data received; the code does not check this |
| TcpFin.FinOvertakesData | app/src/main/jni/netguard/tcp.c:880-888 | a concrete run in which the FIN overtakes a lost byte: it is counted and the lost byte is acknowledged |
| TcpFin.DrainTarget | app/src/main/jni/netguard/tcp.c:473-518 | forwarding does not move the stream offset at which the queue ends |
| TcpFin.RunFin | app/src/main/jni/netguard/tcp.c:541-548 | after a FIN was taken, the offset at which it is counted stays the same over every run |
| TcpFlow.FlowControl | app/src/main/jni/netguard/tcp.c:554-610 | for every scale up to 15 and from 31 on, over every run that takes no half-space acknowledgement: from ESTABLISHED on less than 2^31 - 1 is unacknowledged, and less than 2^30 for a scale up to 14, so `acked` never passes `local_seq`; over any further run `acked` only moves forward; and right after data is written the unacknowledged data is within the send window in force |
| TcpScale.UnderstoodIffModerate | app/src/main/jni/netguard/tcp.c:940-960 | over all runs, MSS values, windows and initial numbers: an acknowledgement of some of the data in flight leaves a live session alive if and only if the window scale is not from 16 to 30; for each of those a run reads so much that the acknowledgement of its first block resets the session |
| TcpFlow.StepFlow | app/src/main/jni/netguard/tcp.c:925-960 | for every step from a state within the bounds: the bounds are kept and `acked` of a live session does not go back, if and only if the step does not take a half-space acknowledgement, that is one of a live session that passes all earlier branches |
| TcpFlow.FlowIffNoHalfSpaceAcks | app/src/main/jni/netguard/tcp.c:925-960 | over every run: bounds and forward movement hold in every step if and only if no such acknowledgement is taken |
| TcpHalfSpace.AckedGoesBack | app/src/main/jni/netguard/tcp.c:940-952 | a concrete run: two short of the wrap, one byte is read, and acknowledgement 0x80000000 moves `acked` back by 2^31 - 1 |
| TcpFlow.PreviousAckMovesForward | app/src/main/jni/netguard/tcp.c:940-952 | for all states and all 2^32 acknowledgement numbers: one taken as a previous acknowledgement lies strictly between `acked` and `local_seq`, except exactly the half-space pair |
| TcpFlow.SendWindowLeavesRoom | app/src/main/jni/netguard/tcp.c:169-183 | the computed send window is exactly what the unacknowledged data, a header for each data packet and the odd 0x10000 after a wrap leave of the client's window; so it never promises more than the client's window leaves |
| TcpFlow.WrapClosesWindow | app/src/main/jni/netguard/tcp.c:169-183 | to a client that offers at most 64 KiB, something can be sent if and only if its window has room and no wrap lies between what it has acknowledged and what was sent |
| TcpFlow.ScaledWindow | app/src/main/jni/netguard/tcp.c:848 | a scaled 16-bit window is at most 2^31 for every scale up to 15 and from 31 on; up to 15 nothing of it is lost, and up to 14 it is below 2^30 |
| TcpFlow.TakeBytesSteady | app/src/main/jni/netguard/tcp.c:606-610 | a data write leaves at most the client's window unacknowledged |
| TcpLifecycle.StepOnward | app/src/main/jni/netguard/tcp.c:835-923 | every step stays in the state or moves up in LISTEN < SYN_RECV < ESTABLISHED < {CLOSE_WAIT, FIN_WAIT1} < LAST_ACK < CLOSING < CLOSE, and socket and state stay in agreement |
| TcpLifecycle.RunClimbs | app/src/main/jni/netguard/tcp.c:54-115 | over any run the state changes at most as often as ranks are climbed, so at most six times |
| TcpLifecycle.SessionLifecycle | app/src/main/jni/netguard/tcp.c:570-593 | from the SYN on: at most six state changes; up to CLOSE_WAIT the socket is open, in FIN_WAIT1, LAST_ACK and CLOSE it is closed, and after an own FIN the queue is empty |
| TcpPackets.EstablishedIff | app/src/main/jni/netguard/tcp.c:905-960 | exactly the packets that end a session in LISTEN or SYN_RECV, and that the current acknowledgement, with neither SYN, FIN nor RST, and nothing else establishes one in SYN_RECV |
| TcpPackets.CloseWaitIff | app/src/main/jni/netguard/tcp.c:876-887 | exactly the packets that take an ESTABLISHED session to CLOSE_WAIT, those that end it, and when a failing write does |
| TcpPackets.ClosedByFinIff | app/src/main/jni/netguard/tcp.c:893-897 | exactly the packets that take a session from FIN_WAIT1 to CLOSE or end it otherwise |
| TcpPackets.LastAckIff | app/src/main/jni/netguard/tcp.c:910-911 | exactly the packets that take a session from LAST_ACK to CLOSING: not urgent, and with data, with RST, with the current acknowledgement and neither SYN nor FIN, or acknowledging what was never sent |
| TcpPackets.AnsweredIff | app/src/main/jni/netguard/tcp.c:821-960 | in every state: a reset answers exactly the packets that are refused, an acknowledgement of one number more exactly the FINs behind which nothing waits, both with the right numbers; no other packet is answered |
| TcpPackets.NotWritten | app/src/main/jni/netguard/tcp.c:1139-1174 | nothing is written when writing fails |
| TcpPackets.OverStaysOver | app/src/main/jni/netguard/tcp.c:835-838 | a packet changes nothing of a session that is over |
| TcpPackets.RefreshedIff | app/src/main/jni/netguard/tcp.c:845-849 | exactly the packets that renew the time stamp, the send window and the count of unconfirmed packets, late data included |
| TcpPackets.QueuedIff | app/src/main/jni/netguard/tcp.c:854-867 | data is queued exactly if the packet is heard and does not start before what was taken |
| TcpPackets.AckedIff | app/src/main/jni/netguard/tcp.c:903-952 | exactly the acknowledgements that move `acked`, in every state and for all numbers |
| TcpPackets.NumbersMove | app/src/main/jni/netguard/tcp.c:880-895 | `remote_seq` moves exactly for a SYN that is refused and a FIN that is counted at once, by one; a packet never moves `local_seq` or closes the socket |
| TcpConversation.ConversationCompletes | app/src/main/jni/netguard/tcp.c:237-975 | from the SYN to the last sweep, for all numbers, bytes, windows and times, whichever side closes first: the request reaches the server and the answer the client, whole and once; both are reported once; exactly six packets are written, with the right numbers and flags, none with RST |
| TcpLoop.Registered | app/src/main/jni/netguard/tcp.c:722-798 | the session of a SYN in full: numbers, scales, window, polled for output, and how long the sweep leaves it alone |
| TcpLoop.ConnectedIff | app/src/main/jni/netguard/tcp.c:458-467 | exactly when a listening session answers SYN and ACK, with its numbers, and when it is closed or reset |
| TcpLoop.ErrorResets | app/src/main/jni/netguard/tcp.c:260-278 | an error at the socket resets the session |
| TcpLoop.SocketMovesIff | app/src/main/jni/netguard/tcp.c:554-594 | with working sends and writes: the FIN is sent exactly at the end of the server's stream with nothing left to forward, the session is reset exactly if something is left or reading fails, and the socket is closed exactly at the end of the stream |
| TcpLoop.ReadsAsMuchAsAllowed | app/src/main/jni/netguard/tcp.c:554-611 | what the socket delivers is read, counted, and written as one packet with the right numbers, up to exactly the least of send window and MSS; nothing is read otherwise |
| TcpLoop.TouchedIff | app/src/main/jni/netguard/tcp.c:541-556 | exactly which socket events renew the time stamp of a connected session |
| TcpLoop.BrokenSendResets | app/src/main/jni/netguard/tcp.c:484-497 | a send that fails for good resets the session, the first of an event exactly if the loop gets to it |
| TcpLoop.SweptIff | app/src/main/jni/netguard/tcp.c:54-115 | exactly which sessions a sweep closes, resets, reports and frees, and what it leaves as it is |
| TcpLoop.DisallowedIff | app/src/main/jni/netguard/session.c:346-362 | a session that lost its permission is reset exactly if it is not over |
| TcpLoop.PolledOtherwise | app/src/main/jni/netguard/tcp.c:117-127 | a session in LISTEN is polled for output alone, and in the states without a poll for data for errors alone |
| TcpLoop.KeptAliveIff | app/src/main/jni/netguard/tcp.c:134-142 | a keep-alive is sent exactly if the send window is closed and the last one is more than 100 ms ago; it acknowledges one number less than was taken, and nothing else changes |
| TcpLoop.PollFails | app/src/main/jni/netguard/tcp.c:156-163 | a poll that cannot be changed closes the session exactly if it was to be changed |
| TcpDownstream.DownstreamSafety | app/src/main/jni/netguard/tcp.c:550-611 | over every run: the data packets written carry consecutive ranges from the initial number on; their payloads are the bytes shown of what was read from the socket as long as the session is live or no data write failed (a prefix of them otherwise); what is shown is each chunk read, as the DNS parser leaves it on port 53 and unchanged otherwise; there is at most one FIN, right behind the last byte with no data after it |
| DnsResponse.ShownChangesHeader | app/src/main/jni/netguard/tcp.c:600-604 | what is shown of a chunk differs from what was read only on a looked-at connection, only when the message behind the two length bytes is blocked, and only in its header behind the id |
| DnsResponse.ShownIfBlocked | app/src/main/jni/netguard/tcp.c:600-604 | behind the length, a message to port 53 that is blocked has code, flags and counts changed in place; all else is shown as it was read |
| TcpDownstream.WellFormedInPlace | app/src/main/jni/netguard/tcp.c:1147-1162 | in any sequence of packets so numbered, every data packet sits at the offset of its payload in the concatenation, and a FIN at its end |
| TcpDownstream.StepDownstream | app/src/main/jni/netguard/tcp.c:458-464 | each single step keeps the numbering |
| TcpUsage.UsageOnce | app/src/main/jni/netguard/tcp.c:86-114 | over every run: reported plus live counters are the bytes accepted by and read from the socket, at most one report is made, and a freed session that moved bytes was reported once with exactly those bytes |
| TcpUsage.CheckTcpSessionUsage | app/src/main/jni/netguard/tcp.c:102-114 | the sweep keeps the books, and frees nothing that was not reported |
| TcpReceive.DrainBelowBuffer | app/src/main/jni/netguard/tcp.c:472-518 | one forwarding pass sends strictly less than the buffer size it read, so the unsigned subtraction never wraps |
| TcpReceive.WindowAndQueueFit | app/src/main/jni/netguard/tcp.c:212-235 | with every segment sent at most up to its length, a positive receive window and the queued bytes together never exceed the socket buffer, and a full buffer closes the window |
| TcpReceive.WindowIs | app/src/main/jni/netguard/tcp.c:185-235 | the receive window is exactly what the bytes that wait leave of the free space in the socket, capped at 65535 units of the client's scale, and never negative |
| TcpRetransmit.WindowNeverOverbooked | app/src/main/jni/netguard/tcp.c:212-235 | in every state reached without a retransmission shorter than what was sent of its segment, and whatever the kernel reports: a positive window and the queued bytes fit the socket buffer together, and a full buffer closes the window |
| TcpRetransmit.FitsIff | app/src/main/jni/netguard/tcp.c:475 | the unsigned comparison of the forwarding loop holds iff no more is sent than the segment holds and the rest is less than the room |
| TcpRetransmit.QueueTcpSentIff | app/src/main/jni/netguard/tcp.c:1010-1033 | with every segment sent at most up to its length and only the head partly sent: queueing keeps that if and only if it does not replace the head by less than what was sent of it |
| TcpRetransmit.SentThroughoutIffNoneShortens | app/src/main/jni/netguard/tcp.c:473-1036 | over every run of one client's stream: every segment stays sent at most up to its length if and only if no packet shortens the head below what was sent of it |
| TcpStall.StuckForGood | app/src/main/jni/netguard/tcp.c:473-518 | a queue whose head was so shortened, or starts behind the edge: over every further run of the client's stream it stays stuck if and only if no packet is a long enough retransmission of a shortened head, and as long as it is stuck the socket gets not one byte more |
| TcpStall.PacketFrees | app/src/main/jni/netguard/tcp.c:977-1036 | the same of one packet: it frees the queue if and only if it refills a shortened head |
| TcpDelivery.TurnsDeliver | app/src/main/jni/netguard/tcp.c:470-530 | over any number of turns with room for one segment each: after as many as segments are queued the socket has the stream up to the first byte that no queued segment holds, if none overlap |
| TcpDelivery.WholeStreamArrives | app/src/main/jni/netguard/tcp.c:532-548 | if all that is left of the stream is queued, the socket then has the whole stream, the queue is empty, and in CLOSE_WAIT the FIN is counted |
| TcpCloseWait.ResetInCloseWaitIff | app/src/main/jni/netguard/tcp.c:855-960 | exactly the packets that reset a session in CLOSE_WAIT: not urgent, and with data, with RST, or acknowledging what was never sent |
| TcpCloseWait.RepeatedDataIsLost | app/src/main/jni/netguard/tcp.c:861-865 | a concrete run: two bytes, the FIN, the two bytes again; the session is reset and its socket closed with both bytes still queued |
| TcpStall.BehindForGood | app/src/main/jni/netguard/tcp.c:473-518 | a head behind the edge is never freed: whatever the client sends, the socket gets not one byte more |
| TcpStall.ShorteningSticks | app/src/main/jni/netguard/tcp.c:1010-1033 | a concrete run: four bytes of which the socket took two, then the first byte alone again; the queue is stuck |
| TcpStall.OverlapSticks | app/src/main/jni/netguard/tcp.c:987-1034 | a concrete run: two segments that share a byte, both sent; the third byte of the client is stuck behind the edge |
| TcpRetransmit.StepSent | app/src/main/jni/netguard/tcp.c:1010-1033 | each step keeps every segment sent at most up to its length, unless it brings such a retransmission |
| TcpReceive.HeaderWindowExact | app/src/main/jni/netguard/tcp.c:1261 | for every scale the shifted receive window fits the 16 bits of an emitted header: scaled up again it is the window without its low bits |
| TcpReceive.WindowAlwaysFits | app/src/main/jni/netguard/tcp.c:781 | that holds in every reachable state, whatever scale the client announced |
| TcpProgress.PolledForProgress | app/src/main/jni/netguard/tcp.c:117-167 | a connected session is polled for output exactly when the forwarding loop would get something done with the same buffer; if it has an MSS it is polled for input exactly when something of whatever the socket delivers would be read, and otherwise nothing ever would be; a recheck is asked for exactly when one direction is held back |
| TcpProgress.DataClosesIffNoMss | app/src/main/jni/netguard/tcp.c:554-598 | data that arrives while the window is open closes the socket, as at the end of the stream, if and only if the MSS is zero |
| TcpProgress.ZeroMssEndsSession | app/src/main/jni/netguard/tcp.c:554-598 | a concrete run: a client that announced an MSS of zero, and the first byte of the server ends the session unread |
| TcpProgress.CanForwardForwards | app/src/main/jni/netguard/tcp.c:145-153 | the guard of the poll is the guard of the loop: if it holds any working send makes progress, otherwise no send is tried |
| TcpSession.TcpSession.constructor | app/src/main/jni/netguard/tcp.c:722-781 | the registered session is the start state of the machine, its SYN data queued in the list |
| TcpSession.TcpSession.QueueTcp | app/src/main/jni/netguard/tcp.c:977-1036 | the linked list in place holds afterwards what the queueing function says |
| TcpSession.TcpSession.HandleTcp | app/src/main/jni/netguard/tcp.c:834-960 | the object's fields and list after a packet are the machine's, for every packet and state |
| TcpSession.TcpSession.TakeFin | app/src/main/jni/netguard/tcp.c:880-900 | the FIN branches in place |
| TcpSession.TcpSession.TakeOtherAck | app/src/main/jni/netguard/tcp.c:925-960 | keep-alive, repeated, previous and future acknowledgements in place |
| TcpSession.TcpSession.ForwardData | app/src/main/jni/netguard/tcp.c:469-518 | the forwarding loop pops and marks list nodes as the recursive pass says, for every sequence of send results |
| TcpSession.TcpSession.Acknowledge | app/src/main/jni/netguard/tcp.c:532-548 | window update, waiting FIN and acknowledgement in place |
| TcpSession.TcpSession.Fetch | app/src/main/jni/netguard/tcp.c:554-613 | reading at most window and MSS, the DNS parser on its buffer, end of file and errors in place |
| TcpSession.TcpSession.CheckTcpSocket | app/src/main/jni/netguard/tcp.c:458-616 | a socket event of a direct connection in place |
| TcpSession.TcpSession.MonitorTcpSession | app/src/main/jni/netguard/tcp.c:117-167 | interest in events, keep-alive and recheck flag in place |
| TcpSession.TcpSession.CheckTcpSession | app/src/main/jni/netguard/tcp.c:54-115 | expiry, closing, reporting and the decision to free in place |
| TcpSession.TcpSession.WriteRst | app/src/main/jni/netguard/tcp.c:1164-1174 | a reset and its state in place |
| TcpSession.TcpSession.GetSendWindow | app/src/main/jni/netguard/tcp.c:169-183 | the window computed with 32-bit variables is the machine's |
| TcpSession.TcpSession.GetReceiveWindow | app/src/main/jni/netguard/tcp.c:212-235 | the loop over the list and the bounds give the machine's receive window |
| TcpSession.TcpSession.Disallow | app/src/main/jni/netguard/session.c:346-362 | the reset of a session that lost its permission |
| SegmentList.Add | app/src/main/jni/netguard/tcp.c:987-1034 | the walk with two pointers, splicing or refilling a node, is the insertion function on the list's contents |
| SegmentList.FindPlace | app/src/main/jni/netguard/tcp.c:988-993 | the walk stops at the first node that is not before the number, with its predecessor at hand |
| SegmentList.Waiting | app/src/main/jni/netguard/tcp.c:214-219 | the sum over the list, modulo 2^32 |
| SegmentList.Clear | app/src/main/jni/netguard/tcp.c:29-37 | every segment is freed, in order, and the list is empty |
| Checksum.CalcChecksum | app/src/main/jni/netguard/util.c:24-41 | the loop stays within 32 bits up to 65536 words, the folding loop terminates, and the result is the folded word sum |
| Checksum.FoldIsOnesComplement | app/src/main/jni/netguard/util.c:37-40 | the folded sum is congruent modulo 65535 and zero only for a zero total: the one's-complement sum of section 2 of RFC 1071 |
| Checksum.ChecksumChains | app/src/main/jni/netguard/tcp.c:1280-1282 | chaining over pieces of even length is the sum of the concatenation |
| Checksum.ComplementVerifies | app/src/main/jni/netguard/tcp.c:1283 | storing the complement in a zero field makes the sum 0xFFFF |
| Checksum.NetworkSumIsSwapped | app/src/main/jni/netguard/util.c:24-41 | the sum in the other byte order is the byte-swapped sum |
| Checksum.VerifiesInNetworkOrder | app/src/main/jni/netguard/util.c:24-41 | so a packet that verifies in one byte order verifies in the other |
| PacketCodec.EmittedPacketsVerify | app/src/main/jni/netguard/tcp.c:1187-1283 | exactly which TCP and UDP packets are valid at the receiver, lengths and sums included: those whose length fits 16 bits, and over IPv6 only datagrams whose sum is not 0xFFFF, since a zero checksum is written for these |
| PacketCodec.DiscardedDatagram | app/src/main/jni/netguard/udp.c:513-516 | for every IPv6 connection, a datagram of two bytes that is written with a zero checksum and has to be discarded |
| TcpWire.ArriveIffMssFits | app/src/main/jni/netguard/tcp.c:554-611 | every packet of every run of a session is valid at the client, and over IPv4 decodes to itself, if and only if the MSS of the client is at most 65495, or 65515 over IPv6; for each larger one a run writes a segment that is not |
| UdpWire.DatagramsValid | app/src/main/jni/netguard/udp.c:108-137 | every datagram of every run fits a packet of its version: it is valid at an IPv4 client, and at an IPv6 client exactly if its sum is not 0xFFFF |
| PacketCodec.PrintParseRoundTrip | app/src/main/jni/netguard/ip.c:135-160 | decoding a written IPv4 TCP packet gives the swapped endpoints and the same flags, numbers, window and payload if its length fits 16 bits, and is refused otherwise |
| PacketReading.Tcp6RoundTrip | app/src/main/jni/netguard/tcp.c:1224-1283 | decoding a written IPv6 TCP packet gives the swapped endpoints and the same flags, numbers, window, options and payload |
| PacketReading.UdpRoundTrip | app/src/main/jni/netguard/udp.c:437-516 | decoding a written datagram of either version gives the swapped addresses and ports and the data, with the length and hop limit fields right |
| PacketReading.AnnouncedMssFillsMtu | app/src/main/jni/netguard/tcp.c:1267-1277 | a segment of the announced MSS makes a packet of exactly the MTU, 10000 bytes, for both versions |
| PacketWriter.WriteTcp | app/src/main/jni/netguard/tcp.c:1176-1283 | the IPv4 or IPv6 packet of any length assembled part by part in the buffer, its lengths cut to 16 bits and its checksum chained over pseudo header, header, options and data, is the specified one |
| PacketWriter.WriteUdp | app/src/main/jni/netguard/udp.c:437-516 | the IPv4 or IPv6 datagram of any length assembled part by part in the buffer is the specified one |
| PacketWriter.PutIp4Header | app/src/main/jni/netguard/tcp.c:1198-1209 | the header is written with its checksum, nothing else is touched |
| TcpOptionList.ParseOptions | app/src/main/jni/netguard/tcp.c:697-720 | the option loop, on the pointer into memory and the remaining length, ends with the specified values or is the one that never ends, whatever lies behind the packet |
| TcpOptionList.HangsIffZeroLength | app/src/main/jni/netguard/tcp.c:697-720 | the loop condition holds after every number of turns if and only if the option bytes are well-formed options followed, within `optlen`, by a kind other than end and no-operation with length zero |
| TcpOptionList.HangingSyn | app/src/main/jni/netguard/tcp.c:697-720 | a concrete IPv4 packet that decodes as a SYN and whose options keep the loop running for ever |
| TcpOptionList.ParseFindsLast | app/src/main/jni/netguard/tcp.c:697-720 | on every list of well-formed options, ended by its length or the end marker and whatever lies behind it, the loop ends and finds the last MSS and the last window scale |
| TcpOptionList.SynOptionsReadBack | app/src/main/jni/netguard/tcp.c:1267-1277 | of the options of an emitted SYN the loop reads back the window scale, and the MSS byte-swapped |
| DnsName.GetQname | app/src/main/jni/netguard/dns.c:22-76 | for every message, cyclic pointers included, the loop reads inside the message, writes inside 256 bytes, turns at most 26 times and gives the decoded name and offset |
| DnsRoundTrip.NameRoundTrip | app/src/main/jni/netguard/dns.c:35-76 | an encoded name decodes to its labels joined by dots and the offset behind it, if and only if it has at least one and at most 26 labels |
| DnsRoundTrip.CompressedName | app/src/main/jni/netguard/dns.c:35-76 | a name that compression cut into any number of pieces, each behind a pointer in the one before, decodes to all its labels if and only if it has a label and its labels and pointers take at most 26 turns; any length from 64 on is a pointer |
| DnsRoundTrip.OffsetRightIff | app/src/main/jni/netguard/dns.c:46-50 | the offset that decoding a name in pieces returns is the end of the name if and only if there is no pointer or no label precedes the first one |
| DnsRoundTrip.SplitNameOffset | app/src/main/jni/netguard/dns.c:46-50 | a message of eight bytes in which the name at 3 ends at 7, and 5 is returned |
| DnsRoundTrip.ManyLabelsRefused | app/src/main/jni/netguard/dns.c:35-38 | a legal name of 27 labels, 55 octets long, is refused |
| DnsLongName.LongName | app/src/main/jni/netguard/dns.c:55-64 | a name of at most 26 labels and any length: refused if a label crosses a multiple of 256 octets of text or the text ends on one; otherwise only the labels behind the last multiple reached are decoded |
| DnsLongName.LongNameForgets | app/src/main/jni/netguard/dns.c:55-64 | a name of 259 octets that is decoded as its last label alone |
| DnsResponse.NameAdvances | app/src/main/jni/netguard/dns.c:22-76 | a decoded name takes at least two bytes, all inside the message |
| DnsResponse.NameIgnoresBuffer | app/src/main/jni/netguard/dns.c:22-76 | what the buffer held before does not show in the decoded name |
| DnsResponse.WalkedInside | app/src/main/jni/netguard/dns.c:122-171 | every record takes at least 12 bytes; every reported address lies inside the message, in order; a fully read message is long enough for its answer count |
| DnsResponse.BlockedMessage | app/src/main/jni/netguard/dns.c:174-187 | a message is changed only if its question is blocked and its answers were all read; then it ends with its question, in (12, old length], whose bytes, id and question count are kept, and its other counts are zero |
| DnsResponse.BlockedStays | app/src/main/jni/netguard/dns.c:95-187 | parsing a blocked message again does nothing |
| DnsReadBack.AnswersReadBack | app/src/main/jni/netguard/dns.c:122-171 | well-formed records, their owners in full or behind chains of pointers, are reported exactly: the address records among them in order, with owner, address and lifetime; then the walk goes on behind them |
| DnsReadBack.ResponseReadBack | app/src/main/jni/netguard/dns.c:78-187 | for all header bytes: a message with a well-formed question and well-formed records is reported in full iff the bytes of its header say that it is an answer, and emptied iff besides all counted records are there and its name is blocked; otherwise it is left alone |
| DnsReadBack.LeftAlone | app/src/main/jni/netguard/dns.c:80-90 | exactly which header bytes leave every message alone, without a report: shorter than 13 bytes, not a response, another opcode, no question or no answer |
| DnsReadBack.OrdinaryAnswer | app/src/main/jni/netguard/dns.c:78-187 | a literal answer of one question and one record: its address is reported, and it is emptied iff the name is blocked |
| DnsResponse.WalkAnswers | app/src/main/jni/netguard/dns.c:122-171 | the loop in place makes exactly these reports |
| DnsResponse.ParseDnsResponse | app/src/main/jni/netguard/dns.c:78-187 | the buffer in place: new length, header, question and reports; everything behind the new length is untouched |
| ProcNet.AddressRoundTrip | app/src/main/jni/netguard/ip.c:451-458 | reading an address as the kernel prints it gives the address in network byte order |
| ProcNet.EitherCase | app/src/main/jni/netguard/util.c:74-79 | hexadecimal digits of either case are read as what they stand for |
| ProcNet.Hex2Bytes | app/src/main/jni/netguard/util.c:81-85 | the loop writes the decoded bytes and nothing behind them |
| ProcNet.SwapWords | app/src/main/jni/netguard/ip.c:454-458 | the loop over the words swaps each in place |
| UidCache.ScanKeepsFresh | app/src/main/jni/netguard/ip.c:468-490 | each scanned row gets its own slot, in order; no fresh entry is overwritten; the cache grows only when no stale slot is left |
| UidCache.RepeatedQuery | app/src/main/jni/netguard/ip.c:386-401 | a query that was scanned for gets, within 30 seconds, the uid of the first row that fits |
| UidCache.CacheAgreesWithScan | app/src/main/jni/netguard/ip.c:386-466 | the scan answers with the last fitting row: cache and scan agree if and only if first and last carry one uid, in particular when all do |
| UidCache.CacheDiffersFromScan | app/src/main/jni/netguard/ip.c:386-466 | two concrete rows for which they differ |
| UidCache.CachedAnswersAreSeen | app/src/main/jni/netguard/ip.c:372-501 | after any run of queries a cached answer is the uid of a fitting row that the table had at most 30 seconds before |
| UidCache.UidCache.Find | app/src/main/jni/netguard/ip.c:386-401 | the loop finds the first entry that hits |
| UidCache.UidCache.StoreRow | app/src/main/jni/netguard/ip.c:468-490 | the slot moves on to the first stale entry or the end, and only that one is written |
| UidCache.UidCache.Scan | app/src/main/jni/netguard/ip.c:430-497 | the loop over the lines leaves the cache and the uid as specified, also when it stops at a line it cannot read |
| UidCache.UidCache.GetUidSub | app/src/main/jni/netguard/ip.c:372-501 | the answer and the new cache for every query, unknown protocols and unreadable tables included |
| UidCache.UidCache.GetUid | app/src/main/jni/netguard/ip.c:332-355 | an IPv4 query asks the IPv6 table first and falls back only when nothing was found |
| UidLookups.AnswerIs | app/src/main/jni/netguard/ip.c:403-501 | without a cached answer, for every protocol and table: -1 where there is no table, -2 where it cannot be read, and otherwise the uid of the last row that fits, or -1 if none does |
| UidLookups.OnlyRowIff | app/src/main/jni/netguard/ip.c:386-466 | a row is found, from the text that the kernel prints, exactly for its own connection and those that it listens for |
| UidLookups.BothTablesRemembered | app/src/main/jni/netguard/ip.c:468-490 | all rows of every table that a query reads are cached, those of the IPv6 table for a query over IPv4 included |
| UidLookups.NothingRemembered | app/src/main/jni/netguard/ip.c:386-424 | a query that is answered from the cache, has no table, or whose table cannot be opened leaves the cache alone |
| UidLookups.FoundInEitherTable | app/src/main/jni/netguard/ip.c:332-355 | an IPv4 connection that the kernel prints in the IPv6 table as ::ffff:a.b.c.d is found there, and one that is only in the IPv4 table is found there |
| Udp.UdpUsageOnce | app/src/main/jni/netguard/udp.c:33-82 | over every run: reported plus live counters are the bytes sent and received, at most one report, and a freed session that moved bytes was reported once with exactly those |
| Udp.StepUdpOnward | app/src/main/jni/netguard/udp.c:54-82 | a session goes from active to finishing to closed and never back: nothing is sent once it is not active, nothing received once it is closed |
| Udp.UdpDownstream | app/src/main/jni/netguard/udp.c:85-145 | while writes succeed every datagram received is written to the tun device whole, once and in order; exactly the answers from port 53 whose names are blocked are changed |
| UdpDelivery.UdpUpstream | app/src/main/jni/netguard/udp.c:320-373 | over every run: the socket has exactly the datagrams sent while the session was active that DHCP did not answer and the socket took, whole, once and in order; the session is active exactly until an event ends that |
| UdpDelivery.UdpReads | app/src/main/jni/netguard/udp.c:95-140 | over every run: while the socket is open every datagram that it delivered was read, once and in order, up to what fits an IP packet of the version |
| UdpDelivery.RegisteredUdp | app/src/main/jni/netguard/udp.c:264-316 | the session of a first datagram: active, its size limit by version, and how long the sweep leaves it alone |
| UdpDelivery.ActiveIff | app/src/main/jni/netguard/udp.c:85-145 | exactly which events end the activity of a session, and which renew its time |
| UdpDelivery.SweptUdpIff | app/src/main/jni/netguard/udp.c:33-83 | exactly which sessions a sweep closes, reports and frees |
| UdpSession.UdpSession.HandleUdp | app/src/main/jni/netguard/udp.c:258-364 | the object after a datagram from the client is the machine's |
| UdpSession.UdpSession.TakeDatagram | app/src/main/jni/netguard/udp.c:119-140 | the received datagram is passed through the DNS parser in its buffer, written and counted |
| UdpSession.UdpSession.CheckUdpSocket | app/src/main/jni/netguard/udp.c:85-145 | a socket event in place |
| UdpSession.UdpSession.CheckUdpSession | app/src/main/jni/netguard/udp.c:33-83 | expiry, closing, reporting and the decision to free in place |
| SessionModel.SweepIsFilter | app/src/main/jni/netguard/session.c:123-168 | the swept list is exactly the list of sessions not to be freed, in the original order |
| SessionQueues.NothingLeaks | app/src/main/jni/netguard/session.c:123-168 | the segments queued before a sweep are those queued after it and those freed with their sessions, each once |
| SessionModel.TimeoutShrinksWithLoad | app/src/main/jni/netguard/tcp.c:39-52 | for TCP, UDP and ICMP and any number of sessions: a fuller table never has longer timeouts and none is longer than its full length; a timeout is negative if and only if what the table is over the maximum takes a second of it, so never up to the maximum |
| SessionModel.FullTimeouts | app/src/main/jni/netguard/tcp.c:39-52 | how long each kind of session may be silent at an empty table: 5, 15, 300, 20 or 3600 seconds, by kind, port and state |
| SessionModel.NegativeTimeoutEnds | app/src/main/jni/netguard/tcp.c:60-100 | the next sweep ends every session with a negative timeout, however recently it was active |
| SessionModel.CrowdedTableEnds | app/src/main/jni/netguard/tcp.c:60-100 | with 101 sessions of at most 100 an established connection that was active this very second ends |
| SessionModel.SleepUntilFirstExpiry | app/src/main/jni/netguard/session.c:117-150 | every live session has at least a second left after a sweep; the wait is the minimum of 3600 and what is left; no live session expires while sleeping that long, and unless it is 3600 the next check at the same load ends one |
| SessionModel.LiveAfterCheck | app/src/main/jni/netguard/tcp.c:76-100 | a session that is live after its check was not expired and was not touched |
| SessionModel.FreedIff | app/src/main/jni/netguard/session.c:123-168 | exactly which ICMP, UDP and TCP sessions a sweep frees, which of the others live on, and that those are not touched |
| SessionModel.CountIsLive | app/src/main/jni/netguard/session.c:98-115 | the count that scales the timeouts is the number of live sessions |
| SessionModel.WatchAsksIff | app/src/main/jni/netguard/session.c:98-115 | a recheck is asked for exactly when an open connected session has its window closed, or data that cannot be forwarded now |
| SessionModel.JudgedIff | app/src/main/jni/netguard/session.c:285-369 | a session of any kind stays live exactly if it was and its owner is allowed; what is allowed or not live is kept as it is; and exactly the blocked UDP sessions are removed |
| SessionModel.JudgedIsFilter | app/src/main/jni/netguard/session.c:285-369 | the list after the permission check is every session but the blocked ones, in order, as judged |
| SessionRuns.OneSessionPerConnection | app/src/main/jni/netguard/session.c:97-265 | after every run of packets, socket events, polls, sweeps and permission changes there is at most one TCP and one UDP session per version, addresses and ports, and every session is in a state its own machine reaches |
| SessionHistory.HistoryIsRun | app/src/main/jni/netguard/session.c:97-265 | after every run of the table: the TCP or UDP session of a connection is in the state that its own steps lead to, picked one by one from the events of the table since its registration; it is missing exactly if it was never opened, the sweep freed it or the permission check removed it |
| SessionHistory.TableUpstreamSafety | app/src/main/jni/netguard/tcp.c:623-975 | upstream safety in the table: if the packets that reached the session of a connection are those of one client stream, its socket has a prefix of that stream, whatever happens to all other connections |
| SessionHistory.TableDownstreamSafety | app/src/main/jni/netguard/tcp.c:550-611 | downstream safety in the table: the client of a connection gets the bytes shown of what its session read, in place and each once; on every port but 53 these are the bytes read |
| SessionHistory.TableUdpDelivery | app/src/main/jni/netguard/udp.c:237-373 | UDP in the table, both ways: the socket of a connection has exactly the datagrams that its session took while active, from the one that opened it on, and what it delivered was read, whatever happens to all other connections |
| IcmpRuns.OneEchoPerPair | app/src/main/jni/netguard/icmp.c:172-228 | after every run of the table at most one ICMP session is running for each version and pair of addresses |
| IcmpRuns.EchoRuns | app/src/main/jni/netguard/icmp.c:172-273 | an echo request renews the running session of its addresses or opens one, which runs from then on unless the request could not be sent; no other session changes |
| IcmpRuns.EchoStops | app/src/main/jni/netguard/icmp.c:62-98 | an event at the socket renews the session, and stops it for good after an error or the end of the stream; the sweep frees it then |
| SessionRuns.TcpStepGood | app/src/main/jni/netguard/tcp.c:639-795 | a TCP packet updates the one session found or registers one only if none is found |
| SessionRuns.UdpStepGood | app/src/main/jni/netguard/udp.c:237-317 | the same for a UDP datagram |
| SessionRuns.JudgedGood | app/src/main/jni/netguard/session.c:285-369 | the permission check keeps it |
| SessionRuns.FreedIsReported | app/src/main/jni/netguard/session.c:155-164 | whatever the sweep frees, after any run, was reported once and exactly |
| SessionTable.SessionTable.Sweep | app/src/main/jni/netguard/session.c:117-168 | unlinking in place with two pointers leaves the filtered list, returns the specified wait, and frees every queued segment of every removed TCP session |
| SessionTable.SessionTable.CheckAllowed | app/src/main/jni/netguard/session.c:285-369 | stopping, finishing, resetting and unlinking in place |
| SessionTable.SessionTable.CountAndMonitor | app/src/main/jni/netguard/session.c:98-115 | the count of live sessions, the watched sessions and the recheck flag |
| SessionTable.SessionTable.Search | app/src/main/jni/netguard/tcp.c:639-648 | the walk finds the first session of the connection |
| SessionTable.SessionTable.HandleTcp | app/src/main/jni/netguard/tcp.c:639-795 | finding or pushing the session of a packet in place |
| SessionTable.SessionTable.HandleUdp | app/src/main/jni/netguard/udp.c:237-317 | finding or pushing the session of a datagram in place |
| SessionTable.SessionTable.Clear | app/src/main/jni/netguard/session.c:22-36 | every session and every queued segment is freed |
| SessionTable.Settle | app/src/main/jni/netguard/session.c:155-168 | one turn: the checked session is put back, and unlinked iff it is to go |
| LinkedLists.LinkedList.UnlinkAfter | app/src/main/jni/netguard/session.c:156-161 | unlinking a node removes exactly its position and leaves its own link readable |
| LinkedLists.LinkedList.LinkAfter | app/src/main/jni/netguard/tcp.c:1007-1011 | linking a node after another inserts exactly one position |
| LinkedLists.LinkedList.Push | app/src/main/jni/netguard/tcp.c:794-795 | a new head in front of all others |
| AppTable.BlockedIffNotAllowed | app/src/main/java/jlab/firewall/vpn/FirewallService.java:633-643 | from the first load on, over every run of loads, decisions, broadcasts and notifications: an app is blocked iff it has no row or its row has no internet; the firewall itself and root never, unknown uids always |
| AppTable.RunAgrees | app/src/main/java/jlab/firewall/db/ApplicationDbManager.java:140-162 | over every run the three lists hold exactly the uids whose row has the flag |
| AppTable.UpdateAgrees | app/src/main/java/jlab/firewall/db/ApplicationDbManager.java:140-162 | an update keeps the lists in step if and only if it is under its own uid, changes nothing, or sets no flag |
| AppTable.MovedRowIsBlocked | app/src/main/java/jlab/firewall/db/ApplicationDbManager.java:140-162 | a concrete update under another uid after which a row with internet is not in the list |
| AppTable.LoadAgrees | app/src/main/java/jlab/firewall/vpn/FirewallService.java:593-631 | loading leaves exactly the installed uids with internet permission, surviving rows unchanged, new rows without flags listing the packages of their uid, and the lists in step |
| AppTable.CollectedGroups | app/src/main/java/jlab/firewall/vpn/Utils.java:82-105 | the installed packages are grouped by uid: exactly one app for each, named after the first package, counting and listing all of them in order |
| AppTable.ReceiveAgrees | app/src/main/java/jlab/firewall/vpn/PackChangeReceiver.java:20-60 | every broadcast keeps the lists in step |
| AppTable.GatheredLists | app/src/main/java/jlab/firewall/vpn/PackChangeReceiver.java:62-93 | the details of a changed uid count its packages with internet permission and list, in order, those that are still known, from the first name and the first title that are not empty on |
| AppTable.EntitledIff | app/src/main/java/jlab/firewall/vpn/PackChangeReceiver.java:20-60 | when every other row belongs to a uid that may use the internet, a broadcast leaves that so for all rows if and only if its uid may, or its row goes, or it has no row and gets none |
| AppTable.AddedWithoutInternet | app/src/main/java/jlab/firewall/vpn/PackChangeReceiver.java:35-54 | a uid none of whose packages may use the internet gets a row when one is added or replaced, and the next loading removes it |
| AppTable.ReplaceKeepsDecisions | app/src/main/java/jlab/firewall/vpn/PackChangeReceiver.java:42-54 | replacing a package changes neither flags nor byte counts nor any other row |
| AppDecisions.DecisionTakesEffect | app/src/main/java/jlab/firewall/db/ApplicationDbManager.java:140-162 | a decision about an app with a row replaces exactly this row, decides whether the app is blocked, and changes nothing about any other; about an app without a row it does nothing |
| AppDecisions.DecisionsRule | app/src/main/java/jlab/firewall/vpn/FirewallService.java:633-643 | over every run after loading: an app is blocked exactly unless it has a row and the last decision since the row was made, or the row itself if there was none, gives it the internet; the marks likewise |
| AppDecisions.RowsIff | app/src/main/java/jlab/firewall/vpn/PackChangeReceiver.java:20-60 | exactly which apps have a row after each load, decision, broadcast and notification |
| AppDecisions.ReplacedIsRefreshed | app/src/main/java/jlab/firewall/vpn/PackChangeReceiver.java:42-54 | the row of a replaced package gets the count, names, titles and principal of what is installed now |
| AppDecisions.RemovedRow | app/src/main/java/jlab/firewall/vpn/PackChangeReceiver.java:29-35 | a removed app loses its row and every flag, and no other app loses anything |
| AppDecisions.AddedRow | app/src/main/java/jlab/firewall/vpn/PackChangeReceiver.java:36-54 | an app without a row gets one without flags, and one with a row keeps it |
| AppDecisions.MarkedIff | app/src/main/java/jlab/firewall/vpn/FirewallService.java:645-653 | a blocked packet marks exactly the app it came from if the user has not decided about it, and changes nothing else |
| Firewall.GetPackagesInternetPermission | app/src/main/java/jlab/firewall/vpn/Utils.java:82-105 | the loop and both sorts give aligned lists: the uids ascending, the apps those of the grouping |
| Firewall.Firewall.LoadRows | app/src/main/java/jlab/firewall/vpn/FirewallService.java:606-621 | removing by index from both lists keeps them aligned; gone rows are deleted; each list notes exactly the flagged installed rows |
| Firewall.Firewall.LoadAppData | app/src/main/java/jlab/firewall/vpn/FirewallService.java:593-631 | the table and the three sorted lists after loading are the specified ones |
| Firewall.Firewall.UpdateApplicationData | app/src/main/java/jlab/firewall/db/ApplicationDbManager.java:140-162 | the table and the three lists in place |
| Firewall.Firewall.OnReceive | app/src/main/java/jlab/firewall/vpn/PackChangeReceiver.java:20-60 | every action in place |
| Firewall.Firewall.NotifyUid | app/src/main/java/jlab/firewall/vpn/FirewallService.java:645-653 | an app the user has not decided about is marked |
| Firewall.Firewall.IsBlockedUid | app/src/main/java/jlab/firewall/vpn/FirewallService.java:633-643 | the binary search answers as the set of allowed uids does |
| SortedLists.BinarySearch | app/src/main/java/jlab/firewall/vpn/Utils.java:51-68 | a non-negative index is that of the value; a negative one means that it is not there |
| SortedLists.AddTo | app/src/main/java/jlab/firewall/vpn/Utils.java:142-161 | adding keeps the list sorted and free of duplicates and adds exactly the uid |
| SortedLists.RemoveFrom | app/src/main/java/jlab/firewall/vpn/Utils.java:163-179 | removing keeps it sorted and removes exactly the uid |

## Left out

- SOCKS5: the app never configures a proxy, so only the direct connect is modelled.
- PacketCodec.Decode4: a header length beyond the end of the packet is refused here, where the unsigned
  comparison of the source lets the packet through and reads on behind it.
- PacketReading.Decode6: IPv6 extension headers are not modelled.
- SessionTable.SessionTable.Sweep: the sessions are values in the nodes of the list, so the queued
  segments of a removed session are returned as freed rather than freed node by node; the node-by-node
  loop is `SegmentList.Clear`.
- SessionRuns.OneSessionPerConnection: `block_udp` is never reached, because `handle_ip` allows every
  datagram, so no step registers a blocked session; blocked sessions themselves are modelled.
- TcpModel.NewSession: the branch that resets a session that is not allowed is never reached for the
  same reason, and the reset sent for a packet of an unknown session changes no state.
- TcpModel.Shl32: shifts by 32 or more, undefined in C, are given the value zero, so what is said of scales
  from 32 on is said of that value.
- Udp.TakeDatagram: the 64-bit byte counters do not wrap here.
- Udp.CheckUdpSocket: the event loop reads up to ten datagrams for one event; here each read is an event
  of its own, so runs cover every number of them. In the source the loop skips sockets with an error, so
  the error branch of the function is modelled but not reached.
- SessionRuns.IcmpStep: what is inside ICMP messages is not modelled, only their sessions.
- UidCache.UidCache.Scan: the text format of a line is given as its fields; lines longer than the
  buffer are not modelled.
- Firewall.Firewall.LoadAppData: failing database calls and exceptions, which the source swallows, are
  not modelled; the query lists each row once, in any order.
- Several clock readings within one function are one reading here.
- DHCP: whether a datagram was answered is an input.
- Threads and mutexes of the Java side: its steps are sequential.
- Logging, packet capture, notifications, views, the JNI layer and the allocation ledger: no protocol
  state.
