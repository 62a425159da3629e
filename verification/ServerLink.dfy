/**
 The server's handling of a game-state packet: Server::HandleGameState and the per-player
 state that it updates.
 */
module ServerLink {
  import opened SequenceNumbers
  import opened AckBits
  import opened Links

  const MAX_RECEIVED := 60

  /** What remove_if leaves: the packets not acknowledged yet, in order. */
  function Unacknowledged(s: seq<PacketInfo>): seq<PacketInfo> {
    if s == [] then []
    else Unacknowledged(s[..|s| - 1]) + (if s[|s| - 1].acknowledged then [] else [s[|s| - 1]])
  }

  function Tidy(l: Link): Link {
    l.(sent := Unacknowledged(l.sent), received := Newest(l.received, MAX_RECEIVED))
  }

  /** The state after a game-state packet and the reply to it. */
  function ServerStep(l: Link, h: Header, clock: seq<int>, now: int): Link
    requires |clock| == 32
  {
    Depart(Tidy(Acknowledge(Arrive(l, h.seqNum), h.ack, h.ackBits, clock)), now)
  }

  /** The header of that reply: the new local number, the remote number, the ack field. */
  function Reply(l: Link, seqNum: uint16): Header {
    var arrived := Arrive(l, seqNum);
    Header(Small(Wrap64(l.localLarge + 1)), arrived.remoteSmall,
           AckField(Newest(arrived.received, MAX_RECEIVED), arrived.remoteLarge))
  }

  class Player {
    var localSequenceNumberLarge: uint64
    var localSequenceNumberSmall: uint16
    var remoteSequenceNumberLarge: uint64
    var remoteSequenceNumberSmall: uint16
    var sendPackets: seq<PacketInfo>
    var receivedPackets: seq<uint64>

    ghost function State(): Link
      reads this
    {
      Link(localSequenceNumberLarge, localSequenceNumberSmall,
           remoteSequenceNumberLarge, remoteSequenceNumberSmall, sendPackets, receivedPackets)
    }

    constructor ()
      ensures State() == NEW_LINK
    {
      localSequenceNumberLarge, localSequenceNumberSmall := 0, 0;
      remoteSequenceNumberLarge, remoteSequenceNumberSmall := 0, 0;
      sendPackets, receivedPackets := [], [];
    }

    /** The packet's number: line for line the first branch of the handler. */
    method ReceiveNumber(seqNum: uint16)
      modifies this`remoteSequenceNumberLarge, this`remoteSequenceNumberSmall, this`receivedPackets
      ensures State() == Arrive(old(State()), seqNum)
    {
      var diff := SequenceNumberDiff(remoteSequenceNumberSmall, seqNum);
      if diff > 0 {
        remoteSequenceNumberLarge := Wrap64(remoteSequenceNumberLarge + diff);
        remoteSequenceNumberSmall := seqNum;
        receivedPackets := receivedPackets + [remoteSequenceNumberLarge];
      }
    }

    method ReceiveAck(ack: uint16, ackBits: bv32, clock: seq<int>)
      requires |clock| == 32
      modifies this`sendPackets
      ensures State() == Acknowledge(old(State()), ack, ackBits, clock)
    {
      var diff := SequenceNumberDiff(localSequenceNumberSmall, ack);
      sendPackets := VerifyAck(sendPackets, Wrap64(localSequenceNumberLarge - diff), ackBits, clock);
    }

    method TidyLists()
      modifies this`sendPackets, this`receivedPackets
      ensures State() == Tidy(old(State()))
      ensures receivedPackets == if old(|receivedPackets|) > 60 then old(receivedPackets[|receivedPackets| - 60..])
                                 else old(receivedPackets)
    {
      sendPackets := RemoveAcknowledged(sendPackets);
      if |receivedPackets| > MAX_RECEIVED {
        receivedPackets := receivedPackets[|receivedPackets| - MAX_RECEIVED..];
      }
    }

    method SendReply(now: int) returns (reply: Header)
      modifies this`localSequenceNumberLarge, this`localSequenceNumberSmall, this`sendPackets
      ensures State() == Depart(old(State()), now)
      ensures reply == Header(localSequenceNumberSmall, remoteSequenceNumberSmall,
                              AckField(receivedPackets, remoteSequenceNumberLarge))
    {
      var ackBits := ComputeAckBits(receivedPackets, remoteSequenceNumberLarge);
      localSequenceNumberLarge := Wrap64(localSequenceNumberLarge + 1);
      localSequenceNumberSmall := Small(localSequenceNumberLarge);
      reply := Header(localSequenceNumberSmall, remoteSequenceNumberSmall, ackBits);
      sendPackets := sendPackets + [PacketInfo(localSequenceNumberLarge, false, now, 0, 0)];
    }

    method HandleGameState(h: Header, clock: seq<int>, now: int) returns (reply: Header)
      requires |clock| == 32
      modifies this
      ensures State() == ServerStep(old(State()), h, clock, now)
      ensures reply == Reply(old(State()), h.seqNum)
    {
      ReceiveNumber(h.seqNum);
      ReceiveAck(h.ack, h.ackBits, clock);
      TidyLists();
      reply := SendReply(now);
    }
  }

  method RemoveAcknowledged(s: seq<PacketInfo>) returns (r: seq<PacketInfo>)
    ensures r == Unacknowledged(s)
  {
    r := [];
    for i := 0 to |s|
      invariant r == Unacknowledged(s[..i])
    {
      assert s[..i + 1][..i] == s[..i];
      if !s[i].acknowledged {
        r := r + [s[i]];
      }
    }
    assert s[..|s|] == s;
  }

  // ---------- what every packet keeps, whatever it says ----------

  /** What is left after the acknowledged packets are removed, and what was removed. */
  ghost predicate Splits(s: seq<PacketInfo>, left: seq<PacketInfo>) {
    && Ordered(left) && AckedNums(left) == {}
    && Nums(left) + AckedNums(s) == Nums(s) && Nums(left) !! AckedNums(s)
  }

  /** Removing the acknowledged packets splits the numbers in two. */
  lemma {:induction false} UnacknowledgedSplits(s: seq<PacketInfo>)
    requires Ordered(s)
    ensures Splits(s, Unacknowledged(s))
  {
    if s == [] {
    } else {
      var init, last := s[..|s| - 1], s[|s| - 1];
      assert s == init + [last];
      UnacknowledgedSplits(init);
      SplitAppend(init, Unacknowledged(init), last);
    }
  }

  lemma {:induction false} SplitAppend(init: seq<PacketInfo>, left: seq<PacketInfo>, last: PacketInfo)
    requires Splits(init, left) && AllBelow(Nums(init), last.seqNum)
    ensures Splits(init + [last], left + (if last.acknowledged then [] else [last]))
  {
    AppendPacket(init, last);
    AppendPacket(left, last);
    SplitGrows(Nums(left), AckedNums(init), last.seqNum);
    assert left + [] == left;
  }

  lemma {:induction false} SplitGrows(kept: set<nat>, acked: set<nat>, n: nat)
    requires kept !! acked && AllBelow(kept + acked, n)
    ensures (kept + {n}) !! acked && (kept + {n}) + acked == (kept + acked) + {n}
    ensures kept !! (acked + {n}) && kept + (acked + {n}) == (kept + acked) + {n}
    ensures AllBelow(kept, n)
  {
  }

  /** A run's bookkeeping: the state, the numbers retired as acknowledged, every arrival. */
  datatype Record = Record(link: Link, retired: set<nat>, history: seq<uint64>)

  datatype Event = Event(header: Header, clock: seq<int>, now: int)

  ghost predicate Timed(events: seq<Event>) {
    forall i :: 0 <= i < |events| ==> |events[i].clock| == 32
  }

  function RecordStep(r: Record, e: Event): Record
    requires |e.clock| == 32
  {
    var acked := Acknowledge(Arrive(r.link, e.header.seqNum), e.header.ack, e.header.ackBits, e.clock);
    Record(ServerStep(r.link, e.header, e.clock, e.now),
           r.retired + AckedNums(acked.sent),
           HistoryAfter(r.link, r.history, e.header.seqNum))
  }

  function Run(events: seq<Event>): Record
    requires Timed(events)
  {
    if events == [] then Record(NEW_LINK, {}, [])
    else RecordStep(Run(events[..|events| - 1]), events[|events| - 1])
  }

  /** nums is { 1, ..., n }. */
  ghost predicate IsRange(nums: set<nat>, n: nat) {
    forall i :: i in nums <==> 1 <= i <= n
  }

  /** Every number sent so far is either still stored, unacknowledged, or retired, never both. */
  ghost predicate SentOrRetired(localLarge: uint64, sent: seq<PacketInfo>, retired: set<nat>) {
    && Ordered(sent) && AckedNums(sent) == {}
    && IsRange(Nums(sent) + retired, localLarge) && Nums(sent) !! retired
    && (localLarge > 0 ==> sent != [] && sent[|sent| - 1].seqNum == localLarge)
  }

  ghost predicate Kept(r: Record) {
    && HistoryKept(MAX_RECEIVED, r.link.remoteLarge, r.link.received, r.history)
    && SentOrRetired(r.link.localLarge, r.link.sent, r.retired)
  }

  lemma {:induction false} RetireKeepsPartition(localLarge: uint64, sent: seq<PacketInfo>, retired: set<nat>,
                                                s: seq<PacketInfo>, n: uint64, now: int)
    requires SentOrRetired(localLarge, sent, retired) && SeqNums(s) == SeqNums(sent) && n == localLarge + 1
    ensures SentOrRetired(n, Unacknowledged(s) + [PacketInfo(n, false, now, 0, 0)], retired + AckedNums(s))
  {
    SameNums(s, sent);
    UnacknowledgedSplits(s);
    var kept := Unacknowledged(s);
    AppendPacket(kept, PacketInfo(n, false, now, 0, 0));
    Repartition(Nums(kept), AckedNums(s), retired, localLarge);
  }

  /** The same step on the sets of numbers. */
  lemma {:induction false} Repartition(kept: set<nat>, acked: set<nat>, retired: set<nat>, n: nat)
    requires kept !! acked && (kept + acked) !! retired
    requires IsRange((kept + acked) + retired, n)
    ensures AllBelow(kept, n + 1) && (kept + {n + 1}) !! (retired + acked)
    ensures IsRange((kept + {n + 1}) + (retired + acked), n + 1)
  {
  }

  lemma {:induction false} StepKeepsHistory(l: Link, history: seq<uint64>, h: Header, clock: seq<int>, now: int)
    requires |clock| == 32 && HistoryKept(MAX_RECEIVED, l.remoteLarge, l.received, history) && l.remoteLarge + TWO_16 < TWO_64
    ensures var next := ServerStep(l, h, clock, now);
            && HistoryKept(MAX_RECEIVED, next.remoteLarge, next.received, HistoryAfter(l, history, h.seqNum))
            && next.remoteLarge <= l.remoteLarge + TWO_16
  {
    ArrivalKeepsHistory(MAX_RECEIVED, l, history, h.seqNum);
  }

  lemma {:induction false} DepartKeepsPartition(acked: Link, sent: seq<PacketInfo>, retired: set<nat>, now: int)
    requires SentOrRetired(acked.localLarge, sent, retired) && SeqNums(acked.sent) == SeqNums(sent)
    requires acked.localLarge + 1 < TWO_64
    ensures var next := Depart(Tidy(acked), now);
            && SentOrRetired(next.localLarge, next.sent, retired + AckedNums(acked.sent))
            && next.localLarge == acked.localLarge + 1
  {
    var n := Wrap64(acked.localLarge + 1);
    assert n == acked.localLarge + 1;
    RetireKeepsPartition(acked.localLarge, sent, retired, acked.sent, n, now);
  }

  lemma {:induction false} StepKeepsPartition(l: Link, retired: set<nat>, h: Header, clock: seq<int>, now: int)
    requires |clock| == 32 && SentOrRetired(l.localLarge, l.sent, retired) && l.localLarge + 1 < TWO_64
    ensures var acked := Acknowledge(Arrive(l, h.seqNum), h.ack, h.ackBits, clock);
            var next := ServerStep(l, h, clock, now);
            && SentOrRetired(next.localLarge, next.sent, retired + AckedNums(acked.sent))
            && next.localLarge == l.localLarge + 1
  {
    DepartKeepsPartition(Acknowledge(Arrive(l, h.seqNum), h.ack, h.ackBits, clock), l.sent, retired, now);
  }

  lemma {:induction false} ServerStepKeeps(r: Record, e: Event)
    requires |e.clock| == 32 && Kept(r)
    requires r.link.remoteLarge + TWO_16 < TWO_64 && r.link.localLarge + 1 < TWO_64
    ensures var next := RecordStep(r, e);
            && Kept(next)
            && next.link.localLarge == r.link.localLarge + 1
            && next.link.remoteLarge <= r.link.remoteLarge + TWO_16
  {
    StepKeepsHistory(r.link, r.history, e.header, e.clock, e.now);
    StepKeepsPartition(r.link, r.retired, e.header, e.clock, e.now);
  }

  /**
   After any run of packets with arbitrary numbers, acknowledgements and bits: the received
   list is the newest 60 of all arrivals, ascending and ending at the remote number; and
   the numbers sent are exactly split into the stored unacknowledged ones and the retired.
   */
  lemma {:induction false} ServerKeeps(events: seq<Event>)
    requires Timed(events) && |events| < MAX_EVENTS
    ensures var r := Run(events);
            && Kept(r) && r.link.localLarge == |events| && r.link.remoteLarge <= TWO_16 * |events|
    decreases |events|
  {
    if events == [] {
    } else {
      var init, e := events[..|events| - 1], events[|events| - 1];
      ServerKeeps(init);
      ServerStepKeeps(Run(init), e);
    }
  }

  lemma {:induction false} ArrivalReports(l: Link, history: seq<uint64>, seqNum: uint16)
    requires HistoryKept(MAX_RECEIVED, l.remoteLarge, l.received, history) && l.remoteLarge + TWO_16 < TWO_64
    ensures var a := Arrive(l, seqNum);
            AckField(Newest(a.received, MAX_RECEIVED), a.remoteLarge) == AckField(HistoryAfter(l, history, seqNum), a.remoteLarge)
  {
    ArrivalKeepsHistory(MAX_RECEIVED, l, history, seqNum);
    HistoryReports(MAX_RECEIVED, Arrive(l, seqNum).remoteLarge, Newest(Arrive(l, seqNum).received, MAX_RECEIVED),
                   HistoryAfter(l, history, seqNum));
  }

  lemma {:induction false} ReplyReports(r: Record, seqNum: uint16)
    requires Kept(r) && r.link.remoteLarge + TWO_16 < TWO_64 && r.link.localLarge + 1 < TWO_64
    ensures var a := Arrive(r.link, seqNum);
            Reply(r.link, seqNum) ==
            Header(Small(r.link.localLarge + 1), a.remoteSmall, AckField(HistoryAfter(r.link, r.history, seqNum), a.remoteLarge))
  {
    assert Wrap64(r.link.localLarge + 1) == r.link.localLarge + 1;
    ArrivalReports(r.link, r.history, seqNum);
  }

  /** Every reply reports on all arrivals, although only the newest 60 are stored. */
  lemma {:induction false} ReplyReportsFullHistory(events: seq<Event>, seqNum: uint16)
    requires Timed(events) && |events| + 1 < MAX_EVENTS
    ensures var r := Run(events);
            var a := Arrive(r.link, seqNum);
            Reply(r.link, seqNum) ==
            Header(Small(|events| + 1), a.remoteSmall, AckField(HistoryAfter(r.link, r.history, seqNum), a.remoteLarge))
  {
    ServerKeeps(events);
    ReplyReports(Run(events), seqNum);
  }
}
