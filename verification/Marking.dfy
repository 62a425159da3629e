/**
 What an acknowledgement marks at the end that takes it: first for a header that tells the
 truth, however late and across however many wraps it comes, then for the headers that the
 two ends really send, over every run of the end that sends them.
 */
module Marking {
  import opened Bits
  import opened SequenceNumbers
  import opened AckBits
  import opened Links
  import opened Exchange
  import ServerLink
  import ClientLink

  // ---------- a truthful header ----------

  /** The bits tell the truth about the window before packet acked, and the whole of it. */
  ghost predicate Tells(ackBits: bv32, acked: nat, got: set<nat>) {
    forall b: nat :: b < 32 ==> (Bit(ackBits, b) <==> acked + b >= 33 && acked + b - 32 in got)
  }

  /**
   What such bits cover when acked is taken for packet taken: that packet, and each one in
   the window before it whose counterpart, as far before acked, was received.
   */
  predicate Covers(acked: nat, taken: int, got: set<nat>, n: nat) {
    n <= taken < n + 32 && (n == taken || (acked + n > taken && acked + n - taken in got))
  }

  lemma {:induction false} TellsClaims(ackBits: bv32, acked: nat, taken: uint64, got: set<nat>, n: uint64)
    requires Tells(ackBits, acked, got)
    ensures Claims(taken, Flags(ackBits), n) <==> Covers(acked, taken, got, n)
  {
    if n < taken < n + 32 {
      assert Flags(ackBits)[32 - (taken - n)] == Bit(ackBits, 32 - (taken - n));
    }
  }

  /** The header acknowledges packet acked, less than a whole round of numbers ago, and tells the truth. */
  ghost predicate Truthful(l: Link, h: Header, acked: uint64, peerGot: set<nat>) {
    && l.localSmall == Small(l.localLarge) && l.localLarge < TWO_64 - 32
    && h.ack == Small(acked) && acked <= l.localLarge < acked + SEQUENCE_NUMBER_MAX
    && Tells(h.ackBits, acked, peerGot)
  }

  /** What an acknowledgement of acked acknowledges of the stored packets, if the peer has received got. */
  predicate Acknowledges(l: Link, acked: nat, got: set<nat>, n: nat) {
    n in Nums(l.sent) && Covers(acked, Taken(l.localLarge, acked), got, n)
  }

  /**
   A truthful header marks exactly what it covers of the stored packets. If no wrap lies in
   between and it is not late, that is what was received of its window; otherwise a packet
   is marked not because it was received, but because another one was.
   */
  lemma {:induction false} TruthfulMarksExactly(l: Link, h: Header, clock: seq<int>, acked: uint64, peerGot: set<nat>,
                                                n: uint64)
    requires |clock| == 32 && Outbox(l.sent, l.localLarge) && Truthful(l, h, acked, peerGot)
    ensures n in AckedNums(Marks(l, h, clock)) <==> n in AckedNums(l.sent) || Acknowledges(l, acked, peerGot, n)
  {
    var taken := TakenFor(l, h);
    TranslateAckIs(l.localLarge, acked);
    MarksClaimed(l, h, clock, taken, n);
    TellsClaims(h.ackBits, acked, taken, peerGot, n);
  }

  /** Every stored packet that the acknowledgement covers was received. */
  ghost predicate CoversReceived(l: Link, acked: nat, got: set<nat>) {
    forall n: uint64 :: Acknowledges(l, acked, got, n) ==> n in got
  }

  /** A truthful header marks nothing falsely exactly when what it covers was received. */
  lemma {:induction false} TruthfulIsHarmlessIff(l: Link, h: Header, acked: uint64, peerGot: set<nat>)
    requires Truthful(l, h, acked, peerGot)
    ensures Harmless(l, h, peerGot) <==> CoversReceived(l, acked, peerGot)
  {
    var taken := TakenFor(l, h);
    TranslateAckIs(l.localLarge, acked);
    forall n: uint64 ensures n in Nums(l.sent) && Claims(taken, Flags(h.ackBits), n) <==> Acknowledges(l, acked, peerGot, n) {
      TellsClaims(h.ackBits, acked, taken, peerGot, n);
    }
  }

  lemma {:induction false} ClaimsByBit(taken: uint64, ackBits: bv32, b: nat)
    requires 1 <= b < 32 <= taken && Bit(ackBits, b)
    ensures Claims(taken, Flags(ackBits), taken - 32 + b)
  {
    assert Flags(ackBits)[b] == Bit(ackBits, b);
  }

  /** A set bit marks the packet that it is taken to speak of. */
  lemma {:induction false} BitMarks(l: Link, h: Header, clock: seq<int>, taken: uint64, b: nat)
    requires |clock| == 32 && TakenFor(l, h) == taken && 1 <= b < 32 <= taken
    requires Outbox(l.sent, l.localLarge) && l.localLarge < TWO_64 - 32
    requires Bit(h.ackBits, b) && taken - 32 + b in Nums(l.sent)
    ensures taken - 32 + b in AckedNums(Marks(l, h, clock))
  {
    ClaimsByBit(taken, h.ackBits, b);
    MarksClaimed(l, h, clock, taken, taken - 32 + b);
  }

  lemma {:induction false} TakenAsSent(n: uint64)
    ensures TranslateAck(n, Small(n), Small(n)) == n
  {
    DiffMeaning(Small(n), Small(n));
  }

  /** A bit of a header that acknowledges the newest packet. */
  lemma {:induction false} NewestBitMarks(l: Link, h: Header, clock: seq<int>, b: nat)
    requires |clock| == 32 && l.localSmall == Small(l.localLarge) == h.ack && 32 <= l.localLarge < TWO_64 - 32
    requires Outbox(l.sent, l.localLarge) && 1 <= b < 32 && Bit(h.ackBits, b) && l.localLarge - 32 + b in Nums(l.sent)
    ensures l.localLarge - 32 + b in AckedNums(Marks(l, h, clock))
  {
    TakenAsSent(l.localLarge);
    BitMarks(l, h, clock, l.localLarge, b);
  }

  // ---------- the headers that the ends send ----------

  /**
   What a field over a list of counts vouches for when it is taken for packet taken: that
   packet, and each one in the window before it whose distance some count lies before the
   number that the field was computed for.
   */
  predicate Vouches(list: seq<uint64>, counted: uint64, taken: nat, n: nat) {
    n <= taken < n + 32 && (n == taken || ClientLink.Before(list, counted, taken - n))
  }

  /** Every stored packet that the field vouches for was received. */
  ghost predicate VouchesReceived(sent: seq<PacketInfo>, list: seq<uint64>, counted: uint64, taken: nat, got: set<nat>) {
    forall n: uint64 :: n in Nums(sent) && Vouches(list, counted, taken, n) ==> n in got
  }

  lemma {:induction false} FieldVouches(list: seq<uint64>, counted: uint64, taken: uint64, n: uint64)
    requires ClientLink.Countable(list)
    ensures Claims(taken, Flags(AckField(list, counted)), n) <==> Vouches(list, counted, taken, n)
  {
    if n < taken < n + 32 {
      var k := taken - n;
      ClientLink.FieldBit(list, counted, k);
      assert Flags(AckField(list, counted))[32 - k] == Bit(AckField(list, counted), 32 - k);
    }
  }

  lemma {:induction false} FieldMarksExactly(l: Link, h: Header, clock: seq<int>, list: seq<uint64>, counted: uint64,
                                             n: uint64)
    requires |clock| == 32 && Outbox(l.sent, l.localLarge) && l.localLarge < TWO_64 - 32
    requires ClientLink.Countable(list) && h.ackBits == AckField(list, counted)
    ensures n in AckedNums(Marks(l, h, clock)) <==>
            n in AckedNums(l.sent) || (n in Nums(l.sent) && Vouches(list, counted, TakenFor(l, h), n))
  {
    MarksClaimed(l, h, clock, TakenFor(l, h), n);
    FieldVouches(list, counted, TakenFor(l, h), n);
  }

  lemma {:induction false} FieldIsHarmlessIff(l: Link, h: Header, list: seq<uint64>, counted: uint64, peerGot: set<nat>)
    requires ClientLink.Countable(list) && h.ackBits == AckField(list, counted)
    ensures Harmless(l, h, peerGot) <==> VouchesReceived(l.sent, list, counted, TakenFor(l, h), peerGot)
  {
    forall n: uint64 ensures Claims(TakenFor(l, h), Flags(h.ackBits), n) <==> Vouches(list, counted, TakenFor(l, h), n) {
      FieldVouches(list, counted, TakenFor(l, h), n);
    }
  }

  lemma {:induction false} RisingIsCountable(list: seq<uint64>, newest: uint64)
    requires Rising(list) && newest < TWO_64 - 32 && (list != [] ==> list[|list| - 1] == newest)
    ensures ClientLink.Countable(list)
  {
    RisingIsAscending(list);
  }

  /** The reply to a packet, and the counts of all arrivals that it reports on. */
  lemma {:induction false} ReplyIs(events: seq<ServerLink.Event>, seqNum: uint16)
    requires ServerLink.Timed(events) && |events| + 1 < MAX_EVENTS
    ensures var r := ServerLink.Run(events);
            var a, history, h := Arrive(r.link, seqNum), HistoryAfter(r.link, r.history, seqNum), ServerLink.Reply(r.link, seqNum);
            && h.seqNum == Small(|events| + 1) && h.ack == a.remoteSmall && h.ackBits == AckField(history, a.remoteLarge)
            && ClientLink.Countable(history)
  {
    var r := ServerLink.Run(events);
    ServerLink.ServerKeeps(events);
    ServerLink.ReplyReportsFullHistory(events, seqNum);
    ArrivalKeepsHistory(ServerLink.MAX_RECEIVED, r.link, r.history, seqNum);
    RisingIsCountable(HistoryAfter(r.link, r.history, seqNum), Arrive(r.link, seqNum).remoteLarge);
  }

  /**
   Over every run of the server, whatever arrived there and in whatever order, its reply
   makes any client mark, in the window before the packet that the client takes it for,
   exactly the stored packets that lie as far before it as some count lies before the
   server's newest one.
   */
  lemma {:induction false} ReplyMarksExactly(events: seq<ServerLink.Event>, seqNum: uint16, client: Link,
                                             clock: seq<int>, n: uint64)
    requires ServerLink.Timed(events) && |events| + 1 < MAX_EVENTS
    requires |clock| == 32 && Outbox(client.sent, client.localLarge) && client.localLarge < TWO_64 - 32
    ensures var r := ServerLink.Run(events);
            var a, history, h := Arrive(r.link, seqNum), HistoryAfter(r.link, r.history, seqNum), ServerLink.Reply(r.link, seqNum);
            && h.ack == a.remoteSmall
            && (n in AckedNums(Marks(client, h, clock)) <==>
                n in AckedNums(client.sent) ||
                (n in Nums(client.sent) && Vouches(history, a.remoteLarge, TakenFor(client, h), n)))
  {
    var r := ServerLink.Run(events);
    ReplyIs(events, seqNum);
    FieldMarksExactly(client, ServerLink.Reply(r.link, seqNum), clock, HistoryAfter(r.link, r.history, seqNum),
                      Arrive(r.link, seqNum).remoteLarge, n);
  }

  /** And it marks nothing falsely exactly when all of those were received. */
  lemma {:induction false} ReplyIsHarmlessIff(events: seq<ServerLink.Event>, seqNum: uint16, client: Link, got: set<nat>)
    requires ServerLink.Timed(events) && |events| + 1 < MAX_EVENTS
    ensures var r := ServerLink.Run(events);
            var a, history, h := Arrive(r.link, seqNum), HistoryAfter(r.link, r.history, seqNum), ServerLink.Reply(r.link, seqNum);
            Harmless(client, h, got) <==> VouchesReceived(client.sent, history, a.remoteLarge, TakenFor(client, h), got)
  {
    var r := ServerLink.Run(events);
    ReplyIs(events, seqNum);
    FieldIsHarmlessIff(client, ServerLink.Reply(r.link, seqNum), HistoryAfter(r.link, r.history, seqNum),
                       Arrive(r.link, seqNum).remoteLarge, got);
  }

  lemma {:induction false} NextHeaderParts(l: Link)
    requires l.localLarge + 1 < TWO_64
    ensures ClientLink.NextHeader(l) == Header(Small(l.localLarge + 1), l.remoteSmall, AckField(l.received, l.remoteSmall))
  {
    assert Wrap64(l.localLarge + 1) == l.localLarge + 1;
  }

  lemma {:induction false} NextHeaderOf(r: ClientLink.Record)
    requires r.link.localLarge + 1 < TWO_64 && r.link.remoteLarge < TWO_64 - 32
    requires HistoryKept(ClientLink.MAX_RECEIVED, r.link.remoteLarge, r.link.received, r.history)
    ensures var h := ClientLink.NextHeader(r.link);
            && h.seqNum == Small(r.link.localLarge + 1) && h.ack == r.link.remoteSmall
            && h.ackBits == AckField(r.link.received, r.link.remoteSmall)
            && ClientLink.Countable(r.link.received) && r.link.received == Newest(r.history, ClientLink.MAX_RECEIVED)
  {
    ClientLink.ReceivedIsCountable(r.link.remoteLarge, r.link.received, r.history);
    NextHeaderParts(r.link);
  }

  lemma {:induction false} ClientHasKept(events: seq<ClientLink.Event>) returns (r: ClientLink.Record)
    requires ClientLink.Timed(events) && |events| + 1 < MAX_EVENTS
    ensures r == ClientLink.Run(events)
    ensures r.link.localLarge + 1 < TWO_64 && r.link.remoteLarge < TWO_64 - 32
    ensures HistoryKept(ClientLink.MAX_RECEIVED, r.link.remoteLarge, r.link.received, r.history)
  {
    r := ClientLink.Run(events);
    ClientLink.ClientKeeps(events);
  }

  lemma {:induction false} NextHeaderIs(events: seq<ClientLink.Event>) returns (r: ClientLink.Record)
    requires ClientLink.Timed(events) && |events| + 1 < MAX_EVENTS
    ensures r == ClientLink.Run(events)
    ensures var h := ClientLink.NextHeader(r.link);
            && h.seqNum == Small(r.link.localLarge + 1) && h.ack == r.link.remoteSmall
            && h.ackBits == AckField(r.link.received, r.link.remoteSmall)
            && ClientLink.Countable(r.link.received) && r.link.received == Newest(r.history, ClientLink.MAX_RECEIVED)
  {
    r := ClientHasKept(events);
    NextHeaderOf(r);
  }

  /**
   The same for the client's next packet over every run of the client, except that its field
   counts from the small remote number and over the newest 33 arrivals.
   */
  lemma {:induction false} NextHeaderMarksExactly(events: seq<ClientLink.Event>, server: Link, clock: seq<int>, n: uint64)
    requires ClientLink.Timed(events) && |events| + 1 < MAX_EVENTS
    requires |clock| == 32 && Outbox(server.sent, server.localLarge) && server.localLarge < TWO_64 - 32
    ensures var r := ClientLink.Run(events);
            var h := ClientLink.NextHeader(r.link);
            && h.ack == r.link.remoteSmall
            && (n in AckedNums(Marks(server, h, clock)) <==>
                n in AckedNums(server.sent) ||
                (n in Nums(server.sent) &&
                 Vouches(Newest(r.history, ClientLink.MAX_RECEIVED), r.link.remoteSmall, TakenFor(server, h), n)))
  {
    var r := NextHeaderIs(events);
    FieldMarksExactly(server, ClientLink.NextHeader(r.link), clock, r.link.received, r.link.remoteSmall, n);
  }

  lemma {:induction false} NextHeaderIsHarmlessIff(events: seq<ClientLink.Event>, server: Link, got: set<nat>)
    requires ClientLink.Timed(events) && |events| + 1 < MAX_EVENTS
    ensures var r := ClientLink.Run(events);
            var h := ClientLink.NextHeader(r.link);
            Harmless(server, h, got) <==>
            VouchesReceived(server.sent, Newest(r.history, ClientLink.MAX_RECEIVED), r.link.remoteSmall, TakenFor(server, h), got)
  {
    var r := NextHeaderIs(events);
    FieldIsHarmlessIff(server, ClientLink.NextHeader(r.link), r.link.received, r.link.remoteSmall, got);
  }
}
