/**
 Packets in order across the wraps of the wire number. Each wrap costs the receiver one
 count, so in a window that spans a wrap the packets before it lie one place off. Here is
 what either end then says about what it has received, and what the other end makes of it,
 for every stream of packets with gaps that can be bridged.
 */
module Wrapping {
  import opened Bits
  import opened SequenceNumbers
  import opened AckBits
  import opened Links
  import opened Exchange
  import opened Marking
  import ServerLink
  import ClientLink

  // ---------- what a receiver counts ----------

  /** Packets numbered from 1, in order, with repeats and with gaps that can be bridged. */
  ghost predicate Bridged(stream: seq<nat>) {
    InOrder(stream) && AllBridgeable(stream) && FromOne(stream)
  }

  predicate FromOne(stream: seq<nat>) {
    forall i :: 0 <= i < |stream| ==> stream[i] >= 1
  }

  /** Each new packet is counted with the wraps before it. */
  function Counts(stream: seq<nat>): seq<nat> {
    if stream == [] then []
    else
      var init := stream[..|stream| - 1];
      Counts(init) + (if Last(init) == Last(stream) then [] else [Drifted(Last(stream))])
  }

  lemma {:induction false} BridgedInit(stream: seq<nat>)
    requires Bridged(stream) && stream != []
    ensures Bridged(stream[..|stream| - 1])
    ensures Last(stream[..|stream| - 1]) <= Last(stream) && Bridgeable(Last(stream[..|stream| - 1]), Last(stream))
    ensures Last(stream) == stream[|stream| - 1] >= 1
  {
  }

  lemma {:induction false} BridgedAppend(stream: seq<nat>, n: nat)
    requires Bridged(stream) && 1 <= n && Last(stream) <= n && Bridgeable(Last(stream), n)
    ensures Bridged(stream + [n]) && Last(stream + [n]) == n
  {
    assert (stream + [n])[..|stream|] == stream;
  }

  ghost predicate InStep(l: Link, newest: nat) {
    Tracks(Remote(l.remoteLarge, l.remoteSmall), newest)
  }

  lemma {:induction false} ShortStep(from: nat, to: nat)
    requires from <= to && Bridgeable(from, to)
    ensures Drifted(from) <= Drifted(to) <= Drifted(from) + TWO_16
  {
  }

  /** A packet in order is counted once, and keeps the receiver in step. */
  lemma {:induction false} ArriveInStep(l: Link, history: seq<uint64>, from: nat, to: nat)
    requires InStep(l, from) && from <= to && Bridgeable(from, to) && l.remoteLarge + TWO_16 < TWO_64
    ensures InStep(Arrive(l, Small(to)), to)
    ensures HistoryAfter(l, history, Small(to)) == history + (if from == to then [] else [Drifted(to)])
  {
    ShortStep(from, to);
    StepTracksIff(Remote(l.remoteLarge, l.remoteSmall), from, to);
    if from < to {
      StepIsExactIff(from, to);
    }
  }

  /** The packets of this stream reach the server, with any acknowledgements. */
  ghost predicate Carries(events: seq<ServerLink.Event>, stream: seq<nat>) {
    |events| == |stream| && forall i :: 0 <= i < |events| ==> events[i].header.seqNum == Small(stream[i])
  }

  lemma {:induction false} ServerRunStep(events: seq<ServerLink.Event>)
    requires ServerLink.Timed(events) && events != []
    ensures var r, next, e := ServerLink.Run(events[..|events| - 1]), ServerLink.Run(events), events[|events| - 1];
            && next.history == HistoryAfter(r.link, r.history, e.header.seqNum)
            && next.link.remoteLarge == Arrive(r.link, e.header.seqNum).remoteLarge
            && next.link.remoteSmall == Arrive(r.link, e.header.seqNum).remoteSmall
  {
  }

  lemma {:induction false} ServerCounts(events: seq<ServerLink.Event>, stream: seq<nat>)
    requires ServerLink.Timed(events) && |events| < MAX_EVENTS && Carries(events, stream) && Bridged(stream)
    ensures var r := ServerLink.Run(events);
            r.history == Counts(stream) && InStep(r.link, Last(stream))
    decreases |events|
  {
    if events == [] {
    } else {
      var init, e := events[..|events| - 1], events[|events| - 1];
      BridgedInit(stream);
      ServerCounts(init, stream[..|stream| - 1]);
      ServerLink.ServerKeeps(init);
      var r := ServerLink.Run(init);
      ArriveInStep(r.link, r.history, Last(stream[..|stream| - 1]), Last(stream));
      ServerRunStep(events);
    }
  }

  /** The wire numbers that have reached the client. */
  function Wires(events: seq<ClientLink.Event>): seq<uint16> {
    if events == [] then []
    else Wires(events[..|events| - 1])
         + (if events[|events| - 1].Receive? then [events[|events| - 1].header.seqNum] else [])
  }

  ghost predicate AreSmall(wires: seq<uint16>, stream: seq<nat>) {
    |wires| == |stream| && forall i :: 0 <= i < |wires| ==> wires[i] == Small(stream[i])
  }

  lemma {:induction false} ClientRunStep(events: seq<ClientLink.Event>)
    requires ClientLink.Timed(events) && events != []
    ensures var r, next, e := ClientLink.Run(events[..|events| - 1]), ClientLink.Run(events), events[|events| - 1];
            if e.Receive? then
              && next.history == HistoryAfter(r.link, r.history, e.header.seqNum)
              && next.link.remoteLarge == Arrive(r.link, e.header.seqNum).remoteLarge
              && next.link.remoteSmall == Arrive(r.link, e.header.seqNum).remoteSmall
            else
              next.history == r.history && next.link.remoteLarge == r.link.remoteLarge && next.link.remoteSmall == r.link.remoteSmall
  {
  }

  lemma {:induction false} ClientCounts(events: seq<ClientLink.Event>, stream: seq<nat>)
    requires ClientLink.Timed(events) && |events| < MAX_EVENTS && AreSmall(Wires(events), stream) && Bridged(stream)
    ensures var r := ClientLink.Run(events);
            r.history == Counts(stream) && InStep(r.link, Last(stream))
    decreases |events|
  {
    if events == [] {
    } else {
      var init, e := events[..|events| - 1], events[|events| - 1];
      ClientRunStep(events);
      if e.Receive? {
        BridgedInit(stream);
        assert AreSmall(Wires(init), stream[..|stream| - 1]);
        ClientCounts(init, stream[..|stream| - 1]);
        ClientLink.ClientKeeps(init);
        var r := ClientLink.Run(init);
        ArriveInStep(r.link, r.history, Last(stream[..|stream| - 1]), Last(stream));
      } else {
        ClientCounts(init, stream);
      }
    }
  }

  // ---------- which packet a count stands for ----------

  /** The packet that a count stands for, if it stands for any. */
  function Packed(count: nat): nat {
    count - count / 65536
  }

  predicate IsCount(count: nat) {
    count % 65536 < 65535
  }

  lemma {:induction false} DriftedIs(count: nat, n: nat)
    ensures count == Drifted(n) <==> IsCount(count) && Packed(count) == n
  {
    var q, s := n / 65535, n % 65535;
    assert n == 65535 * q + s && Drifted(n) == 65536 * q + s;
  }

  lemma {:induction false} CountsMembers(stream: seq<nat>, count: nat)
    requires Bridged(stream)
    ensures count in Counts(stream) <==> IsCount(count) && Packed(count) in stream
  {
    if stream == [] {
    } else {
      var init, last := stream[..|stream| - 1], stream[|stream| - 1];
      BridgedInit(stream);
      CountsMembers(init, count);
      DriftedIs(count, last);
      assert stream == init + [last];
      if Last(init) == last {
        assert last in init;
      }
    }
  }

  /**
   What the place of packet n says in the window before packet top: in the same round of the
   wire number whether n was received, and in the round before whether n + 1 was.
   */
  predicate Counted(stream: seq<nat>, top: nat, n: nat) {
    if n / 65535 == top / 65535 then n in stream
    else (n + 1) / 65535 == n / 65535 && n + 1 in stream
  }

  lemma {:induction false} PlaceInWindow(top: nat, k: nat)
    requires 1 <= k <= 32 && k <= top
    ensures Drifted(top) >= k
    ensures var n, count := top - k, Drifted(top) - k;
            if n / 65535 == top / 65535 then IsCount(count) && Packed(count) == n
            else IsCount(count) == ((n + 1) / 65535 == n / 65535) && (IsCount(count) ==> Packed(count) == n + 1)
  {
    var n := top - k;
    var q, s := n / 65535, n % 65535;
    assert n == 65535 * q + s && (top / 65535 == q || top / 65535 == q + 1);
    if top / 65535 == q {
      DriftedIs(Drifted(top) - k, n);
    } else if s + 1 < 65535 {
      assert Drifted(n + 1) == n + 1 + q;
      DriftedIs(Drifted(top) - k, n + 1);
    } else {
      assert Drifted(top) - k == 65536 * q + 65535;
    }
  }

  /** The field of a receiver in step, place by place. */
  lemma {:induction false} BeforeIsCounted(list: seq<uint64>, stream: seq<nat>, k: nat)
    requires Bridged(stream) && list == Counts(stream) && 1 <= k <= 32 && Drifted(Last(stream)) < TWO_64
    ensures ClientLink.Before(list, Drifted(Last(stream)), k) <==>
            Last(stream) >= k && Counted(stream, Last(stream), Last(stream) - k)
  {
    var top, count := Last(stream), Drifted(Last(stream)) - k;
    if k <= top {
      PlaceInWindow(top, k);
      CountsMembers(stream, count);
      assert count in list <==> count in Counts(stream);
    }
  }

  // ---------- the server's reply ----------

  /** The end that takes it still counts within a round of packet top. */
  ghost predicate Awaits(l: Link, top: nat) {
    && Outbox(l.sent, l.localLarge) && l.localLarge < TWO_64 - 32 && l.localSmall == Small(l.localLarge)
    && top <= l.localLarge < top + SEQUENCE_NUMBER_MAX
  }

  /** The packets before the last one have reached the server, and the last one is being answered. */
  ghost predicate Answering(events: seq<ServerLink.Event>, stream: seq<nat>) {
    && ServerLink.Timed(events) && |events| + 1 < MAX_EVENTS
    && stream != [] && Bridged(stream) && Carries(events, stream[..|stream| - 1])
  }

  function Answer(events: seq<ServerLink.Event>, stream: seq<nat>): Header
    requires ServerLink.Timed(events)
  {
    ServerLink.Reply(ServerLink.Run(events).link, Small(Last(stream)))
  }

  lemma {:induction false} AnswerCounts(events: seq<ServerLink.Event>, stream: seq<nat>)
    requires Answering(events, stream)
    ensures var r, top := ServerLink.Run(events), Last(stream);
            && InStep(Arrive(r.link, Small(top)), top) && HistoryAfter(r.link, r.history, Small(top)) == Counts(stream)
  {
    var r, init := ServerLink.Run(events), stream[..|stream| - 1];
    BridgedInit(stream);
    ServerCounts(events, init);
    ServerLink.ServerKeeps(events);
    ArriveInStep(r.link, r.history, Last(init), Last(stream));
  }

  lemma {:induction false} AnswerIs(events: seq<ServerLink.Event>, stream: seq<nat>) returns (list: seq<uint64>)
    requires Answering(events, stream)
    ensures list == Counts(stream) && ClientLink.Countable(list) && Drifted(Last(stream)) < TWO_64
    ensures Answer(events, stream).ack == Small(Last(stream))
    ensures Answer(events, stream).ackBits == AckField(list, Drifted(Last(stream)))
  {
    var r, top := ServerLink.Run(events), Last(stream);
    AnswerCounts(events, stream);
    ReplyIs(events, Small(top));
    list := HistoryAfter(r.link, r.history, Small(top));
  }

  /**
   What the reply makes its receiver mark when packet top is taken for packet taken: that
   one, and each one in the window before it whose place, as far before top, is counted.
   */
  predicate Stands(stream: seq<nat>, taken: int, n: nat) {
    var top := Last(stream);
    n <= taken < n + 32 && (n == taken || (top + n >= taken && Counted(stream, top, top + n - taken)))
  }

  lemma {:induction false} VouchesStands(list: seq<uint64>, stream: seq<nat>, taken: nat, n: nat)
    requires Bridged(stream) && list == Counts(stream) && Drifted(Last(stream)) < TWO_64
    ensures Vouches(list, Drifted(Last(stream)), taken, n) <==> Stands(stream, taken, n)
  {
    if n < taken < n + 32 {
      BeforeIsCounted(list, stream, taken - n);
    }
  }

  /**
   Over every run of the server with packets in order and gaps that can be bridged, across
   any number of wraps: what its reply to the newest packet makes the client mark.
   */
  lemma {:induction false} AnswerMarksExactly(events: seq<ServerLink.Event>, stream: seq<nat>, client: Link,
                                              clock: seq<int>, n: uint64)
    requires Answering(events, stream) && |clock| == 32 && Awaits(client, Last(stream))
    ensures var h, taken := Answer(events, stream), Taken(client.localLarge, Last(stream));
            n in AckedNums(Marks(client, h, clock)) <==>
            n in AckedNums(client.sent) || (n in Nums(client.sent) && Stands(stream, taken, n))
  {
    var h, top := Answer(events, stream), Last(stream);
    var list := AnswerIs(events, stream);
    TranslateAckIs(client.localLarge, top);
    FieldMarksExactly(client, h, clock, list, Drifted(top), n);
    VouchesStands(list, stream, TakenFor(client, h), n);
  }

  /** Every stored packet that the reply stands for was received. */
  ghost predicate StandsForReceived(sent: seq<PacketInfo>, stream: seq<nat>, taken: int, got: set<nat>) {
    forall n: uint64 :: n in Nums(sent) && Stands(stream, taken, n) ==> n in got
  }

  function Got(stream: seq<nat>): set<nat> {
    set n | n in stream
  }

  lemma {:induction false} AnswerIsHarmlessIff(events: seq<ServerLink.Event>, stream: seq<nat>, client: Link, got: set<nat>)
    requires Answering(events, stream) && Awaits(client, Last(stream))
    ensures Harmless(client, Answer(events, stream), got) <==>
            StandsForReceived(client.sent, stream, Taken(client.localLarge, Last(stream)), got)
  {
    var h, top := Answer(events, stream), Last(stream);
    var list := AnswerIs(events, stream);
    TranslateAckIs(client.localLarge, top);
    FieldIsHarmlessIff(client, h, list, Drifted(top), got);
    forall n: nat ensures Vouches(list, Drifted(top), TakenFor(client, h), n) <==> Stands(stream, TakenFor(client, h), n) {
      VouchesStands(list, stream, TakenFor(client, h), n);
    }
  }

  /** Packet n lies in the window before top but in the round before, and the next one of its round was received. */
  predicate Misplaced(stream: seq<nat>, top: nat, n: nat) {
    && n < top <= n + 32 && n / 65535 != top / 65535
    && (n + 1) / 65535 == n / 65535 && n + 1 in stream
  }

  /** The field speaks of the packet k before the acknowledged one. */
  predicate Says(ackBits: bv32, k: nat) {
    1 <= k <= 32 && Bit(ackBits, 32 - k)
  }

  /** All that the field says of the window before top is true. */
  ghost predicate TrueField(ackBits: bv32, stream: seq<nat>, top: nat) {
    forall k: nat :: Says(ackBits, k) ==> top >= k && top - k in stream
  }

  lemma {:induction false} TrueFieldIff(ackBits: bv32, stream: seq<nat>, top: nat)
    requires forall k: nat :: Says(ackBits, k) <==> 1 <= k <= 32 && top >= k && Counted(stream, top, top - k)
    ensures TrueField(ackBits, stream, top) <==> forall n: nat :: Misplaced(stream, top, n) ==> n in stream
  {
    if TrueField(ackBits, stream, top) {
      forall n: nat | Misplaced(stream, top, n) ensures n in stream {
        assert Says(ackBits, top - n);
      }
    } else {
      var k: nat :| Says(ackBits, k) && !(top >= k && top - k in stream);
      assert Misplaced(stream, top, top - k);
    }
  }

  lemma {:induction false} FieldSays(list: seq<uint64>, stream: seq<nat>, k: nat)
    requires Bridged(stream) && list == Counts(stream) && ClientLink.Countable(list) && Drifted(Last(stream)) < TWO_64
    ensures Says(AckField(list, Drifted(Last(stream))), k) <==>
            1 <= k <= 32 && Last(stream) >= k && Counted(stream, Last(stream), Last(stream) - k)
  {
    if 1 <= k <= 32 {
      ClientLink.FieldBit(list, Drifted(Last(stream)), k);
      BeforeIsCounted(list, stream, k);
    }
  }

  lemma {:induction false} FieldIsTrueIff(list: seq<uint64>, stream: seq<nat>)
    requires Bridged(stream) && list == Counts(stream) && ClientLink.Countable(list) && Drifted(Last(stream)) < TWO_64
    ensures TrueField(AckField(list, Drifted(Last(stream))), stream, Last(stream)) <==>
            forall n: nat :: Misplaced(stream, Last(stream), n) ==> n in stream
  {
    var top, field := Last(stream), AckField(list, Drifted(Last(stream)));
    forall k: nat ensures Says(field, k) <==> 1 <= k <= 32 && top >= k && Counted(stream, top, top - k) {
      FieldSays(list, stream, k);
    }
    TrueFieldIff(field, stream, top);
  }

  /** The reply's field is true exactly when every such packet was received itself. */
  lemma {:induction false} AnswerIsTrueIff(events: seq<ServerLink.Event>, stream: seq<nat>)
    requires Answering(events, stream)
    ensures TrueField(Answer(events, stream).ackBits, stream, Last(stream)) <==>
            forall n: nat :: Misplaced(stream, Last(stream), n) ==> n in stream
  {
    var list := AnswerIs(events, stream);
    FieldIsTrueIff(list, stream);
  }

  /** A client that gets it in time, in the same round, marks nothing falsely exactly under that condition. */
  lemma {:induction false} PromptAnswerIsHarmlessIff(events: seq<ServerLink.Event>, stream: seq<nat>, client: Link)
    requires Answering(events, stream) && Awaits(client, Last(stream))
    requires client.localLarge / 65535 == Last(stream) / 65535 && client.localLarge - Last(stream) <= SEQUENCE_NUMBER_HALF
    ensures Harmless(client, Answer(events, stream), Got(stream)) <==>
            forall n: uint64 :: n in Nums(client.sent) && Misplaced(stream, Last(stream), n) && n + 32 > Last(stream) ==> n in stream
  {
    AnswerIsHarmlessIff(events, stream, client, Got(stream));
    var top := Last(stream);
    assert top in stream;
    forall n: uint64 | n !in stream
      ensures Stands(stream, top, n) <==> Misplaced(stream, top, n) && n + 32 > top
    {
    }
  }

  // ---------- the client's header ----------

  /** The stream has reached the client, among whatever else it did. */
  ghost predicate Heard(events: seq<ClientLink.Event>, stream: seq<nat>) {
    && ClientLink.Timed(events) && |events| + 1 < MAX_EVENTS
    && Bridged(stream) && AreSmall(Wires(events), stream)
  }

  lemma {:induction false} HeaderIs(events: seq<ClientLink.Event>, stream: seq<nat>) returns (list: seq<uint64>)
    requires Heard(events, stream)
    ensures list == Newest(Counts(stream), ClientLink.MAX_RECEIVED) && ClientLink.Countable(list)
    ensures var h := ClientLink.NextHeader(ClientLink.Run(events).link);
            h.ack == Small(Last(stream)) && h.ackBits == AckField(list, Small(Last(stream)))
  {
    ClientCounts(events, stream);
    var r := NextHeaderIs(events);
    list := r.link.received;
  }

  /** The place of packet n, as far before the small number, is among the newest 33 counts. */
  predicate SmallStands(stream: seq<nat>, taken: int, n: nat) {
    var small := Small(Last(stream));
    && n <= taken < n + 32
    && (n == taken || (small + n >= taken && small + n - taken in Newest(Counts(stream), ClientLink.MAX_RECEIVED)))
  }

  lemma {:induction false} VouchesSmall(list: seq<uint64>, stream: seq<nat>, taken: nat, n: nat)
    requires list == Newest(Counts(stream), ClientLink.MAX_RECEIVED)
    ensures Vouches(list, Small(Last(stream)), taken, n) <==> SmallStands(stream, taken, n)
  {
  }

  /**
   Over every run of the client with packets in order and gaps that can be bridged: what its
   next packet makes the server mark. Its field counts from the small number.
   */
  lemma {:induction false} HeaderMarksExactly(events: seq<ClientLink.Event>, stream: seq<nat>, server: Link,
                                              clock: seq<int>, n: uint64)
    requires Heard(events, stream) && |clock| == 32 && Awaits(server, Last(stream))
    ensures var h, taken := ClientLink.NextHeader(ClientLink.Run(events).link), Taken(server.localLarge, Last(stream));
            n in AckedNums(Marks(server, h, clock)) <==>
            n in AckedNums(server.sent) || (n in Nums(server.sent) && SmallStands(stream, taken, n))
  {
    var h := ClientLink.NextHeader(ClientLink.Run(events).link);
    var list := HeaderIs(events, stream);
    TranslateAckIs(server.localLarge, Last(stream));
    FieldMarksExactly(server, h, clock, list, Small(Last(stream)), n);
    VouchesSmall(list, stream, TakenFor(server, h), n);
  }

  /** Every stored packet that the header stands for was received. */
  ghost predicate SmallStandsForReceived(sent: seq<PacketInfo>, stream: seq<nat>, taken: int, got: set<nat>) {
    forall n: uint64 :: n in Nums(sent) && SmallStands(stream, taken, n) ==> n in got
  }

  lemma {:induction false} HeaderIsHarmlessIff(events: seq<ClientLink.Event>, stream: seq<nat>, server: Link, got: set<nat>)
    requires Heard(events, stream) && Awaits(server, Last(stream))
    ensures Harmless(server, ClientLink.NextHeader(ClientLink.Run(events).link), got) <==>
            SmallStandsForReceived(server.sent, stream, Taken(server.localLarge, Last(stream)), got)
  {
    var h, taken := ClientLink.NextHeader(ClientLink.Run(events).link), Taken(server.localLarge, Last(stream));
    var list := HeaderIs(events, stream);
    TranslateAckIs(server.localLarge, Last(stream));
    FieldIsHarmlessIff(server, h, list, Small(Last(stream)), got);
    forall n: nat ensures Vouches(list, Small(Last(stream)), taken, n) <==> SmallStands(stream, taken, n) {
      VouchesSmall(list, stream, taken, n);
    }
  }

  /** So all that its field can speak of are packets of the first round. */
  lemma {:induction false} SmallCountsAreEarly(stream: seq<nat>, taken: int, n: nat)
    requires Bridged(stream) && SmallStands(stream, taken, n) && n != taken
    ensures Small(Last(stream)) + n - taken in stream
  {
    var count := Small(Last(stream)) + n - taken;
    var counts := Counts(stream);
    assert count in counts;
    CountsMembers(stream, count);
  }
}
