/**
 A run in order in which the client's two remote numbers drift apart at the wrap, so that
 its field reports an old packet in a new one's place. Of the server's first 65734 replies
 only 180, 30000, 60000 and 65734 come in. The client's next packet then makes the server
 retire reply 65715.
 */
module Drift {
  import opened Bits
  import opened SequenceNumbers
  import opened AckBits
  import opened Links
  import opened Exchange
  import opened Marking
  import opened Rounds
  import ServerLink
  import ClientLink

  // ---------- the server ----------

  /** The server has sent n replies and still stores reply 65715 once it is sent. */
  ghost predicate Keeps(server: Link, n: nat) {
    server.localLarge == n && AckedNums(server.sent) == {} && (n >= 65715 ==> 65715 in Nums(server.sent))
  }

  /** The acknowledgement of reply 60000 crosses the wrap, and is taken for an early reply. */
  lemma {:induction false} TakenEarly(n: nat)
    requires 65715 <= n <= 65734
    ensures 60000 <= n < 60000 + SEQUENCE_NUMBER_MAX && 32 <= Taken(n, 60000) <= 5933 && Small(60000) == 60000
  {
  }

  lemma {:induction false} NotMarked(server: Link, n: nat, h: Header, clock: seq<int>, acked: set<nat>)
    requires |clock| == 32 && Storing(server, acked) && Keeps(server, n) && 65715 <= n <= 65734 && h.ack == 60000
    ensures 65715 !in AckedNums(Marks(server, h, clock))
  {
    TakenEarly(n);
    TranslateAckIs(n, 60000);
    MarksClaimed(server, h, clock, Taken(n, 60000), 65715);
  }

  lemma {:induction false} SplitKeeps(marks: seq<PacketInfo>, sent: seq<PacketInfo>, top: nat, n: nat, now: int)
    requires Outbox(sent, top) && SeqNums(marks) == SeqNums(sent) && top + 1 < TWO_64
    ensures var next := ServerLink.Unacknowledged(marks) + [PacketInfo(top + 1, false, now, 0, 0)];
            && AckedNums(next) == {} && top + 1 in Nums(next)
            && (n in Nums(sent) && n !in AckedNums(marks) ==> n in Nums(next))
  {
    var left := ServerLink.Unacknowledged(marks);
    SameNums(marks, sent);
    ServerLink.UnacknowledgedSplits(marks);
    AppendPacket(left, PacketInfo(top + 1, false, now, 0, 0));
  }

  lemma {:induction false} ServerSends(l: Link, h: Header, clock: seq<int>, now: int)
    requires |clock| == 32 && l.localLarge + 1 < TWO_64
    ensures var next := ServerLink.ServerStep(l, h, clock, now);
            && next.localLarge == l.localLarge + 1
            && next.sent == ServerLink.Unacknowledged(Marks(l, h, clock)) + [PacketInfo(l.localLarge + 1, false, now, 0, 0)]
  {
    NextNumber(l.localLarge);
  }

  lemma {:induction false} ServerKeeps(server: Link, n: nat, h: Header, clock: seq<int>, now: int, acked: set<nat>)
    requires |clock| == 32 && Storing(server, acked) && Keeps(server, n) && n < 65734 && (n >= 65715 ==> h.ack == 60000)
    ensures Keeps(ServerLink.ServerStep(server, h, clock, now), n + 1)
  {
    ServerSends(server, h, clock, now);
    SplitKeeps(Marks(server, h, clock), server.sent, n, 65715, now);
    if n >= 65715 {
      NotMarked(server, n, h, clock, acked);
    }
  }

  // ---------- the client ----------

  /** The client has sent n packets; the rest is what it has heard. */
  ghost predicate Hears(client: Link, n: nat, large: uint64, small: uint16, received: seq<uint64>) {
    client.localLarge == n && ClientLink.Heard(client, large, small, received)
  }

  lemma {:induction false} ClientSends(client: Link, n: nat, large: uint64, small: uint16, received: seq<uint64>, now: int)
    requires Hears(client, n, large, small, received) && n + 1 < TWO_64
    ensures Hears(Depart(client, now), n + 1, large, small, received) && ClientLink.NextHeader(client).ack == small
  {
    NextNumber(n);
  }

  lemma {:induction false} ClientHears(client: Link, n: nat, large: uint64, small: uint16, received: seq<uint64>,
                                       h: Header, clock: seq<int>)
    requires Hears(client, n, large, small, received) && |clock| == 32
    requires SequenceNumberDiff(small, h.seqNum) > 0 && large + TWO_16 < TWO_64 && |received| < ClientLink.MAX_RECEIVED
    ensures var d := SequenceNumberDiff(small, h.seqNum);
            Hears(ClientLink.ClientReceive(client, h, clock), n, large + d, h.seqNum, received + [large + d])
  {
    ClientLink.ReceiveCounts(client, h, clock);
    ClientNumber(client, h, clock);
  }

  // ---------- the rounds ----------

  ghost predicate At(s: System, n: nat, large: uint64, small: uint16, received: seq<uint64>, got: set<nat>) {
    Resting(s) && s.clientGot == got && Hears(s.client, n, large, small, received) && Keeps(s.server, n)
  }

  lemma {:induction false} LostRound(s: System, n: nat, large: uint64, small: uint16, received: seq<uint64>, got: set<nat>,
                                     k: nat, clock: seq<int>, now: int) returns (next: System)
    requires Reached(s, k) && k < MAX_EVENTS && At(s, n, large, small, received, got) && |clock| == 32
    requires n < 65734 && (n >= 65715 ==> small == 60000)
    ensures Reached(next, k + 3) && At(next, n + 1, large, small, received, got)
  {
    ReachedStores(s, k);
    LostRoundReached(s, k, clock, now);
    UnheardIs(s, clock, now);
    ClientSends(s.client, n, large, small, received, now);
    ServerKeeps(s.server, n, ClientLink.NextHeader(s.client), clock, now, s.serverAcked);
    next := Unheard(s, clock, now);
  }

  lemma {:induction false} LostRounds(s: System, n: nat, m: nat, large: uint64, small: uint16, received: seq<uint64>,
                                      got: set<nat>,
                                      k: nat, clock: seq<int>, now: int) returns (next: System)
    requires Reached(s, k) && At(s, n, large, small, received, got) && |clock| == 32
    requires n <= m <= 65734 && k + 3 * (m - n) < MAX_EVENTS && (m > 65715 ==> small == 60000)
    ensures Reached(next, k + 3 * (m - n)) && At(next, m, large, small, received, got)
    decreases m - n
  {
    if n == m {
      next := s;
    } else {
      var one := LostRound(s, n, large, small, received, got, k, clock, now);
      next := LostRounds(one, n + 1, m, large, small, received, got, k + 3, clock, now);
    }
  }

  lemma {:induction false} ReplyNumber(server: Link, n: nat, seqNum: uint16)
    requires server.localLarge == n && n + 1 < TWO_64
    ensures ServerLink.Reply(server, seqNum).seqNum == Small(n + 1)
  {
    NextNumber(n);
  }

  lemma {:induction false} ClientRound(client: Link, n: nat, large: uint64, small: uint16, received: seq<uint64>,
                                       reply: Header, d: uint16,
                                       clock: seq<int>, now: int)
    requires Hears(client, n, large, small, received) && |clock| == 32 && n + 1 < TWO_64
    requires SequenceNumberDiff(small, reply.seqNum) == d > 0 && large + TWO_16 < TWO_64 && |received| < ClientLink.MAX_RECEIVED
    ensures Hears(ClientLink.ClientReceive(Depart(client, now), reply, clock), n + 1, large + d, reply.seqNum, received + [large + d])
  {
    ClientSends(client, n, large, small, received, now);
    ClientHears(Depart(client, now), n + 1, large, small, received, reply, clock);
  }

  lemma {:induction false} HeardRound(s: System, n: nat, large: uint64, small: uint16, received: seq<uint64>,
                                      got: set<nat>, d: uint16,
                                      k: nat, clock: seq<int>, now: int) returns (next: System)
    requires Reached(s, k) && k < MAX_EVENTS && At(s, n, large, small, received, got) && |clock| == 32
    requires n < 65734 && (n >= 65715 ==> small == 60000)
    requires SequenceNumberDiff(small, Small(n + 1)) == d > 0 && large + TWO_16 < TWO_64 && |received| < ClientLink.MAX_RECEIVED
    ensures Reached(next, k + 3) && At(next, n + 1, large + d, Small(n + 1), received + [large + d], got + {n + 1})
  {
    var h := ClientLink.NextHeader(s.client);
    var reply := ServerLink.Reply(s.server, h.seqNum);
    ReachedStores(s, k);
    next := HeardRoundReached(s, k, clock, now);
    ReplyNumber(s.server, n, h.seqNum);
    ClientRound(s.client, n, large, small, received, reply, d, clock, now);
    ServerRound(s, n, small, clock, now);
  }

  lemma {:induction false} ServerRound(s: System, n: nat, small: uint16, clock: seq<int>, now: int)
    requires Counting(s) && Keeps(s.server, n) && |clock| == 32 && s.client.remoteSmall == small
    requires n < 65734 && (n >= 65715 ==> small == 60000)
    ensures Keeps(ServerLink.ServerStep(s.server, ClientLink.NextHeader(s.client), clock, now), n + 1)
  {
    ServerKeeps(s.server, n, ClientLink.NextHeader(s.client), clock, now, s.serverAcked);
  }

  /** All replies up to the m-th are lost, and that one comes in. */
  lemma {:induction false} HearsNext(s: System, n: nat, m: nat, large: uint64, small: uint16, received: seq<uint64>,
                                     got: set<nat>,
                                     d: uint16, k: nat, clock: seq<int>, now: int) returns (next: System)
    requires Reached(s, k) && At(s, n, large, small, received, got) && |clock| == 32
    requires n < m <= 65734 && k + 3 * (m - n) < MAX_EVENTS && (m > 65715 ==> small == 60000)
    requires SequenceNumberDiff(small, Small(m)) == d > 0 && large + TWO_16 < TWO_64 && |received| < ClientLink.MAX_RECEIVED
    ensures Reached(next, k + 3 * (m - n)) && At(next, m, large + d, Small(m), received + [large + d], got + {m})
  {
    var before := LostRounds(s, n, m - 1, large, small, received, got, k, clock, now);
    next := HeardRound(before, m - 1, large, small, received, got, d, k + 3 * (m - 1 - n), clock, now);
  }

  lemma {:induction false} StartsHere()
    ensures Reached(START, 0) && At(START, 0, 0, 0, [], {})
  {
    StartIsReached();
  }

  /** Replies 180, 30000, 60000 and 65734 come in, and the client's numbers are 65735 and 199. */
  lemma {:induction false} HearsFour(clock: seq<int>, now: int) returns (s: System)
    requires |clock| == 32
    ensures Reached(s, 3 * 65734)
    ensures At(s, 65734, 65735, 199, [] + [180] + [30000] + [60000] + [65735], {} + {180} + {30000} + {60000} + {65734})
  {
    ClientLink.DriftingNumbers();
    StartsHere();
    var a := HearsNext(START, 0, 180, 0, 0, [], {}, 180, 0, clock, now);
    var b := HearsNext(a, 180, 30000, 180, 180, [] + [180], {} + {180}, 29820, 3 * 180, clock, now);
    var c := HearsNext(b, 30000, 60000, 30000, 30000, [] + [180] + [30000], {} + {180} + {30000}, 30000, 3 * 30000, clock, now);
    s := HearsNext(c, 60000, 65734, 60000, 60000, [] + [180] + [30000] + [60000], {} + {180} + {30000} + {60000}, 5735, 3 * 60000, clock, now);
  }

  /** Bit 13 of a header that is taken for packet 65734 speaks of packet 65715. */
  lemma {:induction false} DriftMarks(server: Link, h: Header, clock: seq<int>, acked: set<nat>)
    requires |clock| == 32 && Storing(server, acked) && Keeps(server, 65734) && h.ack == 199 && Bit(h.ackBits, 13)
    ensures 65715 in AckedNums(Marks(server, h, clock))
  {
    ClientLink.DriftingNumbers();
    NewestBitMarks(server, h, clock, 13);
  }

  lemma {:induction false} DriftedHeader(client: Link, received: seq<uint64>)
    requires Hears(client, 65734, 65735, 199, received) && received == [] + [180] + [30000] + [60000] + [65735]
    ensures ClientLink.NextHeader(client).ack == 199 && Bit(ClientLink.NextHeader(client).ackBits, 13)
  {
    ClientLink.DriftedListIsCountable();
    assert received[0] == 180;
    ClientLink.DriftedField(client, received);
  }

  lemma {:induction false} DriftedRound(s: System, clock: seq<int>)
    requires |clock| == 32 && Counting(s) && Keeps(s.server, 65734)
    requires Hears(s.client, 65734, 65735, 199, [] + [180] + [30000] + [60000] + [65735])
    ensures 65715 in AckedNums(Marks(s.server, ClientLink.NextHeader(s.client), clock))
  {
    DriftedHeader(s.client, [] + [180] + [30000] + [60000] + [65735]);
    DriftMarks(s.server, ClientLink.NextHeader(s.client), clock, s.serverAcked);
  }

  /** The client's next packet reaches the server. */
  lemma {:induction false} DriftEnds(clock: seq<int>, now: int) returns (last: System)
    requires |clock| == 32
    ensures Reached(last, 3 * 65734 + 2) && 65715 in last.serverAcked
    ensures last.clientGot == {} + {180} + {30000} + {60000} + {65734}
  {
    var k: nat := 3 * 65734;
    var s := HearsFour(clock, now);
    ReachedStores(s, k);
    DriftedRound(s, clock);
    last := HalfRoundReached(s, k, clock, now);
  }

  /**
   From the start, in order and with losses only: the server marks reply 65715, although the
   client has received 180, 30000, 60000 and 65734 and nothing else.
   */
  lemma {:induction false} DriftMisleads(clock: seq<int>, now: int) returns (states: seq<System>, actions: seq<Action>)
    requires |clock| == 32
    ensures IsRun(states, actions) && OrderKept(actions)
    ensures var last := states[|actions|];
            last.clientGot == {180, 30000, 60000, 65734} && 65715 in last.serverAcked
  {
    var last := DriftEnds(clock, now);
    states, actions := RunTo(last, 3 * 65734 + 2);
  }
}
