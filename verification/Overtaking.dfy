/**
 A channel that does not keep its order: what the reply to the first overtaken packet
 claims, the condition under which that is still true, and a run that goes wrong from every
 quiet state. What further replies say is given by Marking, over the counts of all arrivals.
 */
module Overtaking {
  import opened Bits
  import opened SequenceNumbers
  import opened AckBits
  import opened Channels
  import opened Links
  import opened Exchange
  import opened Reliability
  import ServerLink

  predicate Claimed(h: Header, n: uint64) {
    Claims(h.ack, Flags(h.ackBits), n)
  }

  // ---------- what the reply claims ----------

  /** How far apart the receiver's new count and the wire number are after an overtaken packet. */
  function Offset(newest: uint16, m: uint16): nat
    requires m < newest
  {
    newest - m + SequenceNumberDiff(newest, m)
  }

  /** What the reply to packet m claims of packet n when the newest packet was received before. */
  predicate Shifted(got: set<nat>, newest: uint16, m: uint16, n: nat)
    requires m < newest
  {
    n == m || (n < m < n + 32 && n + Offset(newest, m) in got)
  }

  lemma {:induction false} OvertakenArrival(l: Link, m: uint16)
    requires l.remoteLarge == l.remoteSmall < SEQUENCE_NUMBER_MAX && m < l.remoteSmall
    ensures Offset(l.remoteSmall, m) > l.remoteSmall - m
    ensures var n := m + Offset(l.remoteSmall, m);
            Arrive(l, m) == l.(remoteLarge := n, remoteSmall := m, received := l.received + [n])
  {
    DiffMeaning(l.remoteSmall, m);
    ArriveAdds(l, m);
  }

  /** The list with a new top, trimmed: what is still in it of the window before the top. */
  lemma {:induction false} ToppedList(newest: uint64, received: seq<uint64>, got: set<nat>, top: uint64, k: nat)
    requires Inbox(newest, received, got) && newest < top && 1 <= k < 32 && k < top
    ensures var list := Newest(received + [top], ServerLink.MAX_RECEIVED);
            && Ascending(list) && list != [] && list[|list| - 1] == top
            && (top - k in list <==> top - k in got)
  {
    var all := received + [top];
    RisingAppend(received, top);
    RisingIsAscending(all);
    NewestKeepsWindow(all, ServerLink.MAX_RECEIVED, top - k);
  }

  /** Counting down by less than 32 from the top does not pass zero. */
  lemma {:induction false} WindowBit(list: seq<uint64>, top: uint64, k: nat)
    requires 1 <= k < 32 && k < top && Ascending(list) && list != []
    ensures Bit(AckField(list, top), 32 - k) <==> top - k in list
  {
    AckFieldMeaning(list, top, 32 - k);
  }

  lemma {:induction false} ToppedField(newest: uint64, received: seq<uint64>, got: set<nat>, top: uint64, k: nat)
    requires Inbox(newest, received, got) && newest < top && 1 <= k < 32 && k < top
    ensures Bit(AckField(Newest(received + [top], ServerLink.MAX_RECEIVED), top), 32 - k) <==> top - k in got
  {
    var list := Newest(received + [top], ServerLink.MAX_RECEIVED);
    ToppedList(newest, received, got, top, k);
    WindowBit(list, top, k);
  }

  lemma {:induction false} ReplyIs(l: Link, m: uint16)
    ensures var a, h := Arrive(l, m), ServerLink.Reply(l, m);
            h.ack == a.remoteSmall && h.ackBits == AckField(Newest(a.received, ServerLink.MAX_RECEIVED), a.remoteLarge)
  {
  }

  lemma {:induction false} OvertakenReplyIs(l: Link, m: uint16)
    requires l.remoteLarge == l.remoteSmall < SEQUENCE_NUMBER_MAX && m < l.remoteSmall
    ensures var top, h := m + Offset(l.remoteSmall, m), ServerLink.Reply(l, m);
            && l.remoteLarge < top < TWO_64 && h.ack == m
            && h.ackBits == AckField(Newest(l.received + [top], ServerLink.MAX_RECEIVED), top)
  {
    var a, top := Arrive(l, m), m + Offset(l.remoteSmall, m);
    OvertakenArrival(l, m);
    assert a.remoteLarge == top && a.remoteSmall == m && a.received == l.received + [top];
    ReplyIs(l, m);
  }

  /** A header that acknowledges m with the field for top claims what lies as far before top. */
  lemma {:induction false} ToppedClaims(h: Header, newest: uint64, received: seq<uint64>, got: set<nat>, top: uint64,
                                        n: uint64)
    requires Inbox(newest, received, got) && h.ack <= newest < top && 1 <= n
    requires h.ackBits == AckField(Newest(received + [top], ServerLink.MAX_RECEIVED), top)
    ensures Claimed(h, n) <==> n == h.ack || (n < h.ack < n + 32 && n + (top - h.ack) in got)
  {
    if n < h.ack < n + 32 {
      var k := h.ack - n;
      ToppedField(newest, received, got, top, k);
      assert Flags(h.ackBits)[32 - k] == Bit(h.ackBits, 32 - k);
    }
  }

  lemma {:induction false} OvertakenClaims(h: Header, l: Link, got: set<nat>, top: uint64, n: uint64)
    requires Receiving(l, got) && 1 <= h.ack < l.remoteSmall && 1 <= n
    requires top == h.ack + Offset(l.remoteSmall, h.ack) && l.remoteLarge < top
    requires h.ackBits == AckField(Newest(l.received + [top], ServerLink.MAX_RECEIVED), top)
    ensures Claimed(h, n) <==> Shifted(got, l.remoteSmall, h.ack, n)
  {
    ToppedClaims(h, l.remoteLarge, l.received, got, top, n);
  }

  /**
   The reply to an overtaken packet m claims m, and of every earlier packet in its window
   not whether that one was received, but whether the one a fixed distance later was.
   */
  lemma {:induction false} OvertakenReplyClaims(l: Link, got: set<nat>, m: uint16, n: uint64)
    requires Receiving(l, got) && 1 <= m < l.remoteSmall && 1 <= n
    ensures var h := ServerLink.Reply(l, m);
            h.ack == m && (Claimed(h, n) <==> Shifted(got, l.remoteSmall, m, n))
  {
    OvertakenReplyIs(l, m);
    OvertakenClaims(ServerLink.Reply(l, m), l, got, m + Offset(l.remoteSmall, m), n);
  }

  /** Everything received at the fixed distance after the window was received in it, too. */
  ghost predicate Harmless(got: set<nat>, newest: uint16, m: uint16)
    requires m < newest
  {
    forall n: uint64 :: 1 <= n < m < n + 32 && n + Offset(newest, m) in got ==> n in got
  }

  /** The reply to an overtaken packet tells the truth exactly under that condition. */
  lemma {:induction false} OvertakenReplyIsTrueIff(l: Link, got: set<nat>, m: uint16)
    requires Receiving(l, got) && 1 <= m < l.remoteSmall
    ensures (forall n: uint64 :: 1 <= n && Claimed(ServerLink.Reply(l, m), n) ==> n in got + {m})
            <==> Harmless(got, l.remoteSmall, m)
  {
    var h := ServerLink.Reply(l, m);
    forall n: uint64 | 1 <= n ensures Claimed(h, n) <==> Shifted(got, l.remoteSmall, m, n) {
      OvertakenReplyClaims(l, got, m, n);
    }
    TrueIffHarmless(h, got, l.remoteSmall, m);
  }

  lemma {:induction false} TrueIffHarmless(h: Header, got: set<nat>, newest: uint16, m: uint16)
    requires 1 <= m < newest && forall n: uint64 :: 1 <= n ==> (Claimed(h, n) <==> Shifted(got, newest, m, n))
    ensures (forall n: uint64 :: 1 <= n && Claimed(h, n) ==> n in got + {m}) <==> Harmless(got, newest, m)
  {
    if forall n: uint64 :: 1 <= n && Claimed(h, n) ==> n in got + {m} {
      forall n: uint64 | 1 <= n < m < n + 32 && n + Offset(newest, m) in got ensures n in got {
        assert Claimed(h, n);
      }
    }
  }

  /** A client that gets the reply in time marks exactly what it claims. */
  lemma {:induction false} OvertakenReplyMarks(server: Link, got: set<nat>, client: Link, clock: seq<int>, m: uint16,
                                               n: uint64)
    requires Receiving(server, got) && 1 <= m < server.remoteSmall && 1 <= n && |clock| == 32
    requires client.localLarge == client.localSmall < SEQUENCE_NUMBER_MAX && Outbox(client.sent, client.localLarge)
    requires m <= client.localLarge <= m + SEQUENCE_NUMBER_HALF
    ensures n in AckedNums(Marks(client, ServerLink.Reply(server, m), clock)) <==>
            n in AckedNums(client.sent) || (n in Nums(client.sent) && Shifted(got, server.remoteSmall, m, n))
  {
    var h := ServerLink.Reply(server, m);
    OvertakenReplyClaims(server, got, m, n);
    MarksInTime(client, h, clock, n);
  }

  // ---------- a run that goes wrong ----------

  /** What holds of the client and its channel after it has sent some packets. */
  ghost predicate HasSent(s0: System, s: System, count: nat) {
    && s == s0.(client := s.client, toServer := s.toServer)
    && s.client.localLarge == s0.client.localLarge + count && s.client.remoteLarge == s0.client.remoteLarge
    && Sending(s.client, s.clientAcked) && Receiving(s.client, s.clientGot)
    && |s.toServer| == count && forall i: nat :: i < count ==> SentAt(s0, s, i)
  }

  predicate SentAt(s0: System, s: System, i: nat) {
    && i < |s.toServer| && IsSent(s.toServer[i], s0.client.localLarge + 1 + i, s0.client.remoteLarge)
    && s0.client.localLarge + 1 + i in Nums(s.client.sent)
  }

  predicate IsSent(p: Packet, number: nat, ack: nat) {
    p.number == p.header.seqNum == number && p.header.ack == ack
  }

  lemma {:induction false} SendsOneMore(s0: System, s: System, count: nat, now: int)
    requires HasSent(s0, s, count) && s.client.localLarge + 1 < SEQUENCE_NUMBER_MAX
    ensures HasSent(s0, Step(s, ClientSends(now)), count + 1)
  {
    SendsNext(s, now);
    var next := Step(s, ClientSends(now));
    assert next == s0.(client := next.client, toServer := next.toServer);
    forall i: nat | i < count + 1 ensures SentAt(s0, next, i) {
      assert i < count ==> SentAt(s0, s, i);
    }
  }

  /** The client has sent up to packet n + 3 and still stores packet n + 1. */
  ghost predicate Holds(client: Link, n: nat) {
    client.localLarge == client.localSmall == n + 3 < SEQUENCE_NUMBER_MAX && Outbox(client.sent, n + 3) && n + 1 in Nums(client.sent)
  }

  /** The first of three packets is lost, and the third has overtaken the second. */
  ghost predicate HasOvertaken(s0: System, s: System) {
    var n := s0.client.localLarge;
    && s == s0.(client := s.client, toServer := s.toServer) && |s.toServer| == 2 && Holds(s.client, n)
    && IsSent(s.toServer[0], n + 3, s0.client.remoteLarge) && IsSent(s.toServer[1], n + 2, s0.client.remoteLarge)
  }

  lemma {:induction false} LosesAndSwaps(s0: System, s: System)
    requires HasSent(s0, s, 3)
    ensures var lost := Step(s, LoseToServer(0));
            Possible(lost, SwapToServer(0)) && HasOvertaken(s0, Step(lost, SwapToServer(0)))
  {
    assert s.toServer[0..3] == s.toServer;
    assert Without(s.toServer, 0) == [s.toServer[1], s.toServer[2]];
    assert Swapped([s.toServer[1], s.toServer[2]], 0) == [s.toServer[2], s.toServer[1]];
    assert SentAt(s0, s, 0) && SentAt(s0, s, 1) && SentAt(s0, s, 2);
  }

  lemma {:induction false} ServerCounts(l: Link, h: Header, clock: seq<int>, now: int)
    requires |clock| == 32 && l.localLarge + 1 < TWO_64
    ensures ServerLink.ServerStep(l, h, clock, now).localLarge == l.localLarge + 1
  {
  }

  /** The server has taken the overtaking packet; the overtaken one is next. */
  ghost predicate TookOvertaking(s0: System, s: System) {
    var n := s0.client.localLarge;
    && Holds(s.client, n) && |s.toServer| == 1 && IsSent(s.toServer[0], n + 2, s0.client.remoteLarge) && |s.toClient| == 1
    && Receiving(s.server, s.serverGot) && s.server.remoteLarge == n + 3 && s.serverGot == s0.serverGot + {n + 3}
    && s.server.localLarge == s0.server.localLarge + 1
  }

  lemma {:induction false} TakesNext(s: System, clock: seq<int>, now: int)
    requires Possible(s, ServerReceives(false, clock, now))
    ensures var next, p := Step(s, ServerReceives(false, clock, now)), s.toServer[0];
            && next.server == ServerLink.ServerStep(s.server, p.header, clock, now) && next.toServer == s.toServer[1..]
            && next.client == s.client && next.serverGot == s.serverGot + {p.number}
            && next.toClient == s.toClient + [Packet(s.server.localLarge + 1, ServerLink.Reply(s.server, p.header.seqNum))]
  {
  }

  lemma {:induction false} AfterOvertaking(s0: System, s: System, next: System)
    requires Quiet(s0, 3, 2) && HasOvertaken(s0, s) && next.client == s.client && next.toServer == s.toServer[1..]
    requires |next.toClient| == 1 && next.serverGot == s0.serverGot + {s0.client.localLarge + 3}
    requires Receiving(next.server, next.serverGot) && next.server.remoteLarge == s0.client.localLarge + 3
    requires next.server.localLarge == s0.server.localLarge + 1
    ensures TookOvertaking(s0, next)
  {
    assert s.toServer[1..] == [s.toServer[1]];
  }

  lemma {:induction false} CanTakeOvertaking(s0: System, s: System, clock: seq<int>, now: int)
    requires Quiet(s0, 3, 2) && HasOvertaken(s0, s) && |clock| == 32
    ensures Possible(s, ServerReceives(false, clock, now)) && Arriving(s.server, s.toServer[0])
  {
  }

  lemma {:induction false} TakesOvertaking(s0: System, s: System, clock: seq<int>, now: int)
    requires Quiet(s0, 3, 2) && HasOvertaken(s0, s) && |clock| == 32
    ensures Possible(s, ServerReceives(false, clock, now)) && TookOvertaking(s0, Step(s, ServerReceives(false, clock, now)))
  {
    var p := s.toServer[0];
    CanTakeOvertaking(s0, s, clock, now);
    TakesNext(s, clock, now);
    ServerKeepsReceiving(s.server, p, clock, now, s.serverGot);
    ServerCounts(s.server, p.header, clock, now);
    AfterOvertaking(s0, s, Step(s, ServerReceives(false, clock, now)));
  }

  /** The reply to the overtaken packet is on its way, and makes the client mark the lost one. */
  ghost predicate TookOvertaken(s0: System, s: System, clock: seq<int>)
    requires |clock| == 32
  {
    var n := s0.client.localLarge;
    && |s.toClient| == 2 && s.serverGot == s0.serverGot + {n + 3} + {n + 2}
    && n + 1 in AckedNums(Marks(s.client, s.toClient[1].header, clock))
  }

  lemma {:induction false} ShiftedByTwo(got: set<nat>, m: uint16)
    requires 2 <= m && m + 1 < SEQUENCE_NUMBER_MAX && m + 1 in got
    ensures Shifted(got, m + 1, m, m - 1)
  {
    assert Offset(m + 1, m) == 2;
  }

  /** The reply to a packet that was overtaken by the next one claims the one before it. */
  lemma {:induction false} FalseReply(server: Link, got: set<nat>, m: uint16)
    requires Receiving(server, got) && 2 <= m && server.remoteLarge == m + 1 && m + 1 in got
    ensures ServerLink.Reply(server, m).ack == m && Claimed(ServerLink.Reply(server, m), m - 1)
  {
    ShiftedByTwo(got, m);
    OvertakenReplyClaims(server, got, m, m - 1);
  }

  lemma {:induction false} FalseReplyMarks(client: Link, h: Header, n: nat, clock: seq<int>)
    requires |clock| == 32 && Holds(client, n) && h.ack == n + 2 && Claimed(h, n + 1)
    ensures n + 1 in AckedNums(Marks(client, h, clock))
  {
    MarksInTime(client, h, clock, n + 1);
  }

  lemma {:induction false} RepliesFalsely(s: System, m: uint16, clock: seq<int>, now: int)
    requires Possible(s, ServerReceives(false, clock, now)) && IsSent(s.toServer[0], m, s.toServer[0].header.ack)
    requires 2 <= m && Receiving(s.server, s.serverGot) && s.server.remoteLarge == m + 1 && m + 1 in s.serverGot
    ensures var next, h := Step(s, ServerReceives(false, clock, now)), ServerLink.Reply(s.server, m);
            && next.client == s.client && next.serverGot == s.serverGot + {m}
            && next.toClient == s.toClient + [Packet(s.server.localLarge + 1, h)] && h.ack == m && Claimed(h, m - 1)
  {
    TakesNext(s, clock, now);
    FalseReply(s.server, s.serverGot, m);
  }

  lemma {:induction false} CanTakeOvertaken(s0: System, s: System, clock: seq<int>, now: int)
    requires Quiet(s0, 3, 2) && TookOvertaking(s0, s) && |clock| == 32
    ensures Possible(s, ServerReceives(false, clock, now))
  {
  }

  lemma {:induction false} TakesOvertaken(s0: System, s: System, clock: seq<int>, now: int)
    requires Quiet(s0, 3, 2) && TookOvertaking(s0, s) && |clock| == 32
    ensures Possible(s, ServerReceives(false, clock, now)) && TookOvertaken(s0, Step(s, ServerReceives(false, clock, now)), clock)
  {
    var m: uint16 := s0.client.localLarge + 2;
    CanTakeOvertaken(s0, s, clock, now);
    RepliesFalsely(s, m, clock, now);
    AfterFalseReply(s0, s, Step(s, ServerReceives(false, clock, now)), ServerLink.Reply(s.server, m), clock);
  }

  lemma {:induction false} AfterFalseReply(s0: System, s: System, next: System, h: Header, clock: seq<int>)
    requires TookOvertaking(s0, s) && |clock| == 32
    requires next.client == s.client && next.serverGot == s.serverGot + {s0.client.localLarge + 2}
    requires next.toClient == s.toClient + [Packet(s.server.localLarge + 1, h)]
    requires h.ack == s0.client.localLarge + 2 && Claimed(h, s0.client.localLarge + 1)
    ensures TookOvertaken(s0, next, clock)
  {
    FalseReplyMarks(s.client, h, s0.client.localLarge, clock);
    assert next.toClient[1].header == h;
  }

  /** That reply is next. */
  ghost predicate Deceived(s0: System, s: System, clock: seq<int>)
    requires |clock| == 32
  {
    var n := s0.client.localLarge;
    && |s.toClient| == 1 && s.serverGot == s0.serverGot + {n + 3} + {n + 2}
    && n + 1 in AckedNums(Marks(s.client, s.toClient[0].header, clock))
  }

  lemma {:induction false} LosesFirstReply(s0: System, s: System, clock: seq<int>)
    requires |clock| == 32 && TookOvertaken(s0, s, clock)
    ensures Deceived(s0, Step(s, LoseToClient(0)), clock)
  {
    assert Step(s, LoseToClient(0)).toClient == [s.toClient[1]];
  }

  /** The client takes it, and marks the lost packet. */
  lemma {:induction false} TakesFalseReply(s0: System, s: System, clock: seq<int>)
    requires |clock| == 32 && Deceived(s0, s, clock)
    ensures var next, n := Step(s, ClientReceives(false, clock)), s0.client.localLarge;
            n + 1 in next.clientAcked && next.serverGot == s0.serverGot + {n + 3} + {n + 2}
  {
  }

  /** Three packets are sent, the first is lost, and the third overtakes the second. */
  function ThreeSent(now: int): seq<Action> {
    [] + [ClientSends(now)] + [ClientSends(now)] + [ClientSends(now)]
    + [LoseToServer(0)] + [SwapToServer(0)]
  }

  /** The server takes both, its first reply is lost, and the client takes the second. */
  function Overtaking(clock: seq<int>, now: int): seq<Action> {
    ThreeSent(now)
    + [ServerReceives(false, clock, now)] + [ServerReceives(false, clock, now)]
    + [LoseToClient(0)] + [ClientReceives(false, clock)]
  }

  lemma {:induction false} RunSends(s0: System, states: seq<System>, actions: seq<Action>, count: nat, now: int)
    returns (run: seq<System>)
    requires Steps(states, actions) && HasSent(s0, states[|actions|], count)
    requires states[|actions|].client.localLarge + 1 < SEQUENCE_NUMBER_MAX
    ensures Steps(run, actions + [ClientSends(now)]) && states <= run && HasSent(s0, run[|actions| + 1], count + 1)
  {
    var s := states[|actions|];
    SendsOneMore(s0, s, count, now);
    StepsAppend(states, actions, ClientSends(now));
    run := states + [Step(s, ClientSends(now))];
  }

  lemma {:induction false} SendsThree(s: System, now: int) returns (run: seq<System>)
    requires Quiet(s, 3, 2)
    ensures Steps(run, [] + [ClientSends(now)] + [ClientSends(now)] + [ClientSends(now)])
    ensures run[0] == s && HasSent(s, run[3], 3)
  {
    assert HasSent(s, s, 0);
    var one := RunSends(s, [s], [], 0, now);
    var two := RunSends(s, one, [] + [ClientSends(now)], 1, now);
    run := RunSends(s, two, [] + [ClientSends(now)] + [ClientSends(now)], 2, now);
  }

  lemma {:induction false} Prepares(s: System, now: int) returns (run: seq<System>)
    requires Quiet(s, 3, 2)
    ensures Steps(run, ThreeSent(now)) && run[0] == s && HasOvertaken(s, run[5])
  {
    var sent := SendsThree(s, now);
    var actions := [] + [ClientSends(now)] + [ClientSends(now)] + [ClientSends(now)];
    LosesAndSwaps(s, sent[3]);
    var lost := Step(sent[3], LoseToServer(0));
    StepsAppend(sent, actions, LoseToServer(0));
    StepsAppend(sent + [lost], actions + [LoseToServer(0)], SwapToServer(0));
    run := sent + [lost] + [Step(lost, SwapToServer(0))];
  }

  lemma {:induction false} ServerTakesFirst(s0: System, states: seq<System>, actions: seq<Action>, clock: seq<int>, now: int)
    returns (run: seq<System>)
    requires Steps(states, actions) && Quiet(s0, 3, 2) && HasOvertaken(s0, states[|actions|]) && |clock| == 32
    ensures Steps(run, actions + [ServerReceives(false, clock, now)]) && states <= run
    ensures TookOvertaking(s0, run[|actions| + 1])
  {
    var s, take := states[|actions|], ServerReceives(false, clock, now);
    TakesOvertaking(s0, s, clock, now);
    StepsAppend(states, actions, take);
    run := states + [Step(s, take)];
  }

  lemma {:induction false} ServerTakesSecond(s0: System, states: seq<System>, actions: seq<Action>, clock: seq<int>, now: int)
    returns (run: seq<System>)
    requires Steps(states, actions) && Quiet(s0, 3, 2) && TookOvertaking(s0, states[|actions|]) && |clock| == 32
    ensures Steps(run, actions + [ServerReceives(false, clock, now)]) && states <= run
    ensures TookOvertaken(s0, run[|actions| + 1], clock)
  {
    var s, take := states[|actions|], ServerReceives(false, clock, now);
    TakesOvertaken(s0, s, clock, now);
    StepsAppend(states, actions, take);
    run := states + [Step(s, take)];
  }

  lemma {:induction false} FirstReplyIsLost(s0: System, states: seq<System>, actions: seq<Action>, clock: seq<int>)
    returns (run: seq<System>)
    requires Steps(states, actions) && |clock| == 32 && TookOvertaken(s0, states[|actions|], clock)
    ensures Steps(run, actions + [LoseToClient(0)]) && states <= run && Deceived(s0, run[|actions| + 1], clock)
  {
    LosesFirstReply(s0, states[|actions|], clock);
    StepsAppend(states, actions, LoseToClient(0));
    run := states + [Step(states[|actions|], LoseToClient(0))];
  }

  /** The first reply is lost, and the client takes the second. */
  lemma {:induction false} Concludes(s0: System, states: seq<System>, actions: seq<Action>, clock: seq<int>)
    returns (run: seq<System>)
    requires Steps(states, actions) && |clock| == 32 && TookOvertaken(s0, states[|actions|], clock)
    ensures Steps(run, actions + [LoseToClient(0)] + [ClientReceives(false, clock)]) && states <= run
    ensures var n, last := s0.client.localLarge, run[|actions| + 2];
            n + 1 in last.clientAcked && last.serverGot == s0.serverGot + {n + 3} + {n + 2}
  {
    var lost := FirstReplyIsLost(s0, states, actions, clock);
    TakesFalseReply(s0, lost[|actions| + 1], clock);
    StepsAppend(lost, actions + [LoseToClient(0)], ClientReceives(false, clock));
    run := lost + [Step(lost[|actions| + 1], ClientReceives(false, clock))];
  }

  lemma {:induction false} TakesAndConcludes(s0: System, states: seq<System>, actions: seq<Action>, clock: seq<int>, now: int)
    returns (run: seq<System>)
    requires Steps(states, actions) && Quiet(s0, 3, 2) && HasOvertaken(s0, states[|actions|]) && |clock| == 32
    ensures var take := ServerReceives(false, clock, now);
            Steps(run, actions + [take] + [take] + [LoseToClient(0)] + [ClientReceives(false, clock)])
    ensures states <= run
    ensures var n, last := s0.client.localLarge, run[|actions| + 4];
            n + 1 in last.clientAcked && last.serverGot == s0.serverGot + {n + 3} + {n + 2}
  {
    var take := ServerReceives(false, clock, now);
    var first := ServerTakesFirst(s0, states, actions, clock, now);
    var second := ServerTakesSecond(s0, first, actions + [take], clock, now);
    run := Concludes(s0, second, actions + [take] + [take], clock);
  }

  /** Nothing that the server has received is newer than the client's newest packet. */
  lemma {:induction false} NotReceivedYet(s: System, n: nat)
    requires Invariant(s) && n > s.client.localLarge
    ensures n !in s.serverGot
  {
  }

  /**
   Without order soundness fails from every quiet state: this run ends with a packet in
   clientAcked that the server never received.
   */
  lemma {:induction false} OvertakingMisleads(s: System, clock: seq<int>, now: int) returns (run: seq<System>)
    requires Quiet(s, 3, 2) && |clock| == 32
    ensures Steps(run, Overtaking(clock, now)) && run[0] == s
    ensures s.client.localLarge + 1 in run[9].clientAcked && s.client.localLarge + 1 !in run[9].serverGot
  {
    var prepared := Prepares(s, now);
    run := TakesAndConcludes(s, prepared, ThreeSent(now), clock, now);
    NotReceivedYet(s, s.client.localLarge + 1);
  }

  lemma {:induction false} StartIsQuiet()
    ensures Quiet(START, 3, 2)
  {
  }

  /** From the start: the client marks its packet 1, which the server never received. */
  lemma {:induction false} OvertakingMisleadsAtStart(clock: seq<int>, now: int) returns (run: seq<System>)
    requires |clock| == 32
    ensures Steps(run, Overtaking(clock, now)) && run[0] == START
    ensures 1 in run[9].clientAcked && 1 !in run[9].serverGot
  {
    StartIsQuiet();
    run := OvertakingMisleads(START, clock, now);
  }
}
