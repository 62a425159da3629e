/**
 Runs in order that end with a false acknowledgement because of a wrap of the wire number:
 an acknowledgement that crosses it, a window that spans it, and the client's numbers drifting
 apart behind it.
 */
module Misleading {
  import opened Bits
  import opened SequenceNumbers
  import opened AckBits
  import opened Links
  import opened Channels
  import opened Exchange
  import opened Marking
  import opened Reliability
  import opened Rounds
  import opened ServerLink
  import opened Wrapping
  import ClientLink

  // ---------- only the first reply is lost ----------

  /** All replies but the first, up to the n-th: what the client has received. */
  function Replies(n: nat): set<nat> {
    if n < 2 then {} else Replies(n - 1) + {n}
  }

  lemma {:induction false} RepliesAre(n: nat)
    ensures forall i :: i in Replies(n) <==> 2 <= i <= n
  {
    if n < 2 {
    } else {
      RepliesAre(n - 1);
    }
  }

  /** The client's packet number n + 1, sent when it has received the replies 2 to n. */
  ghost predicate Honest(e: Event, n: nat) {
    && |e.clock| == 32 && e.header.seqNum == Small(n + 1)
    && e.header.ack == (if n < 2 then 0 else n) && Accurate(e.header, Replies(n))
  }

  /** Each packet of the client answers the reply before; only the first reply is lost. */
  ghost predicate FirstReplyLost(events: seq<Event>) {
    events == [] || (FirstReplyLost(events[..|events| - 1]) && Honest(events[|events| - 1], |events| - 1))
  }

  /** What a truthful header claims. */
  lemma {:induction false} TruthfulClaims(h: Header, got: set<nat>, n: uint64)
    requires Accurate(h, got) && 1 <= n
    ensures Claims(h.ack, Flags(h.ackBits), n) <==> n in got && n <= h.ack < n + 32
  {
  }

  predicate Fresh(p: PacketInfo, n: nat) {
    p.seqNum == n && !p.acknowledged
  }

  /** What the server stores after n such packets: its replies 1 and n. */
  ghost predicate StoresFirstAndLast(sent: seq<PacketInfo>, n: nat) {
    if n == 0 then sent == []
    else if n == 1 then |sent| == 1 && Fresh(sent[0], 1)
    else |sent| == 2 && Fresh(sent[0], 1) && Fresh(sent[1], n)
  }

  lemma {:induction false} KeepsFirst(sent: seq<PacketInfo>, h: Header, clock: seq<int>)
    requires StoresFirstAndLast(sent, 1) && |clock| == 32 && h.ack == 0
    ensures Verified(sent, 0, h.ackBits, clock) == sent
  {
    VerifiedMeaning(sent, 0, h.ackBits, clock, 0);
    assert |SeqNums(Verified(sent, 0, h.ackBits, clock))| == 1;
  }

  /** Of two stored replies the last one is acknowledged, and the lost one is not. */
  lemma {:induction false} ConfirmsLast(sent: seq<PacketInfo>, n: uint16, h: Header, clock: seq<int>)
    requires 2 <= n && StoresFirstAndLast(sent, n) && |clock| == 32 && h.ack == n && Accurate(h, Replies(n))
    ensures var marks := Verified(sent, n, h.ackBits, clock);
            |marks| == 2 && marks[0] == sent[0] && marks[1].acknowledged
  {
    RepliesAre(n);
    TruthfulClaims(h, Replies(n), 1);
    TruthfulClaims(h, Replies(n), n);
    VerifiedMeaning(sent, n, h.ackBits, clock, 0);
    VerifiedMeaning(sent, n, h.ackBits, clock, 1);
    assert |SeqNums(Verified(sent, n, h.ackBits, clock))| == 2;
  }

  lemma {:induction false} RemovesLast(marks: seq<PacketInfo>, first: PacketInfo)
    requires !first.acknowledged
    ensures |marks| == 1 && marks[0] == first ==> Unacknowledged(marks) == [first]
    ensures |marks| == 2 && marks[0] == first && marks[1].acknowledged ==> Unacknowledged(marks) == [first]
  {
    if |marks| >= 1 && marks[0] == first {
      assert marks[..1] == [first] && [first][..0] == [];
      assert Unacknowledged([first]) == Unacknowledged([]) + [first];
    }
  }

  /** What is left of the stored replies when the next packet has been acknowledged. */
  lemma {:induction false} LeavesFirst(sent: seq<PacketInfo>, n: nat, h: Header, clock: seq<int>)
    requires n < SEQUENCE_NUMBER_MAX && |clock| == 32 && StoresFirstAndLast(sent, n)
    requires h.ack == (if n < 2 then 0 else n) && Accurate(h, Replies(n))
    ensures KeptFirst(Unacknowledged(Verified(sent, h.ack, h.ackBits, clock)), n)
  {
    if n == 1 {
      KeepsFirst(sent, h, clock);
      RemovesLast(sent, sent[0]);
    } else if n >= 2 {
      ConfirmsLast(sent, n, h, clock);
      RemovesLast(Verified(sent, n, h.ackBits, clock), sent[0]);
    }
  }

  predicate KeptFirst(left: seq<PacketInfo>, n: nat) {
    if n == 0 then left == [] else |left| == 1 && Fresh(left[0], 1)
  }

  lemma {:induction false} DepartAdds(left: seq<PacketInfo>, n: nat, now: int)
    requires KeptFirst(left, n) && n + 1 < TWO_64
    ensures StoresFirstAndLast(left + [PacketInfo(n + 1, false, now, 0, 0)], n + 1)
  {
  }

  lemma {:induction false} MarksBeforeWrap(l: Link, h: Header, clock: seq<int>)
    requires |clock| == 32 && l.localLarge == l.localSmall && h.ack <= l.localLarge < SEQUENCE_NUMBER_MAX && Near(l, h)
    ensures Marks(l, h, clock) == Verified(l.sent, h.ack, h.ackBits, clock)
  {
    TakenInTime(l.localSmall, h.ack);
  }

  lemma {:induction false} StepSends(l: Link, h: Header, clock: seq<int>, now: int)
    requires |clock| == 32 && l.localLarge + 1 < TWO_64
    ensures var next, n := ServerStep(l, h, clock, now), l.localLarge + 1;
            && next.localLarge == n && next.localSmall == Small(n)
            && next.sent == Unacknowledged(Marks(l, h, clock)) + [PacketInfo(n, false, now, 0, 0)]
  {
    assert Wrap64(l.localLarge + 1) == l.localLarge + 1;
  }

  ghost predicate Stores(l: Link, n: nat) {
    l.localLarge == n && l.localSmall == Small(n) && StoresFirstAndLast(l.sent, n)
  }

  lemma {:induction false} MarksLeaveFirst(l: Link, n: nat, e: Event)
    requires n < SEQUENCE_NUMBER_MAX && Honest(e, n) && Stores(l, n)
    ensures KeptFirst(Unacknowledged(Marks(l, e.header, e.clock)), n)
  {
    MarksBeforeWrap(l, e.header, e.clock);
    LeavesFirst(l.sent, n, e.header, e.clock);
  }

  lemma {:induction false} StepStores(l: Link, n: nat, e: Event)
    requires n < SEQUENCE_NUMBER_MAX && Honest(e, n) && Stores(l, n)
    ensures Stores(ServerStep(l, e.header, e.clock, e.now), n + 1)
  {
    StepSends(l, e.header, e.clock, e.now);
    MarksLeaveFirst(l, n, e);
    DepartAdds(Unacknowledged(Marks(l, e.header, e.clock)), n, e.now);
  }

  lemma {:induction false} RunStep(events: seq<Event>)
    requires Timed(events) && events != []
    ensures var init, e := Run(events[..|events| - 1]), events[|events| - 1];
            Run(events).link == ServerStep(init.link, e.header, e.clock, e.now)
  {
  }

  /** However long this goes on before the wrap, the server keeps its first reply. */
  lemma {:induction false} RunStores(events: seq<Event>)
    requires FirstReplyLost(events) && |events| <= SEQUENCE_NUMBER_MAX
    ensures Timed(events) && Stores(Run(events).link, |events|)
    decreases |events|
  {
    if events == [] {
    } else {
      var init, e := events[..|events| - 1], events[|events| - 1];
      RunStores(init);
      StepStores(Run(init).link, |init|, e);
      HonestIsTimed(events);
      RunStep(events);
    }
  }

  lemma {:induction false} HonestIsTimed(events: seq<Event>)
    requires FirstReplyLost(events)
    ensures Timed(events)
  {
    if events == [] {
    } else {
      HonestIsTimed(events[..|events| - 1]);
    }
  }

  /**
   After 65535 packets the server's number wraps. The next packet still acknowledges reply
   65534, truthfully, and the server takes that for its first reply: it retires a number
   that the client never received.
   */
  lemma {:induction false} LostReplyIsRetired(events: seq<Event>, e: Event)
    requires FirstReplyLost(events) && |events| == SEQUENCE_NUMBER_MAX
    requires |e.clock| == 32 && e.header.ack == 65534 && Accurate(e.header, Replies(65534))
    ensures Timed(events + [e]) && 1 in Run(events + [e]).retired && 1 !in Replies(65534)
  {
    RunStores(events);
    WrapMarksFirst(Run(events).link, e.header, e.clock);
    RepliesAre(65534);
    RunRetires(events, e);
  }

  lemma {:induction false} RunRetires(events: seq<Event>, e: Event)
    requires Timed(events) && |e.clock| == 32
    ensures Timed(events + [e])
    ensures AckedNums(Marks(Run(events).link, e.header, e.clock)) <= Run(events + [e]).retired
  {
    assert (events + [e])[..|events|] == events;
  }

  lemma {:induction false} FirstAndLastOutbox(sent: seq<PacketInfo>, n: nat)
    requires 2 <= n && StoresFirstAndLast(sent, n)
    ensures Outbox(sent, n) && 1 in Nums(sent)
  {
    assert sent == ([] + [sent[0]]) + [sent[1]];
    AppendPacket([], sent[0]);
    AppendPacket([] + [sent[0]], sent[1]);
  }

  lemma {:induction false} WrapMarksFirst(l: Link, h: Header, clock: seq<int>)
    requires |clock| == 32 && Stores(l, 65535) && h.ack == 65534 && Accurate(h, Replies(65534))
    ensures 1 in AckedNums(Marks(l, h, clock))
  {
    RepliesAre(65534);
    FirstAndLastOutbox(l.sent, 65535);
    TruthfulMarksExactly(l, h, clock, 65534, Replies(65534), 1);
  }

  // ---------- the same in a run of both ends ----------

  /** Both ends have sent n packets, and of the replies up to the m-th only the first is lost. */
  ghost predicate Going(s: System, n: nat, m: nat) {
    Resting(s) && s.clientGot == Replies(m) && Hearing(s.client, n, m) && Stores(s.server, n)
  }

  ghost predicate Hearing(client: Link, n: nat, m: nat) {
    client.localLarge == n && client.remoteLarge == (if m < 2 then 0 else m) && Receiving(client, Replies(m))
  }

  /** What such a client says is true, and the whole of it. */
  lemma {:induction false} HearingHeader(client: Link, n: nat, m: nat)
    requires Hearing(client, n, m) && n + 1 < TWO_64
    ensures var h := ClientLink.NextHeader(client);
            h.seqNum == Small(n + 1) && h.ack == (if m < 2 then 0 else m) && Accurate(h, Replies(m))
  {
    NextHeaderParts(client);
    FieldIsAccurate(Small(n + 1), client.remoteSmall, client.received, Replies(m));
  }

  lemma {:induction false} HearingSends(client: Link, n: nat, m: nat, now: int)
    requires Hearing(client, n, m) && n + 1 < TWO_64
    ensures Hearing(Depart(client, now), n + 1, m)
  {
    DepartCounts(client, now);
  }

  /** The next reply comes in. */
  lemma {:induction false} HearingNext(client: Link, m: nat, reply: Header, clock: seq<int>)
    requires Hearing(client, m + 1, m) && 1 <= m && m + 1 < SEQUENCE_NUMBER_MAX && reply.seqNum == m + 1 && |clock| == 32
    ensures Hearing(ClientLink.ClientReceive(client, reply, clock), m + 1, m + 1)
  {
    ClientKeepsReceiving(client, Packet(m + 1, reply), clock, Replies(m));
    ClientNumber(client, reply, clock);
  }

  lemma {:induction false} ServerGoes(s: System, n: nat, clock: seq<int>, now: int)
    requires Hearing(s.client, n, n) && Stores(s.server, n) && n < SEQUENCE_NUMBER_MAX && |clock| == 32
    ensures Stores(ServerStep(s.server, ClientLink.NextHeader(s.client), clock, now), n + 1)
  {
    HearingHeader(s.client, n, n);
    StepStores(s.server, n, Event(ClientLink.NextHeader(s.client), clock, now));
  }

  /** A round whose reply is lost. */
  lemma {:induction false} LosesReply(s: System, n: nat, k: nat, clock: seq<int>, now: int) returns (next: System)
    requires Reached(s, k) && Going(s, n, n) && n < SEQUENCE_NUMBER_MAX && |clock| == 32
    ensures Reached(next, k + 3) && Going(next, n + 1, n)
  {
    LostRoundReached(s, k, clock, now);
    UnheardIs(s, clock, now);
    HearingSends(s.client, n, n, now);
    ServerGoes(s, n, clock, now);
    next := Unheard(s, clock, now);
  }

  lemma {:induction false} ReplyIsNext(server: Link, n: nat, seqNum: uint16)
    requires server.localLarge == n && n + 1 < SEQUENCE_NUMBER_MAX
    ensures Reply(server, seqNum).seqNum == n + 1
  {
    assert Wrap64(n + 1) == n + 1 == Small(n + 1);
  }

  /** A round whose reply comes in. */
  lemma {:induction false} HearsReply(s: System, n: nat, k: nat, clock: seq<int>, now: int) returns (next: System)
    requires Reached(s, k) && Going(s, n, n) && 1 <= n && n + 1 < SEQUENCE_NUMBER_MAX && |clock| == 32
    ensures Reached(next, k + 3) && Going(next, n + 1, n + 1)
  {
    var h := ClientLink.NextHeader(s.client);
    next := HeardRoundReached(s, k, clock, now);
    ReplyIsNext(s.server, n, h.seqNum);
    HearingSends(s.client, n, n, now);
    HearingNext(Depart(s.client, now), n, Reply(s.server, h.seqNum), clock);
    ServerGoes(s, n, clock, now);
  }

  lemma StartsGoing()
    ensures Reached(START, 0) && Going(START, 0, 0)
  {
    StartIsReached();
  }

  /** The first reply is lost, and all the others come in. */
  lemma {:induction false} GoesOn(n: nat, clock: seq<int>, now: int) returns (s: System)
    requires 1 <= n < SEQUENCE_NUMBER_MAX && |clock| == 32
    ensures Reached(s, 3 * n) && Going(s, n, n)
  {
    if n == 1 {
      StartsGoing();
      s := LosesReply(START, 0, 0, clock, now);
      assert Replies(1) == Replies(0);
    } else {
      var before := GoesOn(n - 1, clock, now);
      s := HearsReply(before, n - 1, 3 * (n - 1), clock, now);
    }
  }

  /**
   From the start and in order: of the first 65534 replies only the first is lost. When the
   next one is lost, too, the client acknowledges reply 65534 once more, and the server, whose
   number has wrapped, retires reply 1.
   */
  lemma {:induction false} WrapMisleads(clock: seq<int>, now: int) returns (states: seq<System>, actions: seq<Action>)
    requires |clock| == 32
    ensures IsRun(states, actions) && OrderKept(actions)
    ensures var last := states[|actions|];
            last.clientGot == Replies(65534) && 1 in last.serverAcked && 1 !in last.clientGot
  {
    var k: nat := 3 * 65534;
    var before := GoesOn(65534, clock, now);
    var s := LosesReply(before, 65534, k, clock, now);
    HearingHeader(s.client, 65535, 65534);
    WrapMarksFirst(s.server, ClientLink.NextHeader(s.client), clock);
    RepliesAre(65534);
    var last := HalfRoundReached(s, k + 3, clock, now);
    states, actions := RunTo(last, k + 5);
  }

  // ---------- a window that spans the wrap ----------

  /** The client has sent n packets, has heard nothing, and stores them all. */
  ghost predicate HasSent(client: Link, n: nat) {
    Deaf(client, n) && IsRange(Nums(client.sent), n) && AckedNums(client.sent) == {}
  }

  lemma {:induction false} SendsOn(client: Link, n: nat, now: int)
    requires HasSent(client, n) && n + 1 < TWO_64
    ensures HasSent(Depart(client, now), n + 1)
  {
    DeafSends(client, n, now);
    AppendPacket(client.sent, PacketInfo(n + 1, false, now, 0, 0));
  }

  /** One more packet is sent and lost. */
  lemma {:induction false} LosesOne(client: Link, k: nat, now: int)
    requires Reached(START.(client := client), k)
    ensures Reached(START.(client := Depart(client, now)), k + 2)
  {
    var s := START.(client := client);
    SentReached(s, k, now);
    ReachStep(Sent(s, now), k + 1, LoseToServer(0));
    assert Step(Sent(s, now), LoseToServer(0)) == START.(client := Depart(client, now));
  }

  lemma {:induction false} LosesAll(n: nat, now: int) returns (client: Link)
    requires n < SEQUENCE_NUMBER_MAX
    ensures Reached(START.(client := client), 2 * n) && HasSent(client, n)
  {
    if n == 0 {
      client := NEW_LINK;
      StartIsReached();
    } else {
      var before := LosesAll(n - 1, now);
      SendsOn(before, n - 1, now);
      LosesOne(before, 2 * (n - 1), now);
      client := Depart(before, now);
    }
  }

  /** Only packets 65534 and 65535 reach the server. */
  lemma {:induction false} OnlyTwo(e: Event)
    requires |e.clock| == 32 && e.header.seqNum == 65534
    ensures Answering([e], [65534, 65535]) && Small(65535) == 0
  {
    var stream: seq<nat> := [65534, 65535];
    BridgedAppend([], 65534);
    assert [] + [65534] == [65534];
    BridgedAppend([65534], 65535);
    assert stream == [65534] + [65535] && stream[..1] == [65534];
  }

  /** The answer to packet 65535 stands for packet 65533, not for 65534. */
  lemma {:induction false} SpanningAnswer(e: Event, client: Link, clock: seq<int>)
    requires |e.clock| == 32 && e.header.seqNum == 65534 && |clock| == 32
    requires HasSent(client, 65535) && client.localSmall == 0 && Outbox(client.sent, 65535)
    ensures Timed([e])
    ensures var marks := AckedNums(Marks(client, Reply(Run([e]).link, 0), clock));
            65533 in marks && 65534 !in marks
  {
    OnlyTwo(e);
    var stream: seq<nat> := [65534, 65535];
    AnswerMarksExactly([e], stream, client, clock, 65533);
    AnswerMarksExactly([e], stream, client, clock, 65534);
    assert Last(stream) == 65535 && Taken(65535, 65535) == 65535;
    assert Counted(stream, 65535, 65533) && !Counted(stream, 65535, 65534);
  }

  /** The server has taken the first of two packets, and its answer is lost. */
  ghost predicate TookFirst(s: System, client: Link, p: Packet, q: Packet, clock: seq<int>, now: int)
    requires |clock| == 32
  {
    && s == s.(client := client, toServer := [q], toClient := [], serverGot := {p.number}, clientAcked := {})
    && s.server == ServerStep(NEW_LINK, p.header, clock, now)
  }

  lemma {:induction false} TakesFirst(client: Link, p: Packet, q: Packet, clock: seq<int>, now: int) returns (taken: System)
    requires |clock| == 32
    ensures taken == Step(START.(client := client, toServer := [p, q]), ServerReceives(false, clock, now))
    ensures |taken.toClient| == 1 && TookFirst(taken.(toClient := []), client, p, q, clock, now)
  {
    var s := START.(client := client, toServer := [p, q]);
    taken := Step(s, ServerReceives(false, clock, now));
    ServerTakes(s, false, clock, now);
  }

  lemma {:induction false} FirstAnswerLost(client: Link, p: Packet, q: Packet, k: nat, clock: seq<int>, now: int)
    returns (s: System)
    requires Reached(START.(client := client, toServer := [p, q]), k) && |clock| == 32
    ensures Reached(s, k + 2) && TookFirst(s, client, p, q, clock, now)
  {
    var taken := TakesFirst(client, p, q, clock, now);
    ReachStep(START.(client := client, toServer := [p, q]), k, ServerReceives(false, clock, now));
    ReachStep(taken, k + 1, LoseToClient(0));
    s := taken.(toClient := []);
    assert Step(taken, LoseToClient(0)) == s;
  }

  /** The answer to the second packet reaches the client. */
  lemma {:induction false} SecondAnswer(s: System, client: Link, p: Packet, q: Packet, k: nat, clock: seq<int>, now: int)
    returns (last: System)
    requires |clock| == 32 && Reached(s, k) && TookFirst(s, client, p, q, clock, now)
    ensures Reached(last, k + 2) && last.serverGot == {p.number, q.number}
    ensures last.clientAcked == AckedNums(Marks(client, Reply(ServerStep(NEW_LINK, p.header, clock, now), q.header.seqNum), clock))
  {
    var took := Took(s, client, q, clock, now);
    TookReached(s, client, q, k, clock, now);
    ReachStep(took, k + 1, ClientReceives(false, clock));
    last := Delivered(took, clock);
  }

  lemma {:induction false} SendsOne(client: Link, n: nat, channel: seq<Packet>, k: nat, now: int) returns (next: Link)
    requires Reached(START.(client := client, toServer := channel), k) && HasSent(client, n) && n + 1 < TWO_64
    ensures HasSent(next, n + 1)
    ensures Reached(START.(client := next, toServer := channel + [Packet(n + 1, Header(Small(n + 1), 0, 0))]), k + 1)
  {
    SendsOn(client, n, now);
    DeafHeader(client, n);
    SentReached(START.(client := client, toServer := channel), k, now);
    next := Depart(client, now);
  }

  /** Two packets are sent after all the lost ones. */
  lemma {:induction false} SendsTwo(client: Link, k: nat, now: int) returns (last: Link)
    requires Reached(START.(client := client), k) && HasSent(client, 65533)
    ensures HasSent(last, 65535)
    ensures Reached(START.(client := last, toServer := [Packet(65534, Header(65534, 0, 0)), Packet(65535, Header(0, 0, 0))]), k + 2)
  {
    assert START.(client := client) == START.(client := client, toServer := []);
    var next := SendsOne(client, 65533, [], k, now);
    var p := Packet(65534, Header(65534, 0, 0));
    assert [] + [p] == [p];
    last := SendsOne(next, 65534, [p], k + 1, now);
    assert [p] + [Packet(65535, Header(0, 0, 0))] == [p, Packet(65535, Header(0, 0, 0))];
  }

  /**
   All packets before 65534 are lost, and the next two arrive in order. The answer to the
   second makes the client mark packet 65533, which never arrived, and not 65534, which did.
   */
  lemma {:induction false} WindowMisleads(clock: seq<int>, now: int) returns (states: seq<System>, actions: seq<Action>)
    requires |clock| == 32
    ensures IsRun(states, actions) && OrderKept(actions)
    ensures var last := states[|actions|];
            && last.serverGot == {65534, 65535}
            && 65533 in last.clientAcked && 65534 !in last.clientAcked
  {
    var k: nat := 2 * 65533;
    var client := LosesAll(65533, now);
    var sent := SendsTwo(client, k, now);
    var p, q := Packet(65534, Header(65534, 0, 0)), Packet(65535, Header(0, 0, 0));
    ReachedStores(START.(client := sent, toServer := [p, q]), k + 2);
    var first := FirstAnswerLost(sent, p, q, k + 2, clock, now);
    var last := SecondAnswer(first, sent, p, q, k + 4, clock, now);
    NewServer(p.header, clock, now);
    SpanningAnswer(Event(p.header, clock, now), sent, clock);
    states, actions := RunTo(last, k + 6);
  }

  lemma {:induction false} NewServer(h: Header, clock: seq<int>, now: int)
    requires |clock| == 32
    ensures Timed([Event(h, clock, now)]) && Run([Event(h, clock, now)]).link == ServerStep(NEW_LINK, h, clock, now)
  {
    var e := Event(h, clock, now);
    assert [e][..0] == [];
    assert Run([e]) == RecordStep(Run([]), e);
  }
}
