/**
 The exchange before the first wrap of the wire number, on channels that keep their order
 but may lose and repeat packets: every header then tells the truth, and what an end makes
 of it is given exactly, however late it comes.
 */
module Reliability {
  import opened Bits
  import opened SequenceNumbers
  import opened AckBits
  import opened Links
  import opened ServerLink
  import opened ClientLink
  import opened Channels
  import opened Exchange
  import opened Marking

  // ---------- the runs in question ----------

  /** The acknowledged packet lags the newest one sent by at most half the range. */
  predicate Near(l: Link, h: Header) {
    l.localLarge <= h.ack + SEQUENCE_NUMBER_HALF
  }

  /** No acknowledgement comes in too late. */
  ghost predicate PromptStep(s: System, a: Action)
    requires Possible(s, a)
  {
    match a
    case ServerReceives(_, _, _) => Near(s.server, s.toServer[0].header)
    case ClientReceives(_, _) => Near(s.client, s.toClient[0].header)
    case _ => true
  }

  ghost predicate Prompt(states: seq<System>, actions: seq<Action>)
    requires Steps(states, actions)
  {
    forall i :: 0 <= i < |actions| ==> PromptStep(states[i], actions[i])
  }

  // ---------- one end ----------

  /** The received list against everything that was received. */
  ghost predicate Inbox(newest: uint64, received: seq<uint64>, got: set<nat>) {
    && Rising(received)
    && (if received == [] then newest == 0 else received[|received| - 1] == newest)
    && (forall n :: n in received ==> n in got)
    && (forall n :: n in got ==> 1 <= n <= newest && (n + 32 >= newest ==> n in received))
  }

  ghost predicate Sending(l: Link, acked: set<nat>) {
    Storing(l, acked) && l.localLarge < SEQUENCE_NUMBER_MAX
  }

  ghost predicate Receiving(l: Link, got: set<nat>) {
    && l.remoteLarge == l.remoteSmall < SEQUENCE_NUMBER_MAX
    && Inbox(l.remoteLarge, l.received, got)
  }

  /** The header tells the truth about what its sender has received, and the whole of it. */
  ghost predicate Accurate(h: Header, got: set<nat>) {
    && (h.ack > 0 ==> h.ack in got)
    && Tells(h.ackBits, h.ack, got)
  }

  lemma {:induction false} NewestOfInbox(newest: uint64, received: seq<uint64>, got: set<nat>, cap: nat)
    requires Inbox(newest, received, got) && cap >= 33
    ensures Inbox(newest, Newest(received, cap), got)
  {
    if received != [] {
      RisingIsAscending(received);
      RisingIsAscending(Newest(received, cap));
      forall n: uint64 ensures Ascending(Newest(received, cap)) && (n in Newest(received, cap) ==> n in received)
          && (n in received && n + 32 >= newest ==> n in Newest(received, cap)) {
        NewestKeepsWindow(received, cap, n);
      }
    }
  }

  lemma {:induction false} InboxAppend(newest: uint64, received: seq<uint64>, got: set<nat>, n: uint64)
    requires Inbox(newest, received, got) && n > newest
    ensures Inbox(n, received + [n], got + {n})
  {
    RisingAppend(received, n);
  }

  lemma {:induction false} ArriveNewer(l: Link, n: uint16)
    requires l.remoteLarge == l.remoteSmall <= n < SEQUENCE_NUMBER_MAX
    ensures Arrive(l, n) == if n == l.remoteSmall then l
                            else l.(remoteLarge := n, remoteSmall := n, received := l.received + [n])
  {
    assert SequenceNumberDiff(l.remoteSmall, n) == n - l.remoteSmall;
    assert Wrap64(n) == n;
  }

  /** An arrival in order is recorded under its real number. */
  lemma {:induction false} ArriveInOrder(l: Link, got: set<nat>, n: uint16, cap: nat)
    requires l.remoteLarge == l.remoteSmall <= n && 1 <= n < SEQUENCE_NUMBER_MAX && cap >= 33
    requires Inbox(l.remoteLarge, l.received, got)
    ensures var a := Arrive(l, n);
            && a.remoteLarge == a.remoteSmall == n && Inbox(n, Newest(a.received, cap), got + {n})
  {
    ArriveNewer(l, n);
    RecordInOrder(l.remoteLarge, l.received, got, n, cap);
  }

  lemma {:induction false} RecordInOrder(newest: uint64, received: seq<uint64>, got: set<nat>, n: uint64, cap: nat)
    requires newest <= n && 1 <= n && cap >= 33 && Inbox(newest, received, got)
    ensures Inbox(n, Newest(if n == newest then received else received + [n], cap), got + {n})
  {
    if n > newest {
      InboxAppend(newest, received, got, n);
      NewestOfInbox(n, received + [n], got + {n}, cap);
    } else {
      assert n in got;
      assert got + {n} == got;
      NewestOfInbox(n, received, got, cap);
    }
  }

  /** The field for the newest number is accurate. */
  lemma {:induction false} FieldIsAccurate(seqNum: uint16, newest: uint16, received: seq<uint64>, got: set<nat>)
    requires Inbox(newest, received, got)
    ensures Accurate(Header(seqNum, newest, AckField(received, newest)), got)
  {
    RisingIsAscending(received);
    var field := AckField(received, newest);
    forall b: nat | b < 32 ensures Bit(field, b) <==> newest + b >= 33 && newest + b - 32 in got {
      AckFieldMeaning(received, newest, b);
      if received != [] {
        assert received[0] in got;
      }
    }
  }

  // ---------- marking ----------

  lemma {:induction false} TakenInTime(localLarge: uint16, ack: uint16)
    requires ack <= localLarge < SEQUENCE_NUMBER_MAX && localLarge <= ack + SEQUENCE_NUMBER_HALF
    ensures TranslateAck(localLarge, localLarge, ack) == ack
  {
    BackwardDiff(localLarge, ack);
    SubtractIs(localLarge, SequenceNumberDiff(localLarge, ack), ack);
  }

  /** A header that comes in time marks exactly what it claims, true or not. */
  lemma {:induction false} MarksInTime(l: Link, h: Header, clock: seq<int>, n: uint64)
    requires |clock| == 32 && h.ack <= l.localLarge && Near(l, h)
    requires l.localLarge == l.localSmall < SEQUENCE_NUMBER_MAX && Outbox(l.sent, l.localLarge)
    ensures n in AckedNums(Marks(l, h, clock)) <==>
            n in AckedNums(l.sent) || (n in Nums(l.sent) && Claims(h.ack, Flags(h.ackBits), n))
  {
    TakenInTime(l.localSmall, h.ack);
    MarksClaimed(l, h, clock, h.ack, n);
  }

  /** What an end can count on when a packet reaches it. */
  ghost predicate Reliable(l: Link, h: Header, peerGot: set<nat>) {
    h.ack <= l.localLarge && Accurate(h, peerGot)
  }

  lemma {:induction false} ReliableIsTruthful(l: Link, h: Header, acked: set<nat>, peerGot: set<nat>)
    requires Sending(l, acked) && Reliable(l, h, peerGot)
    ensures Truthful(l, h, h.ack, peerGot)
  {
    assert Small(h.ack) == h.ack;
  }

  /** An acknowledgement that comes in time is taken for what it is. */
  lemma {:induction false} InTimeAcknowledges(l: Link, h: Header, peerGot: set<nat>, n: uint64)
    requires h.ack <= l.localLarge < SEQUENCE_NUMBER_MAX && Near(l, h) && Accurate(h, peerGot) && (n in Nums(l.sent) ==> n >= 1)
    ensures Acknowledges(l, h.ack, peerGot, n) <==> n in Nums(l.sent) && n in peerGot && n <= h.ack < n + 32
  {
  }

  /**
   One acknowledgement marks exactly what it covers of the stored packets. If it comes in
   time, those are exactly the ones that the peer has received and that are not older than
   its window: none falsely, and none missed.
   */
  lemma {:induction false} MarksExactly(l: Link, h: Header, clock: seq<int>, acked: set<nat>, peerGot: set<nat>, n: uint64)
    requires |clock| == 32 && Sending(l, acked) && Reliable(l, h, peerGot)
    ensures n in AckedNums(Marks(l, h, clock)) <==> n in AckedNums(l.sent) || Acknowledges(l, h.ack, peerGot, n)
    ensures Near(l, h) ==> (Acknowledges(l, h.ack, peerGot, n) <==> n in Nums(l.sent) && n in peerGot && n <= h.ack < n + 32)
  {
    ReliableIsTruthful(l, h, acked, peerGot);
    TruthfulMarksExactly(l, h, clock, h.ack, peerGot, n);
    if Near(l, h) {
      InTimeAcknowledges(l, h, peerGot, n);
    }
  }

  /** The header comes in time, or all that it covers was received anyway. */
  ghost predicate NotMisleading(l: Link, h: Header, peerGot: set<nat>) {
    Near(l, h) || CoversReceived(l, h.ack, peerGot)
  }

  lemma {:induction false} HarmlessIff(l: Link, h: Header, acked: set<nat>, peerGot: set<nat>)
    requires Sending(l, acked) && Reliable(l, h, peerGot)
    ensures Harmless(l, h, peerGot) <==> NotMisleading(l, h, peerGot)
  {
    ReliableIsTruthful(l, h, acked, peerGot);
    TruthfulIsHarmlessIff(l, h, h.ack, peerGot);
    if Near(l, h) {
      forall n: uint64 | Acknowledges(l, h.ack, peerGot, n) ensures n in peerGot {
        InTimeAcknowledges(l, h, peerGot, n);
      }
    }
  }

  // ---------- the ends over a step ----------

  ghost predicate Arriving(l: Link, p: Packet) {
    p.header.seqNum == p.number && 1 <= p.number < SEQUENCE_NUMBER_MAX && l.remoteLarge <= p.number
  }

  lemma {:induction false} ServerKeepsReceiving(l: Link, p: Packet, clock: seq<int>, now: int, got: set<nat>)
    requires |clock| == 32 && Receiving(l, got) && Arriving(l, p)
    ensures var next := ServerStep(l, p.header, clock, now);
            Receiving(next, got + {p.number}) && next.remoteLarge == p.number
  {
    ArriveInOrder(l, got, p.number, ServerLink.MAX_RECEIVED);
  }

  lemma {:induction false} ClientKeepsReceiving(l: Link, p: Packet, clock: seq<int>, got: set<nat>)
    requires |clock| == 32 && Receiving(l, got) && Arriving(l, p)
    ensures var next := ClientReceive(l, p.header, clock);
            Receiving(next, got + {p.number}) && next.remoteLarge == p.number
  {
    ArriveInOrder(l, got, p.number, ClientLink.MAX_RECEIVED);
  }

  /** What the server says in its reply, and the client in its next packet, is accurate. */
  lemma {:induction false} ReplyIsAccurate(l: Link, p: Packet, got: set<nat>)
    requires Receiving(l, got) && Arriving(l, p) && l.localLarge + 1 < SEQUENCE_NUMBER_MAX
    ensures var h := Reply(l, p.header.seqNum);
            h.seqNum == l.localLarge + 1 && h.ack == p.number && Accurate(h, got + {p.number})
  {
    ArriveInOrder(l, got, p.number, ServerLink.MAX_RECEIVED);
    assert Small(Wrap64(l.localLarge + 1)) == l.localLarge + 1;
    FieldIsAccurate(l.localLarge + 1, p.number, Newest(Arrive(l, p.header.seqNum).received, ServerLink.MAX_RECEIVED), got + {p.number});
  }

  lemma {:induction false} NextHeaderIsAccurate(l: Link, got: set<nat>)
    requires Receiving(l, got) && l.localLarge + 1 < SEQUENCE_NUMBER_MAX
    ensures var h := NextHeader(l);
            h.seqNum == l.localLarge + 1 && h.ack == l.remoteLarge && Accurate(h, got)
  {
    var n := l.localLarge + 1;
    FieldIsAccurate(n, l.remoteSmall, l.received, got);
    assert NextHeader(l) == Header(n, l.remoteSmall, AckField(l.received, l.remoteSmall)) by {
      assert Wrap64(n) == n == Small(n);
    }
  }

  // ---------- a channel ----------

  /**
   A packet on its way: top is the newest number its sender has used, heard and got are what
   the sender has received, floor is the newest number its receiver has seen.
   */
  ghost predicate OnWay(p: Packet, top: nat, heard: nat, got: set<nat>, floor: nat) {
    && p.header.seqNum == p.number && 1 <= p.number < SEQUENCE_NUMBER_MAX && floor <= p.number <= top
    && p.header.ack <= heard && Accurate(p.header, got)
  }

  /** Each packet above the one before it. */
  ghost predicate Flow(channel: seq<Packet>, top: nat, heard: nat, got: set<nat>, floor: nat) {
    channel == [] ||
    (OnWay(channel[0], top, heard, got, floor) && Flow(channel[1..], top, heard, got, channel[0].number + 1))
  }

  /** A truthful header stays truthful while later packets come in. */
  lemma {:induction false} AccurateGrows(h: Header, heard: nat, got: set<nat>, n: nat)
    requires Accurate(h, got) && h.ack <= heard <= n && (n == heard ==> n in got)
    ensures Accurate(h, got + {n})
  {
  }

  lemma {:induction false} FlowGrows(channel: seq<Packet>, top: nat, heard: nat, got: set<nat>, floor: nat, n: nat)
    requires Flow(channel, top, heard, got, floor) && heard <= n && (n == heard ==> n in got)
    ensures Flow(channel, top, n, got + {n}, floor)
  {
    if channel == [] {
    } else {
      AccurateGrows(channel[0].header, heard, got, n);
      FlowGrows(channel[1..], top, heard, got, channel[0].number + 1, n);
    }
  }

  lemma {:induction false} FlowAppend(channel: seq<Packet>, top: nat, heard: nat, got: set<nat>, floor: nat, p: Packet)
    requires Flow(channel, top, heard, got, floor) && p.number == top + 1 && OnWay(p, top + 1, heard, got, 0)
    requires floor <= top + 1
    ensures Flow(channel + [p], top + 1, heard, got, floor)
  {
    if channel == [] {
    } else {
      FlowAppend(channel[1..], top, heard, got, channel[0].number + 1, p);
      assert (channel + [p])[1..] == channel[1..] + [p];
    }
  }

  lemma {:induction false} FlowDeliver(channel: seq<Packet>, top: nat, heard: nat, got: set<nat>, floor: nat, repeated: bool)
    requires channel != [] && Flow(channel, top, heard, got, floor)
    ensures Flow(Rest(channel, repeated), top, heard, got, channel[0].number)
  {
  }

  lemma {:induction false} FlowLose(channel: seq<Packet>, top: nat, heard: nat, got: set<nat>, floor: nat, i: nat)
    requires i < |channel| && Flow(channel, top, heard, got, floor)
    ensures Flow(Without(channel, i), top, heard, got, floor)
    decreases i
  {
    if i == 0 {
      assert Without(channel, i) == channel[1..];
    } else {
      FlowLose(channel[1..], top, heard, got, channel[0].number + 1, i - 1);
      assert Without(channel, i) == [channel[0]] + Without(channel[1..], i - 1);
    }
  }

  // ---------- the whole system ----------

  ghost predicate Invariant(s: System) {
    && Sending(s.client, s.clientAcked) && Receiving(s.client, s.clientGot)
    && Sending(s.server, s.serverAcked) && Receiving(s.server, s.serverGot)
    && s.server.remoteLarge <= s.client.localLarge && s.client.remoteLarge <= s.server.localLarge
    && Flow(s.toServer, s.client.localLarge, s.client.remoteLarge, s.clientGot, s.server.remoteLarge)
    && Flow(s.toClient, s.server.localLarge, s.server.remoteLarge, s.serverGot, s.client.remoteLarge)
  }

  lemma {:induction false} ClientSendsKeeps(s: System, now: int)
    requires Invariant(s) && s.client.localLarge + 1 < SEQUENCE_NUMBER_MAX
    ensures Invariant(Step(s, ClientSends(now)))
  {
    DepartKeeps(s.client, now, s.clientAcked);
    NextHeaderIsAccurate(s.client, s.clientGot);
    FlowAppend(s.toServer, s.client.localLarge, s.client.remoteLarge, s.clientGot, s.server.remoteLarge,
               Packet(s.client.localLarge + 1, NextHeader(s.client)));
  }

  /** The newest number an end has seen is one it has received. */
  lemma {:induction false} NewestWasReceived(l: Link, got: set<nat>, n: nat)
    requires Receiving(l, got) && 1 <= n == l.remoteLarge
    ensures n in got
  {
  }

  lemma {:induction false} ReplyJoinsFlow(l: Link, p: Packet, got: set<nat>, channel: seq<Packet>, floor: nat)
    requires Receiving(l, got) && Arriving(l, p) && l.localLarge + 1 < SEQUENCE_NUMBER_MAX
    requires Flow(channel, l.localLarge, l.remoteLarge, got, floor) && floor <= l.localLarge
    ensures Flow(channel + [Packet(l.localLarge + 1, Reply(l, p.header.seqNum))],
                 l.localLarge + 1, p.number, got + {p.number}, floor)
  {
    if p.number == l.remoteLarge {
      NewestWasReceived(l, got, p.number);
    }
    FlowGrows(channel, l.localLarge, l.remoteLarge, got, floor, p.number);
    ReplyIsAccurate(l, p, got);
    FlowAppend(channel, l.localLarge, p.number, got + {p.number}, floor, Packet(l.localLarge + 1, Reply(l, p.header.seqNum)));
  }

  /** What the server and the channel to the client keep when the server handles a packet. */
  ghost predicate Handled(s: System, p: Packet, server: Link, reply: Packet, marked: set<nat>) {
    && Sending(server, s.serverAcked + marked) && server.localLarge == s.server.localLarge + 1
    && Receiving(server, s.serverGot + {p.number}) && server.remoteLarge == p.number
    && Flow(s.toClient + [reply], s.server.localLarge + 1, p.number, s.serverGot + {p.number}, s.client.remoteLarge)
  }

  lemma {:induction false} ServerHandles(s: System, p: Packet, clock: seq<int>, now: int)
    requires Invariant(s) && |clock| == 32
    requires OnWay(p, s.client.localLarge, s.client.remoteLarge, s.clientGot, s.server.remoteLarge)
    requires s.server.localLarge + 1 < SEQUENCE_NUMBER_MAX
    ensures Handled(s, p, ServerStep(s.server, p.header, clock, now),
                    Packet(s.server.localLarge + 1, Reply(s.server, p.header.seqNum)),
                    AckedNums(Marks(s.server, p.header, clock)))
  {
    ServerKeepsStoring(s.server, p.header, clock, now, s.serverAcked);
    ServerKeepsReceiving(s.server, p, clock, now, s.serverGot);
    ReplyJoinsFlow(s.server, p, s.serverGot, s.toClient, s.client.remoteLarge);
  }

  lemma {:induction false} ServerAssembles(s: System, p: Packet, repeated: bool, server: Link, reply: Packet,
                                           marked: set<nat>)
    requires Invariant(s) && s.toServer != [] && p == s.toServer[0] && Handled(s, p, server, reply, marked)
    ensures Invariant(s.(server := server, toServer := Rest(s.toServer, repeated), toClient := s.toClient + [reply],
                         serverGot := s.serverGot + {p.number}, serverAcked := s.serverAcked + marked))
  {
    assert OnWay(p, s.client.localLarge, s.client.remoteLarge, s.clientGot, s.server.remoteLarge);
    FlowDeliver(s.toServer, s.client.localLarge, s.client.remoteLarge, s.clientGot, s.server.remoteLarge, repeated);
  }

  lemma {:induction false} ServerReceivesKeeps(s: System, repeated: bool, clock: seq<int>, now: int)
    requires Invariant(s) && Possible(s, ServerReceives(repeated, clock, now))
    requires s.server.localLarge + 1 < SEQUENCE_NUMBER_MAX
    ensures Invariant(Step(s, ServerReceives(repeated, clock, now)))
  {
    var p := s.toServer[0];
    var server := ServerStep(s.server, p.header, clock, now);
    var reply := Packet(s.server.localLarge + 1, Reply(s.server, p.header.seqNum));
    var marked := AckedNums(Marks(s.server, p.header, clock));
    ServerTakes(s, repeated, clock, now);
    ServerHandles(s, p, clock, now);
    ServerAssembles(s, p, repeated, server, reply, marked);
  }

  lemma {:induction false} ClientReceivesKeeps(s: System, repeated: bool, clock: seq<int>)
    requires Invariant(s) && Possible(s, ClientReceives(repeated, clock))
    ensures Invariant(Step(s, ClientReceives(repeated, clock)))
  {
    var p, l := s.toClient[0], s.client;
    assert OnWay(p, s.server.localLarge, s.server.remoteLarge, s.serverGot, l.remoteLarge);
    ClientKeepsStoring(l, p.header, clock, s.clientAcked);
    ClientKeepsReceiving(l, p, clock, s.clientGot);
    FlowDeliver(s.toClient, s.server.localLarge, s.server.remoteLarge, s.serverGot, l.remoteLarge, repeated);
    if p.number == l.remoteLarge {
      NewestWasReceived(l, s.clientGot, p.number);
    }
    FlowGrows(s.toServer, l.localLarge, l.remoteLarge, s.clientGot, s.server.remoteLarge, p.number);
  }

  lemma {:induction false} StepKeeps(s: System, a: Action)
    requires Invariant(s) && Possible(s, a) && KeepsOrder(a) && BeforeWrap(Step(s, a))
    ensures Invariant(Step(s, a))
  {
    match a
    case ClientSends(now) =>
      DepartCounts(s.client, now);
      ClientSendsKeeps(s, now);
    case ServerReceives(repeated, clock, now) =>
      ServerNumber(s.server, s.toServer[0].header, clock, now);
      ServerReceivesKeeps(s, repeated, clock, now);
    case ClientReceives(repeated, clock) => ClientReceivesKeeps(s, repeated, clock);
    case LoseToServer(i) =>
      FlowLose(s.toServer, s.client.localLarge, s.client.remoteLarge, s.clientGot, s.server.remoteLarge, i);
    case LoseToClient(i) =>
      FlowLose(s.toClient, s.server.localLarge, s.server.remoteLarge, s.serverGot, s.client.remoteLarge, i);
  }

  lemma {:induction false} RunKeeps(states: seq<System>, actions: seq<Action>, k: nat)
    requires IsRun(states, actions) && OrderKept(actions) && Unwrapped(states) && k < |states|
    ensures Invariant(states[k])
  {
    if k == 0 {
    } else {
      RunKeeps(states, actions, k - 1);
      assert BeforeWrap(states[k]);
      StepKeeps(states[k - 1], actions[k - 1]);
    }
  }

  // ---------- the guarantees ----------

  /** The header at the head of a channel can be relied on. */
  lemma {:induction false} HeadIsReliable(s: System)
    requires Invariant(s)
    ensures s.toServer != [] ==> Reliable(s.server, s.toServer[0].header, s.clientGot)
    ensures s.toClient != [] ==> Reliable(s.client, s.toClient[0].header, s.serverGot)
  {
    if s.toServer != [] {
      assert OnWay(s.toServer[0], s.client.localLarge, s.client.remoteLarge, s.clientGot, s.server.remoteLarge);
    }
    if s.toClient != [] {
      assert OnWay(s.toClient[0], s.server.localLarge, s.server.remoteLarge, s.serverGot, s.client.remoteLarge);
    }
  }

  /** No header that comes in late covers a stored packet that was not received. */
  ghost predicate NotMisled(s: System, a: Action)
    requires Possible(s, a)
  {
    match a
    case ServerReceives(_, _, _) => NotMisleading(s.server, s.toServer[0].header, s.clientGot)
    case ClientReceives(_, _) => NotMisleading(s.client, s.toClient[0].header, s.serverGot)
    case _ => true
  }

  lemma {:induction false} StepIsSoundIffNotMisled(s: System, a: Action)
    requires Invariant(s) && Sound(s) && Possible(s, a)
    ensures Sound(Step(s, a)) <==> NotMisled(s, a)
  {
    StepIsSoundIff(s, a);
    HeadIsReliable(s);
    match a
    case ServerReceives(_, _, _) => HarmlessIff(s.server, s.toServer[0].header, s.serverAcked, s.clientGot);
    case ClientReceives(_, _) => HarmlessIff(s.client, s.toClient[0].header, s.clientAcked, s.serverGot);
    case _ =>
  }

  lemma {:induction false} RunStepIsSoundIffNotMisled(states: seq<System>, actions: seq<Action>, k: nat)
    requires IsRun(states, actions) && OrderKept(actions) && Unwrapped(states) && k < |actions|
    ensures Sound(states[k]) ==> (Sound(states[k + 1]) <==> NotMisled(states[k], actions[k]))
  {
    RunKeeps(states, actions, k);
    if Sound(states[k]) {
      StepIsSoundIffNotMisled(states[k], actions[k]);
    }
  }

  /**
   Over every run with loss and repetition before the first wrap: only received packets are
   ever marked acknowledged exactly when every header comes in time or covers nothing, of
   what is then stored, that was not received.
   */
  lemma {:induction false} AcknowledgedWasReceived(states: seq<System>, actions: seq<Action>)
    requires IsRun(states, actions) && OrderKept(actions) && Unwrapped(states)
    ensures (forall k :: 0 <= k < |states| ==> Sound(states[k])) <==>
            (forall k :: 0 <= k < |actions| ==> NotMisled(states[k], actions[k]))
  {
    var sound := seq(|states|, k requires 0 <= k < |states| => Sound(states[k]));
    var good := seq(|actions|, k requires 0 <= k < |actions| => Possible(states[k], actions[k]) && NotMisled(states[k], actions[k]));
    forall k | 0 <= k < |actions| && sound[k] ensures sound[k + 1] == good[k] {
      RunStepIsSoundIffNotMisled(states, actions, k);
    }
    ThroughoutIff(sound, good);
    assert forall k :: 0 <= k < |states| ==> sound[k] == Sound(states[k]);
    assert forall k :: 0 <= k < |actions| ==> good[k] == NotMisled(states[k], actions[k]);
  }

  /** So nothing is ever marked falsely if no acknowledgement lags by more than half the range. */
  lemma {:induction false} PromptIsSound(states: seq<System>, actions: seq<Action>, k: nat)
    requires IsRun(states, actions) && OrderKept(actions) && Unwrapped(states) && Prompt(states, actions) && k < |states|
    ensures states[k].clientAcked <= states[k].serverGot
    ensures states[k].serverAcked <= states[k].clientGot
  {
    forall i | 0 <= i < |actions| ensures NotMisled(states[i], actions[i]) {
      assert PromptStep(states[i], actions[i]);
    }
    AcknowledgedWasReceived(states, actions);
    assert Sound(states[k]);
  }

  /**
   Over every such run: what one packet delivered to the client marks; in time, exactly the
   stored packets from ack - 31 to ack that the server has received.
   */
  lemma {:induction false} ClientMarksExactly(states: seq<System>, actions: seq<Action>, k: nat, n: uint64)
    requires IsRun(states, actions) && OrderKept(actions) && Unwrapped(states) && k < |actions| && actions[k].ClientReceives?
    ensures var s := states[k];
            var l, h := s.client, s.toClient[0].header;
            && (n in AckedNums(Marks(l, h, actions[k].clock)) <==> n in AckedNums(l.sent) || Acknowledges(l, h.ack, s.serverGot, n))
            && (Near(l, h) ==> (Acknowledges(l, h.ack, s.serverGot, n) <==>
                                n in Nums(l.sent) && n in s.serverGot && n <= h.ack < n + 32))
  {
    RunKeeps(states, actions, k);
    HeadIsReliable(states[k]);
    MarksExactly(states[k].client, states[k].toClient[0].header, actions[k].clock, states[k].clientAcked, states[k].serverGot, n);
  }

  lemma {:induction false} ServerMarksExactly(states: seq<System>, actions: seq<Action>, k: nat, n: uint64)
    requires IsRun(states, actions) && OrderKept(actions) && Unwrapped(states) && k < |actions| && actions[k].ServerReceives?
    ensures var s := states[k];
            var l, h := s.server, s.toServer[0].header;
            && (n in AckedNums(Marks(l, h, actions[k].clock)) <==> n in AckedNums(l.sent) || Acknowledges(l, h.ack, s.clientGot, n))
            && (Near(l, h) ==> (Acknowledges(l, h.ack, s.clientGot, n) <==>
                                n in Nums(l.sent) && n in s.clientGot && n <= h.ack < n + 32))
  {
    RunKeeps(states, actions, k);
    HeadIsReliable(states[k]);
    MarksExactly(states[k].server, states[k].toServer[0].header, actions[k].clock, states[k].serverAcked, states[k].clientGot, n);
  }

  /** The client's next packet joins its channel and is stored under the next number. */
  lemma {:induction false} SendsNext(s: System, now: int)
    requires Sending(s.client, s.clientAcked) && Receiving(s.client, s.clientGot)
    requires s.client.localLarge + 1 < SEQUENCE_NUMBER_MAX
    ensures var next, n, h := Step(s, ClientSends(now)), s.client.localLarge + 1, NextHeader(s.client);
            && h.seqNum == n && h.ack == s.client.remoteLarge
            && next == s.(client := next.client, toServer := s.toServer + [Packet(n, h)])
            && next.client.localLarge == n && Nums(next.client.sent) == Nums(s.client.sent) + {n}
            && next.client.remoteLarge == s.client.remoteLarge
            && Sending(next.client, s.clientAcked) && Receiving(next.client, s.clientGot)
  {
    var n := Wrap64(s.client.localLarge + 1);
    assert n == s.client.localLarge + 1;
    NextHeaderIsAccurate(s.client, s.clientGot);
    DepartKeeps(s.client, now, s.clientAcked);
    AppendPacket(s.client.sent, PacketInfo(n, false, now, 0, 0));
  }

  /** The reply to a packet that is alone in its channel acknowledges that packet. */
  lemma {:induction false} RepliesAlone(s: System, p: Packet, clock: seq<int>, now: int)
    requires Invariant(s) && s.toServer == [p] && s.toClient == [] && |clock| == 32
    requires s.server.localLarge + 1 < SEQUENCE_NUMBER_MAX
    ensures var next := Step(s, ServerReceives(false, clock, now));
            && |next.toClient| == 1 && next.toClient[0].header.ack == p.number
            && next.client == s.client && p.number in next.serverGot
  {
    assert OnWay(p, s.client.localLarge, s.client.remoteLarge, s.clientGot, s.server.remoteLarge);
    ReplyIsAccurate(s.server, p, s.serverGot);
  }

  /** A packet that acknowledges the newest one sent marks it. */
  lemma {:induction false} MarksNewest(s: System, clock: seq<int>)
    requires Invariant(s) && |clock| == 32 && s.toClient != [] && s.client.localLarge in Nums(s.client.sent)
    requires s.toClient[0].header.ack == s.client.localLarge && s.client.localLarge in s.serverGot
    ensures s.client.localLarge in Step(s, ClientReceives(false, clock)).clientAcked
  {
    HeadIsReliable(s);
    MarksExactly(s.client, s.toClient[0].header, clock, s.clientAcked, s.serverGot, s.client.localLarge);
  }

  /** Nothing is on its way, and the ends can send this often before the first wrap. */
  ghost predicate Quiet(s: System, sends: nat, replies: nat) {
    && Invariant(s) && s.toServer == [] && s.toClient == []
    && s.client.localLarge + sends < SEQUENCE_NUMBER_MAX && s.server.localLarge + replies < SEQUENCE_NUMBER_MAX
  }

  /** The packet is answered, and the answer acknowledges it. */
  lemma {:induction false} AnswerAcknowledges(s: System, clock: seq<int>, now: int)
    requires Invariant(s) && |clock| == 32 && |s.toServer| == 1 && s.toServer[0].number == s.client.localLarge && s.toClient == []
    requires s.client.localLarge in Nums(s.client.sent) && s.server.localLarge + 1 < SEQUENCE_NUMBER_MAX
    ensures var next := Step(s, ServerReceives(false, clock, now));
            Possible(next, ClientReceives(false, clock)) && s.client.localLarge in Step(next, ClientReceives(false, clock)).clientAcked
  {
    var next := Step(s, ServerReceives(false, clock, now));
    RepliesAlone(s, s.toServer[0], clock, now);
    ServerReceivesKeeps(s, false, clock, now);
    MarksNewest(next, clock);
  }

  /** From a quiet state a single undisturbed round trip acknowledges the packet sent. */
  lemma {:induction false} RoundTripAcknowledges(s: System, clock: seq<int>, now: int)
    requires Quiet(s, 1, 1) && |clock| == 32
    ensures var s1 := Step(s, ClientSends(now));
            && Possible(s1, ServerReceives(false, clock, now))
            && var s2 := Step(s1, ServerReceives(false, clock, now));
               && Possible(s2, ClientReceives(false, clock))
               && s.client.localLarge + 1 in Step(s2, ClientReceives(false, clock)).clientAcked
  {
    var s1 := Step(s, ClientSends(now));
    SendsNext(s, now);
    ClientSendsKeeps(s, now);
    AnswerAcknowledges(s1, clock, now);
  }

  // ---------- what the client counts as lost ----------

  /** The numbers of packets that are not acknowledged. */
  function Unmarked(s: seq<PacketInfo>): set<nat> {
    Nums(s) - AckedNums(s)
  }

  lemma {:induction false} AckedAreNums(s: seq<PacketInfo>)
    ensures AckedNums(s) <= Nums(s)
  {
    if s == [] {
    } else {
      AckedAreNums(s[..|s| - 1]);
    }
  }

  /** A new number counts, unless it is marked. */
  lemma {:induction false} UnmarkedGrows(nums: set<nat>, acked: set<nat>, n: nat, marked: bool)
    requires acked <= nums && n !in nums
    ensures |(nums + {n}) - (acked + (if marked then {n} else {}))| == |nums - acked| + if marked then 0 else 1
  {
    assert (nums + {n}) - (acked + (if marked then {n} else {})) == (nums - acked) + if marked then {} else {n};
  }

  lemma {:induction false} UnmarkedCount(s: seq<PacketInfo>)
    requires Ordered(s)
    ensures |Unmarked(s)| == |s| - AckedCount(s)
  {
    if s == [] {
    } else {
      var init, last := s[..|s| - 1], s[|s| - 1];
      UnmarkedCount(init);
      AckedAreNums(init);
      assert last.seqNum !in Nums(init);
      UnmarkedGrows(Nums(init), AckedNums(init), last.seqNum, last.acknowledged);
    }
  }

  /** A number occurs once, so it is acknowledged in a prefix or not at all. */
  lemma {:induction false} AckedInPrefix(s: seq<PacketInfo>, r: nat, n: nat)
    requires Ordered(s) && r <= |s| && n in Nums(s[..r])
    ensures n in AckedNums(s[..r]) <==> n in AckedNums(s)
    ensures n in Nums(s)
  {
    if r == |s| {
      assert s[..r] == s;
    } else {
      var init := s[..|s| - 1];
      assert init[..r] == s[..r];
      AckedInPrefix(init, r, n);
    }
  }

  lemma {:induction false} SameFront(s: seq<PacketInfo>, t: seq<PacketInfo>)
    requires SeqNums(s) == SeqNums(t)
    ensures Nums(Front(s)) == Nums(Front(t))
  {
    assert SeqNums(Front(s)) == SeqNums(s)[..|Front(s)|] && SeqNums(Front(t)) == SeqNums(t)[..|Front(t)|];
    SameNums(Front(s), Front(t));
  }

  /**
   When the client prunes, it counts as lost exactly the packets at the front that were not
   acknowledged before and are not covered by this acknowledgement. So of those that the
   server has received, it counts as lost exactly the ones outside the window, if the
   acknowledgement comes in time.
   */
  lemma {:induction false} LostIff(s: System, clock: seq<int>, n: uint64)
    requires Invariant(s) && Possible(s, ClientReceives(false, clock))
    ensures var h, before := s.toClient[0].header, s.client.sent;
            var marks := Marks(s.client, h, clock);
            && Prune(marks).lost == |Unmarked(Front(marks))|
            && (n in Unmarked(Front(marks)) <==>
                n in Nums(Front(before)) && n !in AckedNums(before) && !Acknowledges(s.client, h.ack, s.serverGot, n))
            && (Near(s.client, h) ==>
                (n in Unmarked(Front(marks)) && n in s.serverGot <==>
                 n in Nums(Front(before)) && n !in AckedNums(before) && n in s.serverGot && !(n <= h.ack < n + 32)))
  {
    var h, before := s.toClient[0].header, s.client.sent;
    var marks := Marks(s.client, h, clock);
    HeadIsReliable(s);
    MarksExactly(s.client, h, clock, s.clientAcked, s.serverGot, n);
    SameNums(marks, before);
    SameFront(marks, before);
    FrontOfOrdered(marks);
    UnmarkedCount(Front(marks));
    FrontKeepsMarks(marks, before, n);
  }

  lemma {:induction false} FrontKeepsMarks(marks: seq<PacketInfo>, before: seq<PacketInfo>, n: nat)
    requires Ordered(marks) && Nums(Front(marks)) == Nums(Front(before)) && Ordered(before)
    ensures n in Unmarked(Front(marks)) <==> n in Nums(Front(before)) && n !in AckedNums(marks)
    ensures n in Nums(Front(before)) ==> n in Nums(before)
  {
    if n in Nums(Front(marks)) {
      AckedInPrefix(marks, |Front(marks)|, n);
      AckedInPrefix(before, |Front(before)|, n);
    }
  }

  lemma {:induction false} FrontOfOrdered(s: seq<PacketInfo>)
    requires Ordered(s)
    ensures Ordered(Front(s))
  {
    OrderedIsAscending(s);
    OrderedIsAscending(Front(s));
    assert SeqNums(Front(s)) == SeqNums(s)[..|Front(s)|];
  }

  /** Over every run: what LostIff says holds at every packet the client receives. */
  lemma {:induction false} LostOverRuns(states: seq<System>, actions: seq<Action>, k: nat, n: uint64)
    requires IsRun(states, actions) && OrderKept(actions) && Unwrapped(states) && k < |actions| && actions[k].ClientReceives?
    ensures var s := states[k];
            var h, before := s.toClient[0].header, s.client.sent;
            var marks := Marks(s.client, h, actions[k].clock);
            && Prune(marks).lost == |Unmarked(Front(marks))|
            && (n in Unmarked(Front(marks)) <==>
                n in Nums(Front(before)) && n !in AckedNums(before) && !Acknowledges(s.client, h.ack, s.serverGot, n))
            && (Near(s.client, h) ==>
                (n in Unmarked(Front(marks)) && n in s.serverGot <==>
                 n in Nums(Front(before)) && n !in AckedNums(before) && n in s.serverGot && !(n <= h.ack < n + 32)))
  {
    RunKeeps(states, actions, k);
    LostIff(states[k], actions[k].clock, n);
  }
}
