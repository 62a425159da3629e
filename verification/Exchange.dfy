/**
 Both ends of the game-state exchange and the two channels between them, as a step system.
 A channel may lose any packet, deliver its first one repeatedly, and let packets overtake
 each other. Every packet carries its real number beside the header; no handler looks at it.
 Here is what holds over every run, whatever the channels do and however long it is.
 */
module Exchange {
  import opened Bits
  import opened SequenceNumbers
  import opened AckBits
  import opened Links
  import opened ServerLink
  import opened ClientLink
  import opened Channels

  datatype Packet = Packet(number: nat, header: Header)

  /** What each end has received, and what each end has marked acknowledged, are kept as sets. */
  datatype System = System(
    client: Link, server: Link,
    toServer: seq<Packet>, toClient: seq<Packet>,
    serverGot: set<nat>, clientGot: set<nat>,
    clientAcked: set<nat>, serverAcked: set<nat>)

  const START := System(NEW_LINK, NEW_LINK, [], [], {}, {}, {}, {})

  datatype Action =
    | ClientSends(now: int)
    | ServerReceives(repeated: bool, clock: seq<int>, now: int)
    | ClientReceives(repeated: bool, clock: seq<int>)
    | LoseToServer(i: nat)
    | LoseToClient(i: nat)
    | SwapToServer(i: nat)
    | SwapToClient(i: nat)

  /** The stored packets after an acknowledgement, before any are removed. */
  function Marks(l: Link, h: Header, clock: seq<int>): seq<PacketInfo>
    requires |clock| == 32
  {
    Acknowledge(Arrive(l, h.seqNum), h.ack, h.ackBits, clock).sent
  }

  ghost predicate Possible(s: System, a: Action) {
    match a
    case ClientSends(_) => true
    case ServerReceives(_, clock, _) => s.toServer != [] && |clock| == 32
    case ClientReceives(_, clock) => s.toClient != [] && |clock| == 32
    case LoseToServer(i) => i < |s.toServer|
    case LoseToClient(i) => i < |s.toClient|
    case SwapToServer(i) => i + 1 < |s.toServer|
    case SwapToClient(i) => i + 1 < |s.toClient|
  }

  ghost function Step(s: System, a: Action): System
    requires Possible(s, a)
  {
    match a
    case ClientSends(now) =>
      s.(client := Depart(s.client, now),
         toServer := s.toServer + [Packet(s.client.localLarge + 1, NextHeader(s.client))])
    case ServerReceives(repeated, clock, now) =>
      var p := s.toServer[0];
      s.(server := ServerStep(s.server, p.header, clock, now),
         toServer := Rest(s.toServer, repeated),
         toClient := s.toClient + [Packet(s.server.localLarge + 1, Reply(s.server, p.header.seqNum))],
         serverGot := s.serverGot + {p.number},
         serverAcked := s.serverAcked + AckedNums(Marks(s.server, p.header, clock)))
    case ClientReceives(repeated, clock) =>
      var p := s.toClient[0];
      s.(client := ClientReceive(s.client, p.header, clock),
         toClient := Rest(s.toClient, repeated),
         clientGot := s.clientGot + {p.number},
         clientAcked := s.clientAcked + AckedNums(Marks(s.client, p.header, clock)))
    case LoseToServer(i) => s.(toServer := Without(s.toServer, i))
    case LoseToClient(i) => s.(toClient := Without(s.toClient, i))
    case SwapToServer(i) => s.(toServer := Swapped(s.toServer, i))
    case SwapToClient(i) => s.(toClient := Swapped(s.toClient, i))
  }

  lemma {:induction false} NextNumber(n: nat)
    requires n + 1 < TWO_64
    ensures Wrap64(n + 1) == n + 1
  {
  }

  lemma {:induction false} ServerNumber(l: Link, h: Header, clock: seq<int>, now: int)
    requires |clock| == 32 && l.localLarge + 1 < TWO_64
    ensures ServerStep(l, h, clock, now).localLarge == l.localLarge + 1
  {
    NextNumber(l.localLarge);
  }

  lemma {:induction false} ClientNumber(l: Link, h: Header, clock: seq<int>)
    requires |clock| == 32
    ensures ClientReceive(l, h, clock).localLarge == l.localLarge
  {
  }

  lemma {:induction false} DepartCounts(l: Link, now: int)
    requires l.localLarge + 1 < TWO_64
    ensures Depart(l, now).localLarge == l.localLarge + 1
  {
    NextNumber(l.localLarge);
  }

  /** The state after the server has taken a packet, part by part. */
  lemma {:induction false} ServerTakes(s: System, repeated: bool, clock: seq<int>, now: int)
    requires Possible(s, ServerReceives(repeated, clock, now))
    ensures var p := s.toServer[0];
            Step(s, ServerReceives(repeated, clock, now)) ==
            s.(server := ServerStep(s.server, p.header, clock, now), toServer := Rest(s.toServer, repeated),
               toClient := s.toClient + [Packet(s.server.localLarge + 1, Reply(s.server, p.header.seqNum))],
               serverGot := s.serverGot + {p.number}, serverAcked := s.serverAcked + AckedNums(Marks(s.server, p.header, clock)))
  {
  }

  ghost predicate Steps(states: seq<System>, actions: seq<Action>) {
    && |states| == |actions| + 1
    && forall i :: 0 <= i < |actions| ==> Possible(states[i], actions[i]) && states[i + 1] == Step(states[i], actions[i])
  }

  ghost predicate IsRun(states: seq<System>, actions: seq<Action>) {
    Steps(states, actions) && states[0] == START
  }

  /** No wire number has wrapped yet. */
  ghost predicate BeforeWrap(s: System) {
    s.client.localLarge < SEQUENCE_NUMBER_MAX && s.server.localLarge < SEQUENCE_NUMBER_MAX
  }

  ghost predicate Unwrapped(states: seq<System>) {
    forall i :: 0 <= i < |states| ==> BeforeWrap(states[i])
  }

  predicate KeepsOrder(a: Action) {
    !a.SwapToServer? && !a.SwapToClient?
  }

  predicate OrderKept(actions: seq<Action>) {
    forall i :: 0 <= i < |actions| ==> KeepsOrder(actions[i])
  }

  lemma {:induction false} StepsAppend(states: seq<System>, actions: seq<Action>, a: Action)
    requires Steps(states, actions) && Possible(states[|actions|], a)
    ensures Steps(states + [Step(states[|actions|], a)], actions + [a])
  {
    var next, all := states + [Step(states[|actions|], a)], actions + [a];
    forall i | 0 <= i < |all| ensures Possible(next[i], all[i]) && next[i + 1] == Step(next[i], all[i]) {
      assert i < |actions| ==> next[i] == states[i] && next[i + 1] == states[i + 1] && all[i] == actions[i];
    }
  }

  // ---------- the stored packets of one end ----------

  ghost predicate InRange(nums: set<nat>, top: nat) {
    forall n :: n in nums ==> 1 <= n <= top
  }

  ghost predicate Outbox(s: seq<PacketInfo>, top: nat) {
    Ordered(s) && InRange(Nums(s), top)
  }

  ghost predicate Storing(l: Link, acked: set<nat>) {
    && l.localSmall == Small(l.localLarge) && Outbox(l.sent, l.localLarge)
    && AckedNums(l.sent) <= acked
  }

  lemma {:induction false} OutboxAppend(s: seq<PacketInfo>, top: nat, p: PacketInfo)
    requires Outbox(s, top) && p.seqNum == top + 1 && !p.acknowledged
    ensures Outbox(s + [p], top + 1) && AckedNums(s + [p]) == AckedNums(s)
  {
    AppendPacket(s, p);
  }

  lemma {:induction false} OutboxTidy(s: seq<PacketInfo>, top: nat)
    requires Outbox(s, top)
    ensures Outbox(Unacknowledged(s), top) && AckedNums(Unacknowledged(s)) == {}
  {
    UnacknowledgedSplits(s);
    assert Nums(Unacknowledged(s)) <= Nums(s);
  }

  lemma {:induction false} DropOrdered(s: seq<PacketInfo>, k: nat)
    requires k <= |s| && Ordered(s)
    ensures Ordered(s[k..]) && Nums(s[k..]) <= Nums(s) && AckedNums(s[k..]) <= AckedNums(s)
  {
    if k == |s| {
    } else {
      var init := s[..|s| - 1];
      DropOrdered(init, k);
      assert s[k..] == init[k..] + [s[|s| - 1]];
      AppendPacket(init[k..], s[|s| - 1]);
    }
  }

  /** Sending, whatever was stored before: the next packet gets the next number. */
  lemma {:induction false} DepartKeeps(l: Link, now: int, acked: set<nat>)
    requires Storing(l, acked) && l.localLarge + 1 < TWO_64
    ensures Storing(Depart(l, now), acked) && Depart(l, now).localLarge == l.localLarge + 1
  {
    var n := Wrap64(l.localLarge + 1);
    assert n == l.localLarge + 1;
    OutboxAppend(l.sent, l.localLarge, PacketInfo(n, false, now, 0, 0));
  }

  lemma {:induction false} AcknowledgeKeeps(l: Link, h: Header, clock: seq<int>, acked: set<nat>)
    requires |clock| == 32 && Storing(l, acked)
    ensures var a := Acknowledge(Arrive(l, h.seqNum), h.ack, h.ackBits, clock);
            && Storing(a, acked + AckedNums(a.sent)) && a.sent == Marks(l, h, clock)
            && a.localLarge == l.localLarge
  {
    SameNums(Marks(l, h, clock), l.sent);
  }

  lemma {:induction false} TidyKeeps(l: Link, acked: set<nat>)
    requires Storing(l, acked)
    ensures Storing(Tidy(l), acked)
  {
    OutboxTidy(l.sent, l.localLarge);
  }

  lemma {:induction false} ServerKeepsStoring(l: Link, h: Header, clock: seq<int>, now: int, acked: set<nat>)
    requires |clock| == 32 && Storing(l, acked) && l.localLarge + 1 < TWO_64
    ensures var next := ServerStep(l, h, clock, now);
            && Storing(next, acked + AckedNums(Marks(l, h, clock)))
            && next.localLarge == l.localLarge + 1
  {
    var a := Acknowledge(Arrive(l, h.seqNum), h.ack, h.ackBits, clock);
    AcknowledgeKeeps(l, h, clock, acked);
    TidyKeeps(a, acked + AckedNums(a.sent));
    DepartKeeps(Tidy(a), now, acked + AckedNums(a.sent));
  }

  lemma {:induction false} DropTwice(s: seq<PacketInfo>, n: nat, m: nat)
    requires n + m <= |s|
    ensures s[n..][m..] == s[n + m..]
  {
  }

  lemma {:induction false} PruneLeavesSuffix(s: seq<PacketInfo>)
    ensures var t := Newest(Prune(s).kept, MAX_SENT);
            |t| <= |s| && t == s[|s| - |t|..]
  {
    var n := Removed(|s|);
    var kept := s[n..];
    if |kept| > MAX_SENT {
      DropTwice(s, n, |kept| - MAX_SENT);
    }
  }

  lemma {:induction false} DropKeepsStoring(l: Link, k: nat, acked: set<nat>)
    requires Storing(l, acked) && k <= |l.sent|
    ensures Storing(l.(sent := l.sent[k..]), acked)
  {
    DropOrdered(l.sent, k);
  }

  lemma {:induction false} PruneKeepsStoring(l: Link, acked: set<nat>)
    requires Storing(l, acked)
    ensures Storing(l.(sent := Newest(Prune(l.sent).kept, MAX_SENT)), acked)
  {
    PruneLeavesSuffix(l.sent);
    DropKeepsStoring(l, |l.sent| - |Newest(Prune(l.sent).kept, MAX_SENT)|, acked);
  }

  lemma {:induction false} ClientKeepsStoring(l: Link, h: Header, clock: seq<int>, acked: set<nat>)
    requires |clock| == 32 && Storing(l, acked)
    ensures var next := ClientReceive(l, h, clock);
            && Storing(next, acked + AckedNums(Marks(l, h, clock)))
            && next.localLarge == l.localLarge
  {
    var a := Acknowledge(Arrive(l, h.seqNum), h.ack, h.ackBits, clock);
    AcknowledgeKeeps(l, h, clock, acked);
    PruneKeepsStoring(a, acked + AckedNums(a.sent));
  }

  // ---------- what an acknowledgement marks ----------

  lemma {:induction false} AckedNumsAt(s: seq<PacketInfo>, n: nat)
    ensures n in AckedNums(s) <==> exists j :: 0 <= j < |s| && s[j].acknowledged && s[j].seqNum == n
  {
    if s == [] {
    } else {
      AckedNumsAt(s[..|s| - 1], n);
    }
  }

  lemma {:induction false} MarkedAt(s: seq<PacketInfo>, t: seq<PacketInfo>, claimed: bool, n: nat)
    requires |s| == |t|
    requires forall j :: 0 <= j < |s| && t[j].seqNum == n ==>
               (t[j].acknowledged <==> s[j].acknowledged || claimed)
    requires forall j :: 0 <= j < |s| ==> t[j].seqNum == s[j].seqNum
    ensures n in AckedNums(t) <==> n in AckedNums(s) || (claimed && exists j :: 0 <= j < |s| && s[j].seqNum == n)
  {
    AckedNumsAt(s, n);
    AckedNumsAt(t, n);
  }

  /** Numbers so high that counting down past zero could reach them do not occur. */
  predicate BelowTop(nums: seq<uint64>) {
    forall i :: 0 <= i < |nums| ==> nums[i] < TWO_64 - 32
  }

  lemma {:induction false} VerifiedMarks(s: seq<PacketInfo>, ack: uint64, ackBits: bv32, clock: seq<int>, n: uint64)
    requires |clock| == 32 && Ascending(SeqNums(s)) && BelowTop(SeqNums(s))
    ensures n in AckedNums(Verified(s, ack, ackBits, clock)) <==>
            n in AckedNums(s) || (n in SeqNums(s) && Claims(ack, Flags(ackBits), n))
  {
    var t := Verified(s, ack, ackBits, clock);
    assert SeqNums(t) == SeqNums(s);
    forall j | 0 <= j < |s|
      ensures t[j].seqNum == s[j].seqNum
      ensures t[j].seqNum == n ==> (t[j].acknowledged <==> s[j].acknowledged || Claims(ack, Flags(ackBits), n))
    {
      VerifiedMeaning(s, ack, ackBits, clock, j);
    }
    MarkedAt(s, t, Claims(ack, Flags(ackBits), n), n);
    assert n in SeqNums(s) <==> exists j :: 0 <= j < |s| && s[j].seqNum == n;
  }

  lemma {:induction false} OutboxIsLow(s: seq<PacketInfo>, top: nat)
    requires Outbox(s, top) && top < TWO_64 - 32
    ensures Ascending(SeqNums(s)) && BelowTop(SeqNums(s)) && forall n :: n in Nums(s) <==> n in SeqNums(s)
  {
    OrderedIsAscending(s);
    NumsOfSeqNums(s);
    forall i | 0 <= i < |s| ensures SeqNums(s)[i] <= top {
      assert SeqNums(s)[i] in SeqNums(s);
    }
  }

  /** The packet that this end takes the acknowledgement for. */
  function TakenFor(l: Link, h: Header): uint64 {
    TranslateAck(l.localLarge, l.localSmall, h.ack)
  }

  /** A header marks exactly what it claims of the stored packets, true or not. */
  lemma {:induction false} MarksClaimed(l: Link, h: Header, clock: seq<int>, taken: uint64, n: uint64)
    requires |clock| == 32 && TakenFor(l, h) == taken
    requires Outbox(l.sent, l.localLarge) && l.localLarge < TWO_64 - 32
    ensures n in AckedNums(Marks(l, h, clock)) <==>
            n in AckedNums(l.sent) || (n in Nums(l.sent) && Claims(taken, Flags(h.ackBits), n))
  {
    OutboxIsLow(l.sent, l.localLarge);
    VerifiedMarks(l.sent, taken, h.ackBits, clock, n);
  }

  // ---------- soundness over every run ----------

  /** What either end has marked acknowledged, the other has received. */
  ghost predicate Sound(s: System) {
    s.clientAcked <= s.serverGot && s.serverAcked <= s.clientGot
  }

  /** All stored packets that the header is taken to claim were received. */
  ghost predicate Harmless(l: Link, h: Header, peerGot: set<nat>) {
    forall n: uint64 :: n in Nums(l.sent) && Claims(TakenFor(l, h), Flags(h.ackBits), n) ==> n in peerGot
  }

  ghost predicate HarmlessStep(s: System, a: Action)
    requires Possible(s, a)
  {
    match a
    case ServerReceives(_, _, _) => Harmless(s.server, s.toServer[0].header, s.clientGot)
    case ClientReceives(_, _) => Harmless(s.client, s.toClient[0].header, s.serverGot)
    case _ => true
  }

  lemma {:induction false} MarksAreSoundIff(l: Link, h: Header, clock: seq<int>, acked: set<nat>, peerGot: set<nat>)
    requires |clock| == 32 && Storing(l, acked) && l.localLarge < TWO_64 - 32 && acked <= peerGot
    ensures acked + AckedNums(Marks(l, h, clock)) <= peerGot <==> Harmless(l, h, peerGot)
  {
    var taken, marks := TakenFor(l, h), AckedNums(Marks(l, h, clock));
    forall n: uint64 ensures n in marks <==>
                             n in AckedNums(l.sent) || (n in Nums(l.sent) && Claims(taken, Flags(h.ackBits), n)) {
      MarksClaimed(l, h, clock, taken, n);
    }
    forall n | n in marks ensures n < TWO_64 {
      AckedNumsAt(Marks(l, h, clock), n);
    }
    if acked + marks <= peerGot {
      forall n: uint64 | n in Nums(l.sent) && Claims(taken, Flags(h.ackBits), n) ensures n in peerGot {
        assert n in marks;
      }
    }
  }

  /** Both ends store what they should, and no counter is near the end of its range. */
  ghost predicate Counting(s: System) {
    && Storing(s.client, s.clientAcked) && Storing(s.server, s.serverAcked)
    && s.client.localLarge < TWO_64 - 32 && s.server.localLarge < TWO_64 - 32
  }

  lemma {:induction false} StepIsSoundIff(s: System, a: Action)
    requires Counting(s) && Sound(s) && Possible(s, a)
    ensures Sound(Step(s, a)) <==> HarmlessStep(s, a)
  {
    match a
    case ServerReceives(_, clock, _) =>
      MarksAreSoundIff(s.server, s.toServer[0].header, clock, s.serverAcked, s.clientGot);
    case ClientReceives(_, clock) =>
      MarksAreSoundIff(s.client, s.toClient[0].header, clock, s.clientAcked, s.serverGot);
    case _ =>
  }

  lemma {:induction false} StepStores(s: System, a: Action)
    requires Counting(s) && Possible(s, a)
    ensures var next := Step(s, a);
            && Storing(next.client, next.clientAcked) && Storing(next.server, next.serverAcked)
            && s.client.localLarge <= next.client.localLarge <= s.client.localLarge + 1
            && s.server.localLarge <= next.server.localLarge <= s.server.localLarge + 1
  {
    match a
    case ClientSends(now) => DepartKeeps(s.client, now, s.clientAcked);
    case ServerReceives(_, clock, now) =>
      ServerKeepsStoring(s.server, s.toServer[0].header, clock, now, s.serverAcked);
    case ClientReceives(_, clock) =>
      ClientKeepsStoring(s.client, s.toClient[0].header, clock, s.clientAcked);
    case _ =>
  }

  lemma {:induction false} RunStores(states: seq<System>, actions: seq<Action>, k: nat)
    requires IsRun(states, actions) && k < |states| && k < MAX_EVENTS
    ensures Counting(states[k]) && states[k].client.localLarge <= k && states[k].server.localLarge <= k
  {
    if k == 0 {
    } else {
      RunStores(states, actions, k - 1);
      StepStores(states[k - 1], actions[k - 1]);
    }
  }

  lemma {:induction false} RunStepIsSoundIff(states: seq<System>, actions: seq<Action>, k: nat)
    requires IsRun(states, actions) && k < |actions| < MAX_EVENTS
    ensures Sound(states[k]) ==> (Sound(states[k + 1]) <==> HarmlessStep(states[k], actions[k]))
  {
    RunStores(states, actions, k);
    if Sound(states[k]) {
      StepIsSoundIff(states[k], actions[k]);
    }
  }

  /** What holds at first and lasts exactly over good steps holds throughout iff all steps are good. */
  lemma {:induction false} ThroughoutIff(holds: seq<bool>, good: seq<bool>)
    requires |holds| == |good| + 1 && holds[0]
    requires forall k :: 0 <= k < |good| && holds[k] ==> holds[k + 1] == good[k]
    ensures (forall k :: 0 <= k < |holds| ==> holds[k]) <==> (forall k :: 0 <= k < |good| ==> good[k])
  {
    if forall k :: 0 <= k < |good| ==> good[k] {
      for m := 0 to |good|
        invariant forall k :: 0 <= k <= m ==> holds[k]
      {
        assert holds[m + 1] == good[m];
      }
    } else {
      var k :| 0 <= k < |good| && !good[k];
      assert holds[k] ==> !holds[k + 1];
    }
  }

  /**
   Over every run, with loss, repetition, overtaking, any number of wraps and any delay: only
   received packets are ever marked acknowledged exactly when every header that comes in is
   harmless to what the end that takes it has stored at that moment.
   */
  lemma {:induction false} AcknowledgedWasReceivedIff(states: seq<System>, actions: seq<Action>)
    requires IsRun(states, actions) && |actions| < MAX_EVENTS
    ensures (forall k :: 0 <= k < |states| ==> Sound(states[k])) <==>
            (forall k :: 0 <= k < |actions| ==> HarmlessStep(states[k], actions[k]))
  {
    var sound := seq(|states|, k requires 0 <= k < |states| => Sound(states[k]));
    var harmless := seq(|actions|, k requires 0 <= k < |actions| => Possible(states[k], actions[k]) && HarmlessStep(states[k], actions[k]));
    forall k | 0 <= k < |actions| && sound[k] ensures sound[k + 1] == harmless[k] {
      RunStepIsSoundIff(states, actions, k);
    }
    ThroughoutIff(sound, harmless);
    assert forall k :: 0 <= k < |states| ==> sound[k] == Sound(states[k]);
    assert forall k :: 0 <= k < |actions| ==> harmless[k] == HarmlessStep(states[k], actions[k]);
  }
}
