/**
 Acknowledgements that come too late, before the first wrap. One that lags by more than half
 the range is taken for a later packet. A client that hears nothing keeps acknowledging
 packet 0, truthfully: up to the server's packet 32768 that marks nothing, but from then on
 it makes the server retire every second number, 2, 4, 6 and so on. No change of order is
 needed for that, only loss.
 */
module Lateness {
  import opened Bits
  import opened SequenceNumbers
  import opened AckBits
  import opened Links
  import opened Channels
  import opened Exchange
  import opened Marking
  import opened Rounds
  import ServerLink
  import ClientLink

  // ---------- a late acknowledgement ----------

  /** The header lags by more than half the range, and tells the truth. */
  ghost predicate Late(l: Link, h: Header, got: set<nat>) {
    && l.localSmall == Small(l.localLarge) && Tells(h.ackBits, h.ack, got)
    && h.ack + SEQUENCE_NUMBER_HALF < l.localLarge < SEQUENCE_NUMBER_MAX
  }

  /** It is taken for a packet after the one that it acknowledges. */
  lemma {:induction false} LateTaken(localLarge: nat, ack: nat)
    requires ack + SEQUENCE_NUMBER_HALF < localLarge < SEQUENCE_NUMBER_MAX
    ensures Taken(localLarge, ack) == 2 * localLarge - ack - TWO_16 > ack + 1 && Small(ack) == ack
  {
  }

  /**
   It marks, of each stored packet in the window before packet 2 L - ack - 65536, whether the
   packet as far before ack was received, and that packet itself whatever was received.
   */
  lemma {:induction false} LateMarksExactly(l: Link, h: Header, clock: seq<int>, got: set<nat>, n: uint64)
    requires |clock| == 32 && Outbox(l.sent, l.localLarge) && Late(l, h, got)
    ensures var taken := 2 * l.localLarge - h.ack - TWO_16;
            n in AckedNums(Marks(l, h, clock)) <==>
            n in AckedNums(l.sent) || (n in Nums(l.sent) && Covers(h.ack, taken, got, n))
  {
    LateTaken(l.localLarge, h.ack);
    TruthfulMarksExactly(l, h, clock, h.ack, got, n);
  }

  /** Nothing is marked falsely exactly when all of those were received. */
  lemma {:induction false} LateIsHarmlessIff(l: Link, h: Header, got: set<nat>)
    requires Late(l, h, got)
    ensures Harmless(l, h, got) <==>
            forall n: uint64 :: n in Nums(l.sent) && Covers(h.ack, 2 * l.localLarge - h.ack - TWO_16, got, n) ==> n in got
  {
    LateTaken(l.localLarge, h.ack);
    TruthfulIsHarmlessIff(l, h, h.ack, got);
    assert forall n: uint64 :: Acknowledges(l, h.ack, got, n) <==>
                               n in Nums(l.sent) && Covers(h.ack, 2 * l.localLarge - h.ack - TWO_16, got, n);
  }

  // ---------- a client that hears nothing ----------

  /** What n headers that acknowledge nothing have made the server mark. */
  predicate EverySecond(n: nat, i: nat) {
    i % 2 == 0 && 2 <= i && i + TWO_16 <= 2 * (n - 1)
  }

  lemma {:induction false} NothingTold(got: set<nat>)
    requires got == {}
    ensures Tells(0, 0, got)
  {
    forall b: nat | b < 32 ensures !Bit(0, b) {
      NoBit(b);
    }
  }

  /** Before the first wrap: packet 0 up to 32768 packets, and packet 2 n - 65536 after n. */
  lemma {:induction false} SilentTaken(n: nat)
    requires n < SEQUENCE_NUMBER_MAX
    ensures Taken(n, 0) == if n <= SEQUENCE_NUMBER_HALF then 0 else 2 * n - TWO_16
  {
  }

  /** A header that acknowledges nothing marks one packet, if it comes too late, and otherwise none. */
  lemma {:induction false} SilentMarks(server: Link, h: Header, clock: seq<int>, i: uint64)
    requires |clock| == 32 && Outbox(server.sent, server.localLarge) && server.localLarge < SEQUENCE_NUMBER_MAX
    requires server.localSmall == Small(server.localLarge) && h.ack == 0 && h.ackBits == 0
    ensures i in AckedNums(Marks(server, h, clock)) <==>
            i in AckedNums(server.sent) ||
            (i in Nums(server.sent) && server.localLarge > SEQUENCE_NUMBER_HALF && i == 2 * server.localLarge - TWO_16)
  {
    NothingTold({});
    assert Small(0) == 0;
    TruthfulMarksExactly(server, h, clock, 0, {}, i);
    SilentTaken(server.localLarge);
  }

  /** The client has sent n packets, all of them answered, and has heard nothing. */
  ghost predicate Silent(s: System, n: nat) {
    && Resting(s) && s.clientGot == {}
    && Deaf(s.client, n) && Retires(s.server, s.serverAcked, n)
  }

  ghost predicate Retires(server: Link, retired: set<nat>, n: nat) {
    && server.localLarge == n && ServerLink.SentOrRetired(n, server.sent, retired)
    && forall i :: i in retired <==> EverySecond(n, i)
  }

  /** Each round adds the next even number, once the rounds have come that far. */
  lemma {:induction false} NextSecond(n: nat, sent: set<nat>, acked: set<nat>, marks: set<nat>)
    requires 0 < n < SEQUENCE_NUMBER_MAX && ServerLink.IsRange(sent + acked, n) && sent !! acked
    requires forall i :: i in acked <==> EverySecond(n, i)
    requires forall i: uint64 :: i in marks <==> i in sent && n > SEQUENCE_NUMBER_HALF && i == 2 * n - TWO_16
    requires forall i :: i in marks ==> i < TWO_64
    ensures forall i :: i in acked + marks <==> EverySecond(n + 1, i)
  {
    if n > SEQUENCE_NUMBER_HALF {
      var t: uint64 := 2 * n - TWO_16;
      assert t in sent + acked && t !in acked;
      assert t in marks;
    }
  }

  lemma {:induction false} SilentServer(l: Link, n: nat, retired: set<nat>, h: Header, clock: seq<int>, now: int)
    requires |clock| == 32 && Retires(l, retired, n) && n < SEQUENCE_NUMBER_MAX
    requires l.localSmall == Small(n) && Outbox(l.sent, n) && h.ack == 0 && h.ackBits == 0
    ensures Retires(ServerLink.ServerStep(l, h, clock, now), retired + AckedNums(Marks(l, h, clock)), n + 1)
  {
    var marks := AckedNums(Marks(l, h, clock));
    ServerLink.StepKeepsPartition(l, retired, h, clock, now);
    forall i: uint64 ensures i in marks <==> i in Nums(l.sent) && n > SEQUENCE_NUMBER_HALF && i == 2 * n - TWO_16 {
      SilentMarks(l, h, clock, i);
    }
    forall i | i in marks ensures i < TWO_64 {
      AckedNumsAt(Marks(l, h, clock), i);
    }
    if n > 0 {
      NextSecond(n, Nums(l.sent), retired, marks);
    }
  }

  lemma {:induction false} SilentRound(s: System, n: nat, clock: seq<int>, now: int)
    requires Silent(s, n) && n < SEQUENCE_NUMBER_MAX && Counting(s) && |clock| == 32
    ensures Silent(Unheard(s, clock, now), n + 1)
  {
    var h := Header(Small(n + 1), 0, 0);
    DeafHeader(s.client, n);
    SilentServer(s.server, n, s.serverAcked, h, clock, now);
    DeafSends(s.client, n, now);
    UnheardIs(s, clock, now);
  }

  lemma {:induction false} SilentRoundReached(s: System, n: nat, k: nat, clock: seq<int>, now: int) returns (next: System)
    requires Reached(s, k) && k < MAX_EVENTS && Silent(s, n) && n < SEQUENCE_NUMBER_MAX && |clock| == 32
    ensures Reached(next, k + 3) && Silent(next, n + 1)
  {
    ReachedStores(s, k);
    SilentRound(s, n, clock, now);
    LostRoundReached(s, k, clock, now);
    next := Unheard(s, clock, now);
  }

  lemma SilentAtStart()
    ensures Reached(START, 0) && Silent(START, 0)
  {
    StartIsReached();
  }

  lemma {:induction false} SilentReached(n: nat, clock: seq<int>, now: int) returns (s: System)
    requires n <= SEQUENCE_NUMBER_MAX && |clock| == 32
    ensures Reached(s, 3 * n) && Silent(s, n)
  {
    if n == 0 {
      s := START;
      SilentAtStart();
    } else {
      var before := SilentReached(n - 1, clock, now);
      s := SilentRoundReached(before, n - 1, 3 * (n - 1), clock, now);
    }
  }

  /**
   After n rounds before the first wrap in which every reply is lost, the server has marked
   exactly the even numbers up to 2 (n - 1) - 65536, and the client has received nothing.
   */
  lemma {:induction false} SilenceIsAcknowledged(n: nat, clock: seq<int>, now: int)
    returns (states: seq<System>, actions: seq<Action>)
    requires n < SEQUENCE_NUMBER_MAX && |clock| == 32
    ensures IsRun(states, actions) && OrderKept(actions) && Unwrapped(states) && |actions| == 3 * n
    ensures states[3 * n].clientGot == {}
    ensures forall i :: i in states[3 * n].serverAcked <==> EverySecond(n, i)
  {
    var s := SilentReached(n, clock, now);
    states, actions := RunTo(s, 3 * n);
    EndsUnwrapped(states, actions);
  }

  /** The first packet so acknowledged is packet 2, when 32769 packets have been sent. */
  lemma {:induction false} SilenceMisleads(clock: seq<int>, now: int) returns (states: seq<System>, actions: seq<Action>)
    requires |clock| == 32
    ensures IsRun(states, actions) && OrderKept(actions) && Unwrapped(states) && |actions| == 3 * 32770
    ensures states[|actions|].serverAcked == {2} && states[|actions|].clientGot == {}
  {
    states, actions := SilenceIsAcknowledged(32770, clock, now);
    assert EverySecond(32770, 2);
    assert forall i :: EverySecond(32770, i) ==> i == 2;
  }
}
