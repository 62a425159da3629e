/**
 The client's side of the game-state exchange: Client::SendGameState, Client::HandleGameState
 and the sequence numbers and packet lists that they update.
 */
module ClientLink {
  import opened Bits
  import opened IntegerDivision
  import opened SequenceNumbers
  import opened AckBits
  import opened Links

  const MAX_SENT := 33
  const MAX_RECEIVED := 33

  // ---------- pruning the stored packets ----------

  /** size() - 33 on an unsigned size: it wraps when fewer than 33 packets are stored. */
  function Excess(size: nat): uint64 {
    Wrap64(size - MAX_SENT)
  }

  /** How many packets the prune removes from the front. */
  function Removed(size: nat): (n: nat)
    ensures n <= size
    ensures size < TWO_64 ==> n == if size >= MAX_SENT then size - MAX_SENT else size
  {
    if Excess(size) < size then Excess(size) else size
  }

  function AckedCount(s: seq<PacketInfo>): (n: nat)
    ensures n <= |s|
  {
    if s == [] then 0 else AckedCount(s[..|s| - 1]) + (if s[|s| - 1].acknowledged then 1 else 0)
  }

  /** The summed round trips of the acknowledged packets. */
  function RoundTrips(s: seq<PacketInfo>): int {
    if s == [] then 0
    else RoundTrips(s[..|s| - 1]) + (if s[|s| - 1].acknowledged then s[|s| - 1].roundTripTime else 0)
  }

  datatype Pruned = Pruned(kept: seq<PacketInfo>, acknowledged: nat, lost: nat, roundTrips: int)

  function Prune(s: seq<PacketInfo>): Pruned {
    var n := Removed(|s|);
    Pruned(s[n..], AckedCount(s[..n]), n - AckedCount(s[..n]), RoundTrips(s[..n]))
  }

  /** The removal pass: a countdown decides, and every removed packet is counted once. */
  method PrunePackets(s: seq<PacketInfo>) returns (p: Pruned)
    ensures p == Prune(s)
  {
    var packetsToRemove := Excess(|s|);
    var kept, acknowledged, lost: nat, roundTrips := [], 0, 0, 0;
    ghost var n := Removed(|s|);
    for i := 0 to |s|
      invariant packetsToRemove == if i <= n then Excess(|s|) - i else 0
      invariant i <= n ==> kept == [] && acknowledged == AckedCount(s[..i])
                           && acknowledged + lost == i && roundTrips == RoundTrips(s[..i])
      invariant i > n ==> kept == s[n..i] && acknowledged == AckedCount(s[..n])
                          && acknowledged + lost == n && roundTrips == RoundTrips(s[..n])
    {
      assert s[..i + 1][..i] == s[..i];
      if packetsToRemove > 0 {
        packetsToRemove := packetsToRemove - 1;
        if s[i].acknowledged {
          acknowledged, roundTrips := acknowledged + 1, roundTrips + s[i].roundTripTime;
        } else {
          lost := lost + 1;
        }
      } else {
        kept := kept + [s[i]];
      }
    }
    p := Pruned(kept, acknowledged, lost, roundTrips);
  }

  /**
   Pruning removes a prefix and counts each removed packet once. With 33 packets or more it
   leaves the newest 33; with fewer it leaves none, because the size difference wraps. Either
   way the second block, which trims to 33 again, finds nothing to do.
   */
  lemma {:induction false} PruneMeaning(s: seq<PacketInfo>)
    requires |s| < TWO_64
    ensures var p := Prune(s);
            && s == s[..|s| - |p.kept|] + p.kept
            && p.acknowledged == AckedCount(s[..|s| - |p.kept|])
            && p.acknowledged + p.lost + |p.kept| == |s|
            && |p.kept| == (if |s| >= 33 then 33 else 0)
            && Newest(p.kept, MAX_SENT) == p.kept
  {
  }

  // ---------- the average round trip ----------

  /** The average in milliseconds, from ticks of a nanosecond; unchanged if nothing was acknowledged. */
  function AverageMs(previous: uint64, p: Pruned): uint64 {
    if p.acknowledged > 0 then Wrap64(Truncated(Truncated(p.roundTrips, p.acknowledged), 1000000)) else previous
  }

  /** Both sums can be taken from the front as well. */
  lemma {:induction false} SumsFromFront(p: PacketInfo, s: seq<PacketInfo>)
    ensures AckedCount([p] + s) == (if p.acknowledged then 1 else 0) + AckedCount(s)
    ensures RoundTrips([p] + s) == (if p.acknowledged then p.roundTripTime else 0) + RoundTrips(s)
  {
    if s == [] {
      assert [p] + s == [] + [p] && ([] + [p])[..0] == [];
    } else {
      var init := s[..|s| - 1];
      assert ([p] + s)[..|s|] == [p] + init;
      SumsFromFront(p, init);
    }
  }

  lemma {:induction false} NoneAcknowledged(s: seq<PacketInfo>)
    ensures AckedCount(s) == 0 <==> forall i :: 0 <= i < |s| ==> !s[i].acknowledged
  {
    if s == [] {
    } else {
      NoneAcknowledged(s[..|s| - 1]);
    }
  }

  /** The packets that pruning takes off the front. */
  function Front(s: seq<PacketInfo>): seq<PacketInfo> {
    s[..Removed(|s|)]
  }

  /**
   What becomes of the noted round trip when these packets are removed: it stays if none of
   them is acknowledged, and otherwise it is their summed round trips, divided by their
   number and by a million ticks a millisecond, rounded towards zero, in 64 bits.
   */
  ghost predicate Averages(front: seq<PacketInfo>, previous: uint64, after: uint64) {
    if forall i :: 0 <= i < |front| ==> !front[i].acknowledged then after == previous
    else exists q :: IsQuotient(RoundTrips(front), AckedCount(front) * 1000000, q) && after == Wrap64(q)
  }

  lemma {:induction false} AverageMeaning(s: seq<PacketInfo>, previous: uint64)
    ensures Averages(Front(s), previous, AverageMs(previous, Prune(s)))
  {
    var n, sum := AckedCount(Front(s)), RoundTrips(Front(s));
    NoneAcknowledged(Front(s));
    if n > 0 {
      var each, q := Truncated(sum, n), Truncated(Truncated(sum, n), 1000000);
      TruncatedIsQuotient(sum, n);
      TruncatedIsQuotient(each, 1000000);
      QuotientTwice(sum, n, 1000000, each, q);
      assert IsQuotient(RoundTrips(Front(s)), AckedCount(Front(s)) * 1000000, q);
    }
  }

  /** For a sum in range this is the whole number of milliseconds. */
  lemma {:induction false} AverageIsFloor(front: seq<PacketInfo>, previous: uint64, after: uint64)
    requires Averages(front, previous, after) && AckedCount(front) > 0
    requires 0 <= RoundTrips(front) < AckedCount(front) * 1000000 * TWO_64
    ensures AckedCount(front) * 1000000 * after <= RoundTrips(front) < AckedCount(front) * 1000000 * (after + 1)
  {
    NoneAcknowledged(front);
    var q :| IsQuotient(RoundTrips(front), AckedCount(front) * 1000000, q) && after == Wrap64(q);
    SameSign(RoundTrips(front), AckedCount(front) * 1000000, q);
    QuotientBelow(RoundTrips(front), AckedCount(front) * 1000000, q, TWO_64);
    assert after == q;
  }

  lemma {:induction false} SumBetween(s: seq<PacketInfo>, low: int, high: int)
    requires low <= high
    requires forall i :: 0 <= i < |s| && s[i].acknowledged ==> low <= s[i].roundTripTime <= high
    ensures AckedCount(s) * low <= RoundTrips(s) <= AckedCount(s) * high
  {
    if s == [] {
    } else {
      SumBetween(s[..|s| - 1], low, high);
      Times(AckedCount(s[..|s| - 1]), low, high);
    }
  }

  lemma MillisecondsBetween(ticks: int, n: nat, low: nat, high: nat)
    requires low <= high && n > 0 && n * (low * 1000000) <= ticks <= n * (high * 1000000)
    ensures low <= Truncated(Truncated(ticks, n), 1000000) <= high
  {
    TruncatedBetween(ticks, n, low * 1000000, high * 1000000);
  }

  /** The average lies between the shortest and the longest round trip it is taken over. */
  lemma {:induction false} AverageBetween(s: seq<PacketInfo>, previous: uint64, low: nat, high: uint64)
    requires low <= high && |s| < TWO_64 && Prune(s).acknowledged > 0
    requires forall i :: 0 <= i < |s| && s[i].acknowledged ==> low * 1000000 <= s[i].roundTripTime <= high * 1000000
    ensures low <= AverageMs(previous, Prune(s)) <= high
  {
    var p := Prune(s);
    SumBetween(s[..Removed(|s|)], low * 1000000, high * 1000000);
    MillisecondsBetween(p.roundTrips, p.acknowledged, low, high);
  }

  // ---------- the two steps ----------

  /** The state after a game-state packet with the right salt. */
  function ClientReceive(l: Link, h: Header, clock: seq<int>): Link
    requires |clock| == 32
  {
    var acked := Acknowledge(Arrive(l, h.seqNum), h.ack, h.ackBits, clock);
    acked.(sent := Newest(Prune(acked.sent).kept, MAX_SENT), received := Newest(acked.received, MAX_RECEIVED))
  }

  /** The round trip noted after such a packet. */
  function RoundTripAfter(previous: uint64, l: Link, h: Header, clock: seq<int>): uint64
    requires |clock| == 32
  {
    AverageMs(previous, Prune(Acknowledge(Arrive(l, h.seqNum), h.ack, h.ackBits, clock).sent))
  }

  /** The header of the next packet. The field is computed for the small remote number. */
  function NextHeader(l: Link): Header {
    Header(Small(Wrap64(l.localLarge + 1)), l.remoteSmall, AckField(l.received, l.remoteSmall))
  }

  class Client {
    var m_connectionSalt: uint64
    var m_localSequenceNumberLarge: uint64
    var m_localSequenceNumberSmall: uint16
    var m_remoteSequenceNumberLarge: uint64
    var m_remoteSequenceNumberSmall: uint16
    var m_sendPackets: seq<PacketInfo>
    var m_receivedPackets: seq<uint64>
    var m_roundTripTimeMs: uint64

    ghost function State(): Link
      reads this
    {
      Link(m_localSequenceNumberLarge, m_localSequenceNumberSmall,
           m_remoteSequenceNumberLarge, m_remoteSequenceNumberSmall, m_sendPackets, m_receivedPackets)
    }

    constructor (connectionSalt: uint64)
      ensures State() == NEW_LINK && m_connectionSalt == connectionSalt && m_roundTripTimeMs == 0
    {
      m_connectionSalt, m_roundTripTimeMs := connectionSalt, 0;
      m_localSequenceNumberLarge, m_localSequenceNumberSmall := 0, 0;
      m_remoteSequenceNumberLarge, m_remoteSequenceNumberSmall := 0, 0;
      m_sendPackets, m_receivedPackets := [], [];
    }

    method SendGameState(now: int) returns (h: Header)
      modifies this`m_localSequenceNumberLarge, this`m_localSequenceNumberSmall, this`m_sendPackets
      ensures State() == Depart(old(State()), now)
      ensures h == NextHeader(old(State()))
    {
      m_localSequenceNumberLarge := Wrap64(m_localSequenceNumberLarge + 1);
      m_localSequenceNumberSmall := Small(m_localSequenceNumberLarge);
      var ackBits := ComputeAckBits(m_receivedPackets, m_remoteSequenceNumberSmall);
      h := Header(m_localSequenceNumberSmall, m_remoteSequenceNumberSmall, ackBits);
      m_sendPackets := m_sendPackets + [PacketInfo(m_localSequenceNumberLarge, false, now, 0, 0)];
    }

    method ReceiveNumber(seqNum: uint16)
      modifies this`m_remoteSequenceNumberLarge, this`m_remoteSequenceNumberSmall, this`m_receivedPackets
      ensures State() == Arrive(old(State()), seqNum)
    {
      var diff := SequenceNumberDiff(m_remoteSequenceNumberSmall, seqNum);
      if diff > 0 {
        m_remoteSequenceNumberLarge := Wrap64(m_remoteSequenceNumberLarge + diff);
        m_remoteSequenceNumberSmall := seqNum;
        m_receivedPackets := m_receivedPackets + [m_remoteSequenceNumberLarge];
      }
    }

    method ReceiveAck(ack: uint16, ackBits: bv32, clock: seq<int>)
      requires |clock| == 32
      modifies this`m_sendPackets
      ensures State() == Acknowledge(old(State()), ack, ackBits, clock)
    {
      var diff := SequenceNumberDiff(m_localSequenceNumberSmall, ack);
      m_sendPackets := VerifyAck(m_sendPackets, Wrap64(m_localSequenceNumberLarge - diff), ackBits, clock);
    }

    method PruneLists()
      modifies this`m_sendPackets, this`m_receivedPackets, this`m_roundTripTimeMs
      ensures State() == old(State()).(sent := Newest(Prune(old(m_sendPackets)).kept, MAX_SENT),
                                       received := Newest(old(m_receivedPackets), MAX_RECEIVED))
      ensures m_roundTripTimeMs == AverageMs(old(m_roundTripTimeMs), Prune(old(m_sendPackets)))
      ensures Averages(Front(old(m_sendPackets)), old(m_roundTripTimeMs), m_roundTripTimeMs)
    {
      AverageMeaning(m_sendPackets, m_roundTripTimeMs);
      var p := PrunePackets(m_sendPackets);
      m_sendPackets := p.kept;
      if |m_sendPackets| > MAX_SENT {
        m_sendPackets := m_sendPackets[|m_sendPackets| - MAX_SENT..];
      }
      if p.acknowledged > 0 {
        m_roundTripTimeMs := Wrap64(Truncated(Truncated(p.roundTrips, p.acknowledged), 1000000));
      }
      if |m_receivedPackets| > MAX_RECEIVED {
        m_receivedPackets := m_receivedPackets[|m_receivedPackets| - MAX_RECEIVED..];
      }
    }

    method HandleGameState(connectionSalt: uint64, h: Header, clock: seq<int>) returns (handled: bool)
      requires |clock| == 32
      modifies this
      ensures handled <==> connectionSalt == old(m_connectionSalt)
      ensures State() == if handled then ClientReceive(old(State()), h, clock) else old(State())
      ensures m_roundTripTimeMs ==
              if handled then RoundTripAfter(old(m_roundTripTimeMs), old(State()), h, clock) else old(m_roundTripTimeMs)
      ensures handled ==> Averages(Front(Acknowledge(Arrive(old(State()), h.seqNum), h.ack, h.ackBits, clock).sent),
                                   old(m_roundTripTimeMs), m_roundTripTimeMs)
      ensures m_connectionSalt == old(m_connectionSalt)
    {
      handled := m_connectionSalt == connectionSalt;
      if handled {
        ReceiveNumber(h.seqNum);
        ReceiveAck(h.ack, h.ackBits, clock);
        ghost var acked := State();
        assert acked == Acknowledge(Arrive(old(State()), h.seqNum), h.ack, h.ackBits, clock);
        PruneLists();
        assert State() == acked.(sent := Newest(Prune(acked.sent).kept, MAX_SENT),
                                 received := Newest(acked.received, MAX_RECEIVED));
      }
    }
  }

  // ---------- every run ----------

  datatype Event = Send(now: int) | Receive(header: Header, clock: seq<int>)

  ghost predicate Timed(events: seq<Event>) {
    forall i :: 0 <= i < |events| && events[i].Receive? ==> |events[i].clock| == 32
  }

  /** A run's bookkeeping: the state, all that prunes have counted so far, every arrival. */
  datatype Record = Record(link: Link, acknowledged: nat, lost: nat, history: seq<uint64>)

  function RecordStep(r: Record, e: Event): Record
    requires e.Receive? ==> |e.clock| == 32
  {
    match e
    case Send(now) => r.(link := Depart(r.link, now))
    case Receive(h, clock) =>
      var p := Prune(Acknowledge(Arrive(r.link, h.seqNum), h.ack, h.ackBits, clock).sent);
      Record(ClientReceive(r.link, h, clock), r.acknowledged + p.acknowledged, r.lost + p.lost,
             HistoryAfter(r.link, r.history, h.seqNum))
  }

  function Run(events: seq<Event>): Record
    requires Timed(events)
  {
    if events == [] then Record(NEW_LINK, 0, 0, [])
    else RecordStep(Run(events[..|events| - 1]), events[|events| - 1])
  }

  /** The numbers run up to top without a gap. */
  ghost predicate EndsAt(nums: seq<uint64>, top: nat) {
    |nums| <= top && forall i :: 0 <= i < |nums| ==> nums[i] == top - |nums| + 1 + i
  }

  /** Every packet sent is stored, or was counted as acknowledged, or as lost, exactly once. */
  ghost predicate Accounted(r: Record) {
    && r.acknowledged + r.lost + |r.link.sent| == r.link.localLarge
    && EndsAt(SeqNums(r.link.sent), r.link.localLarge)
  }

  lemma {:induction false} SendKeeps(r: Record, now: int)
    requires Accounted(r) && r.link.localLarge + 1 < TWO_64
    ensures var next := RecordStep(r, Send(now));
            Accounted(next) && next.link.localLarge == r.link.localLarge + 1
  {
    assert Wrap64(r.link.localLarge + 1) == r.link.localLarge + 1;
  }

  lemma {:induction false} PruneKeeps(s: seq<PacketInfo>, top: uint64)
    requires EndsAt(SeqNums(s), top)
    ensures EndsAt(SeqNums(Newest(Prune(s).kept, MAX_SENT)), top)
    ensures Prune(s).acknowledged + Prune(s).lost + |Newest(Prune(s).kept, MAX_SENT)| == |s|
  {
    PruneMeaning(s);
  }

  lemma {:induction false} ReceiveKeeps(r: Record, h: Header, clock: seq<int>)
    requires |clock| == 32 && Accounted(r)
    ensures var next := RecordStep(r, Receive(h, clock));
            && Accounted(next) && next.link.localLarge == r.link.localLarge
            && |next.link.sent| == if |r.link.sent| >= MAX_SENT then MAX_SENT else 0
  {
    var acked := Acknowledge(Arrive(r.link, h.seqNum), h.ack, h.ackBits, clock);
    PruneKeeps(acked.sent, r.link.localLarge);
    PruneMeaning(acked.sent);
  }

  lemma {:induction false} ReceiveKeepsHistory(l: Link, history: seq<uint64>, h: Header, clock: seq<int>)
    requires |clock| == 32 && HistoryKept(MAX_RECEIVED, l.remoteLarge, l.received, history) && l.remoteLarge + TWO_16 < TWO_64
    ensures var next := ClientReceive(l, h, clock);
            && HistoryKept(MAX_RECEIVED, next.remoteLarge, next.received, HistoryAfter(l, history, h.seqNum))
            && next.remoteLarge <= l.remoteLarge + TWO_16
  {
    ArrivalKeepsHistory(MAX_RECEIVED, l, history, h.seqNum);
  }

  lemma {:induction false} ClientStepKeeps(r: Record, e: Event)
    requires e.Receive? ==> |e.clock| == 32
    requires Accounted(r) && HistoryKept(MAX_RECEIVED, r.link.remoteLarge, r.link.received, r.history)
    requires r.link.remoteLarge + TWO_16 < TWO_64 && r.link.localLarge + 1 < TWO_64
    ensures var next := RecordStep(r, e);
            && Accounted(next) && HistoryKept(MAX_RECEIVED, next.link.remoteLarge, next.link.received, next.history)
            && next.link.localLarge <= r.link.localLarge + 1 && next.link.remoteLarge <= r.link.remoteLarge + TWO_16
  {
    match e
    case Send(now) => SendKeeps(r, now);
    case Receive(h, clock) =>
      ReceiveKeeps(r, h, clock);
      ReceiveKeepsHistory(r.link, r.history, h, clock);
  }

  /**
   After any run, with arbitrary packets coming in: what was counted as acknowledged, what
   was counted as lost and what is stored add up to everything sent, the stored numbers end
   at the newest one without a gap, and the received list is the newest 33 of all arrivals.
   */
  lemma {:induction false} ClientKeeps(events: seq<Event>)
    requires Timed(events) && |events| < MAX_EVENTS
    ensures var r := Run(events);
            && Accounted(r) && HistoryKept(33, r.link.remoteLarge, r.link.received, r.history)
            && r.link.localLarge <= |events| && r.link.remoteLarge <= TWO_16 * |events|
    decreases |events|
  {
    if events == [] {
    } else {
      var init, e := events[..|events| - 1], events[|events| - 1];
      ClientKeeps(init);
      ClientStepKeeps(Run(init), e);
    }
  }

  // ---------- what the client's field reports ----------

  /** The list has the number k places before n. */
  predicate Before(received: seq<uint64>, n: uint64, k: nat) {
    n >= k && n - k in received
  }

  predicate SameBefore(received: seq<uint64>, m: uint64, n: uint64) {
    forall k: nat :: 1 <= k <= 32 ==> (Before(received, m, k) <==> Before(received, n, k))
  }

  /** Ascending, and below the numbers that counting down past zero runs through. */
  ghost predicate Countable(received: seq<uint64>) {
    Ascending(received) && (received != [] ==> received[|received| - 1] < TWO_64 - 32)
  }

  lemma {:induction false} FieldBit(received: seq<uint64>, n: uint64, k: nat)
    requires Countable(received) && 1 <= k <= 32
    ensures Bit(AckField(received, n), 32 - k) <==> Before(received, n, k)
  {
    AckFieldMeaning(received, n, 32 - k);
    if received != [] {
      LastIsGreatest(received);
      assert received[0] in received;
    }
  }

  lemma {:induction false} FieldsAgreeIff(received: seq<uint64>, m: uint64, n: uint64)
    requires Countable(received)
    ensures AckField(received, m) == AckField(received, n) <==> SameBefore(received, m, n)
  {
    var x, y := AckField(received, m), AckField(received, n);
    forall k: nat | 1 <= k <= 32
      ensures (Bit(x, 32 - k) <==> Before(received, m, k)) && (Bit(y, 32 - k) <==> Before(received, n, k))
    {
      FieldBit(received, m, k);
      FieldBit(received, n, k);
    }
    if SameBefore(received, m, n) {
      forall b: nat | b < 32 ensures Bit(x, b) <==> Bit(y, b) {
        assert Before(received, m, 32 - b) <==> Before(received, n, 32 - b);
      }
      SameBits(x, y);
    }
  }

  /**
   The client's field, computed for the small remote number, reports on all arrivals exactly
   when the 32 places before the small number look like those before the large one.
   */
  lemma {:induction false} FieldReportsHistoryIff(events: seq<Event>)
    requires Timed(events) && |events| < MAX_EVENTS
    ensures var r := Run(events);
            NextHeader(r.link).ackBits == AckField(r.history, r.link.remoteLarge) <==>
            SameBefore(r.link.received, r.link.remoteSmall, r.link.remoteLarge)
  {
    ClientKeeps(events);
    var r := Run(events);
    HistoryReports(MAX_RECEIVED, r.link.remoteLarge, r.link.received, r.history);
    ReceivedIsCountable(r.link.remoteLarge, r.link.received, r.history);
    FieldsAgreeIff(r.link.received, r.link.remoteSmall, r.link.remoteLarge);
  }

  lemma {:induction false} ReceivedIsCountable(remoteLarge: uint64, received: seq<uint64>, history: seq<uint64>)
    requires HistoryKept(MAX_RECEIVED, remoteLarge, received, history) && remoteLarge < TWO_64 - 32
    ensures Countable(received)
  {
    if history != [] {
      RisingIsAscending(history);
      NewestKeepsWindow(history, MAX_RECEIVED, remoteLarge);
      assert received[|received| - 1] == remoteLarge;
    }
  }

  /** The field goes empty exactly when nothing lies in the 32 places before the small number. */
  lemma {:induction false} FieldIsEmptyIff(l: Link)
    requires Countable(l.received)
    ensures NextHeader(l).ackBits == 0 <==>
            forall k: nat :: 1 <= k <= 32 ==> !Before(l.received, l.remoteSmall, k)
  {
    var field := AckField(l.received, l.remoteSmall);
    forall k: nat | 1 <= k <= 32
      ensures (Bit(field, 32 - k) <==> Before(l.received, l.remoteSmall, k)) && !Bit(0, 32 - k)
    {
      FieldBit(l.received, l.remoteSmall, k);
      NoBit(32 - k);
    }
    if forall k: nat :: 1 <= k <= 32 ==> !Before(l.received, l.remoteSmall, k) {
      forall b: nat | b < 32 ensures Bit(field, b) <==> Bit(0, b) {
        assert !Before(l.received, l.remoteSmall, 32 - b);
      }
      SameBits(field, 0);
    }
  }

  // ---------- a drifted client ----------

  lemma {:induction false} ReceiveCounts(l: Link, h: Header, clock: seq<int>)
    requires |clock| == 32 && l.remoteLarge + TWO_16 < TWO_64 && |l.received| < MAX_RECEIVED && Progress(l, h.seqNum) > 0
    ensures var next, n := ClientReceive(l, h, clock), l.remoteLarge + Progress(l, h.seqNum);
            next.remoteLarge == n && next.remoteSmall == h.seqNum && next.received == l.received + [n]
  {
    ArriveAdds(l, h.seqNum);
  }

  ghost predicate Heard(l: Link, large: uint64, small: uint16, received: seq<uint64>) {
    l.remoteLarge == large && l.remoteSmall == small && l.received == received
  }

  lemma {:induction false} Hears(l: Link, e: Event, large: uint64, small: uint16, received: seq<uint64>, d: uint16)
    requires e.Receive? && |e.clock| == 32 && Heard(l, large, small, received)
    requires SequenceNumberDiff(small, e.header.seqNum) == d > 0 && large + TWO_16 < TWO_64 && |received| < MAX_RECEIVED
    ensures Heard(ClientReceive(l, e.header, e.clock), large + d, e.header.seqNum, received + [large + d])
  {
    ReceiveCounts(l, e.header, e.clock);
  }

  lemma {:induction false} RunReceives(events: seq<Event>, e: Event)
    requires Timed(events) && e.Receive? && |e.clock| == 32
    ensures Timed(events + [e]) && Run(events + [e]).link == ClientReceive(Run(events).link, e.header, e.clock)
  {
    assert (events + [e])[..|events|] == events;
  }

  lemma {:induction false} RunHears(events: seq<Event>, e: Event, large: uint64, small: uint16, received: seq<uint64>,
                                    d: uint16)
    requires Timed(events) && e.Receive? && |e.clock| == 32 && Heard(Run(events).link, large, small, received)
    requires SequenceNumberDiff(small, e.header.seqNum) == d > 0 && large + TWO_16 < TWO_64 && |received| < MAX_RECEIVED
    ensures Timed(events + [e]) && Heard(Run(events + [e]).link, large + d, e.header.seqNum, received + [large + d])
  {
    RunReceives(events, e);
    Hears(Run(events).link, e, large, small, received, d);
  }

  /** A packet with this wire number and any acknowledgement. */
  predicate Carries(e: Event, seqNum: uint16) {
    e.Receive? && |e.clock| == 32 && e.header.seqNum == seqNum
  }

  /** The wire numbers 180, 30000, 60000 and 199 are the server's packets 180, 30000, 60000 and 65734. */
  lemma {:induction false} DriftingNumbers()
    ensures Small(180) == 180 && Small(30000) == 30000 && Small(60000) == 60000 && Small(65734) == 199
    ensures SequenceNumberDiff(0, 180) == 180 && SequenceNumberDiff(180, 30000) == 29820
    ensures SequenceNumberDiff(30000, 60000) == 30000 && SequenceNumberDiff(60000, 199) == 5735
  {
  }

  /**
   These four packets come in order, with gaps that can be bridged. They drift the numbers
   apart, and an old entry lies where the small number now points.
   */
  lemma {:induction false} DriftingRun(a: Event, b: Event, c: Event, d: Event)
    requires Carries(a, Small(180)) && Carries(b, Small(30000)) && Carries(c, Small(60000)) && Carries(d, Small(65734))
    ensures var events := [] + [a] + [b] + [c] + [d];
            Timed(events) && Heard(Run(events).link, 65735, 199, [] + [180] + [30000] + [60000] + [65735])
  {
    DriftingNumbers();
    assert Timed([]) && Heard(Run([]).link, 0, 0, []);
    RunHears([], a, 0, 0, [], 180);
    RunHears([] + [a], b, 180, 180, [] + [180], 29820);
    RunHears([] + [a] + [b], c, 30000, 30000, [] + [180] + [30000], 30000);
    RunHears([] + [a] + [b] + [c], d, 60000, 60000, [] + [180] + [30000] + [60000], 5735);
  }

  lemma {:induction false} DriftedField(l: Link, received: seq<uint64>)
    requires Heard(l, 65735, 199, received) && Countable(received) && 180 in received
    ensures NextHeader(l).ack == 199 && Bit(NextHeader(l).ackBits, 13)
  {
    FieldBit(received, 199, 19);
  }

  lemma {:induction false} DriftedListIsCountable()
    ensures Countable([] + [180] + [30000] + [60000] + [65735])
  {
    var list: seq<uint64> := [] + [180] + [30000] + [60000] + [65735];
    assert Rising([180]);
    RisingAppend([180], 30000);
    RisingAppend([180, 30000], 60000);
    RisingAppend([180, 30000, 60000], 65735);
    assert list == [180, 30000, 60000] + [65735];
    RisingIsAscending(list);
  }

  /** The field then sets bit 13: for the server that is packet 65715, which was never received. */
  lemma {:induction false} DriftedFieldMisreports(a: Event, b: Event, c: Event, d: Event)
    requires Carries(a, Small(180)) && Carries(b, Small(30000)) && Carries(c, Small(60000)) && Carries(d, Small(65734))
    ensures var events := [] + [a] + [b] + [c] + [d];
            Timed(events) && NextHeader(Run(events).link).ack == Small(65734) && Bit(NextHeader(Run(events).link).ackBits, 13)
  {
    var events := [] + [a] + [b] + [c] + [d];
    var list: seq<uint64> := [] + [180] + [30000] + [60000] + [65735];
    DriftingNumbers();
    DriftingRun(a, b, c, d);
    DriftedListIsCountable();
    assert 180 in list;
    DriftedField(Run(events).link, list);
  }
}
