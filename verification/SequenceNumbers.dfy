/**
 Sequence numbers. A sender counts in 64 bits and puts its count modulo 65535 on the wire;
 a receiver rebuilds a 64-bit count from 16-bit differences taken modulo 65536.
 */
module SequenceNumbers {

  const SEQUENCE_NUMBER_MAX := 65535
  const SEQUENCE_NUMBER_HALF := 32768
  const TWO_16 := 0x1_0000
  const TWO_64 := 0x1_0000_0000_0000_0000

  type uint16 = n: nat | n < TWO_16
  type uint64 = n: nat | n < TWO_64

  /** Conversions to the machine types wrap (2^16 and 2^64, spelled out for the arithmetic). */
  function Wrap16(n: int): uint16 { n % 0x1_0000 }
  function Wrap64(n: int): uint64 { n % 0x1_0000_0000_0000_0000 }

  /** x-- on an unsigned 64-bit number. */
  function Decrement(x: uint64): uint64 { if x == 0 then TWO_64 - 1 else x - 1 }

  /** What a sender puts on the wire for its count. */
  function Small(large: nat): uint16 { large % 65535 }

  function SequenceNumberDiff(previous: uint16, next: uint16): uint16 {
    if previous > next && previous - next <= SEQUENCE_NUMBER_HALF then
      Wrap16(previous - next)
    else if previous < next && next - previous > SEQUENCE_NUMBER_HALF then
      Wrap16(next - previous)
    else
      Wrap16(next - previous)
  }

  /**
   The result is the forward distance modulo 65536 exactly when the step is forward or
   wraps by at least half the range; a shorter backward step is folded into a positive
   distance, so no step is ever negative and only a repeat is zero.
   */
  lemma {:induction false} DiffMeaning(previous: uint16, next: uint16)
    ensures SequenceNumberDiff(previous, next) == Wrap16(next - previous)
            <==> previous <= next || previous - next >= SEQUENCE_NUMBER_HALF
    ensures next < previous < next + SEQUENCE_NUMBER_HALF ==>
              SequenceNumberDiff(previous, next) == previous - next
    ensures SequenceNumberDiff(previous, next) == 0 <==> previous == next
  {
  }

  // ---------- rebuilding the sender's count ----------

  /** The receiver's pair of remote sequence numbers. */
  datatype Remote = Remote(large: uint64, small: uint16)

  /** Both handlers advance by the difference, unless it is zero. */
  function Advance(r: Remote, seqNum: uint16): Remote {
    var diff := SequenceNumberDiff(r.small, seqNum);
    if diff > 0 then Remote(Wrap64(r.large + diff), seqNum) else r
  }

  /** Each wrap of the sender's wire number costs the receiver one extra count. */
  function Drifted(large: nat): nat {
    large + large / 65535
  }

  ghost predicate Tracks(r: Remote, senderLarge: nat) {
    r.large == Drifted(senderLarge) && r.small == Small(senderLarge)
  }

  /** A tracking receiver's two numbers agree modulo 65536, not modulo 65535. */
  lemma {:induction false} TracksModulo(r: Remote, senderLarge: nat)
    requires Tracks(r, senderLarge)
    ensures r.large % 0x1_0000 == r.small
    ensures r.large == senderLarge <==> senderLarge < SEQUENCE_NUMBER_MAX
  {
  }

  /** A gap that a receiver can bridge. */
  predicate Bridgeable(from: nat, to: nat) {
    from / 65535 == to / 65535 || to - from <= 32767
  }

  /**
   One later packet keeps the receiver in step exactly when it does not cross a wrap of
   the wire number, or skips at most 32766 packets while crossing it.
   */
  lemma {:induction false} AdvanceTracksIff(r: Remote, from: nat, to: nat)
    requires Tracks(r, from) && from < to && Drifted(to) < TWO_64
    ensures Tracks(Advance(r, Small(to)), to) <==> Bridgeable(from, to)
  {
    StepIsExactIff(from, to);
    AdvanceAdds(r, Small(to), Drifted(to));
  }

  /** Short of the 64-bit range, advancing adds the difference. */
  lemma {:induction false} AdvanceAdds(r: Remote, seqNum: uint16, target: uint64)
    requires r.large < target
    ensures Advance(r, seqNum) == Remote(target, seqNum) <==> r.large + SequenceNumberDiff(r.small, seqNum) == target
  {
    DiffMeaning(r.small, seqNum);
  }

  /** The wire difference is the growth of the drifted count, under the same condition. */
  lemma {:induction false} StepIsExactIff(from: nat, to: nat)
    requires from < to
    ensures SequenceNumberDiff(Small(from), Small(to)) == Drifted(to) - Drifted(from) <==> Bridgeable(from, to)
    ensures Drifted(from) < Drifted(to)
  {
    var q, s := from / 65535, from % 65535;
    var q', s' := to / 65535, to % 65535;
    assert from == 65535 * q + s && to == 65535 * q' + s' && q <= q';
    DiffMeaning(s, s');
    if q' > q + 1 {
      assert Drifted(to) - Drifted(from) > TWO_16;
    }
  }

  lemma {:induction false} RepeatTracks(r: Remote, senderLarge: nat)
    requires Tracks(r, senderLarge)
    ensures Advance(r, Small(senderLarge)) == r
  {
  }

  function AdvanceAll(r: Remote, stream: seq<nat>): Remote {
    if stream == [] then r else Advance(AdvanceAll(r, stream[..|stream| - 1]), Small(stream[|stream| - 1]))
  }

  /** The newest packet of a stream; counting starts after zero. */
  function Last(stream: seq<nat>): nat {
    if stream == [] then 0 else stream[|stream| - 1]
  }

  /** In order, with repeats. */
  ghost predicate InOrder(stream: seq<nat>) {
    stream == [] || (InOrder(stream[..|stream| - 1]) && Last(stream[..|stream| - 1]) <= Last(stream))
  }

  ghost predicate AllBridgeable(stream: seq<nat>) {
    stream == [] ||
    (AllBridgeable(stream[..|stream| - 1]) && Bridgeable(Last(stream[..|stream| - 1]), Last(stream)))
  }

  ghost predicate TracksThroughout(stream: seq<nat>) {
    && Tracks(AdvanceAll(Remote(0, 0), stream), Last(stream))
    && (stream == [] || TracksThroughout(stream[..|stream| - 1]))
  }

  lemma {:induction false} StepTracksIff(r: Remote, from: nat, to: nat)
    requires Tracks(r, from) && from <= to && Drifted(to) < TWO_64
    ensures Tracks(Advance(r, Small(to)), to) <==> Bridgeable(from, to)
  {
    if from == to {
      RepeatTracks(r, to);
    } else {
      AdvanceTracksIff(r, from, to);
    }
  }

  lemma {:induction false} DriftedGrows(from: nat, to: nat)
    requires from <= to
    ensures Drifted(from) <= Drifted(to)
  {
  }

  /**
   Over an in-order stream the receiver holds the sender's count plus its wraps after every
   packet, exactly when every gap can be bridged.
   */
  lemma {:induction false} StreamTracksIff(stream: seq<nat>)
    requires InOrder(stream) && Drifted(Last(stream)) < TWO_64
    ensures TracksThroughout(stream) <==> AllBridgeable(stream)
  {
    if stream == [] {
    } else {
      var init := stream[..|stream| - 1];
      DriftedGrows(Last(init), Last(stream));
      StreamTracksIff(init);
      if TracksThroughout(init) {
        StepTracksIff(AdvanceAll(Remote(0, 0), init), Last(init), Last(stream));
      }
    }
  }

  /** A packet overtaken by a later one moves the receiver forward instead of being dropped. */
  lemma {:induction false} LatePacketAdvances(r: Remote, seqNum: uint16)
    requires seqNum < r.small
    ensures Advance(r, seqNum) ==
            var back := r.small - seqNum;
            Remote(Wrap64(r.large + (if back <= SEQUENCE_NUMBER_HALF then back else TWO_16 - back)), seqNum)
  {
  }

  // ---------- translating an acknowledgement ----------

  /** The 64-bit count a handler takes an acknowledgement to mean. */
  function TranslateAck(localLarge: uint64, localSmall: uint16, ack: uint16): uint64 {
    Wrap64(localLarge - SequenceNumberDiff(localSmall, ack))
  }

  /**
   The packet that an acknowledgement of acked is taken for: acked itself, or a later one if
   it comes too late, or another one if a wrap lies in between.
   */
  function Taken(sent: nat, acked: nat): (taken: int)
    ensures acked <= sent < acked + SEQUENCE_NUMBER_MAX ==> 0 <= taken <= sent
    ensures acked <= sent ==>
              (taken == acked <==> sent / 65535 == acked / 65535 && sent - acked <= SEQUENCE_NUMBER_HALF)
  {
    if sent / 65535 != acked / 65535 then sent - SEQUENCE_NUMBER_MAX + (sent - acked)
    else if sent - acked <= SEQUENCE_NUMBER_HALF then acked
    else sent - TWO_16 + (sent - acked)
  }

  /** Within a round of the wire number, and across one wrap. */
  lemma {:induction false} BackwardDiff(s: uint16, s': uint16)
    ensures s' <= s ==> SequenceNumberDiff(s, s') == if s - s' <= SEQUENCE_NUMBER_HALF then s - s' else TWO_16 - (s - s')
    ensures s < s' ==> SequenceNumberDiff(s, s') == s' - s
  {
    DiffMeaning(s, s');
  }

  /** What the handlers make of every acknowledgement that lags by less than a whole round. */
  lemma {:induction false} TranslateAckIs(sent: uint64, acked: uint64)
    requires acked <= sent < acked + SEQUENCE_NUMBER_MAX
    ensures TranslateAck(sent, Small(sent), Small(acked)) == Taken(sent, acked)
  {
    var s, s' := Small(sent), Small(acked);
    BackwardDiff(s, s');
    Rounds(sent, acked);
    SubtractIs(sent, SequenceNumberDiff(s, s'), Taken(sent, acked));
  }

  lemma {:induction false} Rounds(sent: nat, acked: nat)
    requires acked <= sent < acked + SEQUENCE_NUMBER_MAX
    ensures sent / 65535 == acked / 65535 ==> Small(acked) <= Small(sent) && Small(sent) - Small(acked) == sent - acked
    ensures sent / 65535 != acked / 65535 ==>
              Small(sent) < Small(acked) && Small(acked) - Small(sent) == SEQUENCE_NUMBER_MAX - (sent - acked)
  {
    var q, s := sent / 65535, sent % 65535;
    var q', s' := acked / 65535, acked % 65535;
    assert sent == 65535 * q + s && acked == 65535 * q' + s';
    assert q == q' || q == q' + 1;
  }

  /**
   The acknowledged count is recovered exactly when no wrap of the wire number lies between
   it and the newest sent packet, and it lags by at most 32768.
   */
  lemma {:induction false} TranslateAckIff(sent: uint64, acked: uint64)
    requires acked <= sent
    ensures TranslateAck(sent, Small(sent), Small(acked)) == acked <==>
            sent / 65535 == acked / 65535 && sent - acked <= SEQUENCE_NUMBER_HALF
  {
    if sent < acked + SEQUENCE_NUMBER_MAX {
      TranslateAckIs(sent, acked);
    } else {
      BackwardDiff(Small(sent), Small(acked));
      SubtractIs(sent, SequenceNumberDiff(Small(sent), Small(acked)), acked);
    }
  }

  lemma {:induction false} SubtractIs(n: uint64, d: uint16, m: uint64)
    requires m <= n
    ensures Wrap64(n - d) == m <==> n - d == m
  {
  }

}
