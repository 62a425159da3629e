/**
 The 32-bit acknowledgement field. A receiver packs the packets before ack into it with a
 two-index scan (ComputeAckBits), a sender unpacks it against the packets it has stored
 (VerifyAck) or into a list of numbers (StoreAcks). Bit b speaks of packet ack - 32 + b.
 */
module AckBits {
  import opened Bits
  import opened SequenceNumbers

  /** A packet that was sent: PacketInfo.h. Time points and durations are clock ticks. */
  datatype PacketInfo = PacketInfo(
    seqNum: uint64, acknowledged: bool, sendTicks: int, receiveTicks: int, roundTripTime: int)

  ghost predicate Ascending(data: seq<uint64>) {
    forall i, j :: 0 <= i < j < |data| ==> data[i] < data[j]
  }

  // ---------- the scan as a function ----------

  /** The inner loop: step down while the entry is above the expected number. */
  function ScanDown(data: seq<uint64>, idx: nat, expected: uint64): (i: nat)
    requires idx < |data|
    ensures i <= idx
    ensures i == 0 || data[i] <= expected
    ensures forall j :: i < j <= idx ==> data[j] > expected
  {
    if idx > 0 && data[idx] > expected then ScanDown(data, idx - 1, expected) else idx
  }

  /** One step of the outer loop: note a hit. */
  function Noted(bits: bv32, k: nat, hit: bool): bv32
    requires k < 32
  {
    if hit then WithBit(bits, 31 - k) else bits
  }

  lemma {:induction false} NotedBit(bits: bv32, k: nat, hit: bool, b: nat)
    requires k < 32 && b < 32
    ensures Bit(Noted(bits, k, hit), b) <==> Bit(bits, b) || (hit && b == 31 - k)
  {
    SetBit(bits, 31 - k, b);
  }

  /** The outer loop from its k-th iteration on, with the bits collected so far. */
  function ScanFrom(data: seq<uint64>, idx: nat, expected: uint64, k: nat, bits: bv32): bv32
    requires idx < |data| && k <= 32
    decreases 32 - k, data
  {
    if k == 32 then bits
    else
      var i := ScanDown(data, idx, expected);
      ScanFrom(data, i, Decrement(expected), k + 1, Noted(bits, k, data[i] == expected))
  }

  function AckField(data: seq<uint64>, ack: uint64): bv32 {
    if data == [] then 0 else ScanFrom(data, |data| - 1, Decrement(ack), 0, 0)
  }

  // ---------- what the scan computes ----------

  /** The number that bit b speaks of: ack - 32 + b in 64 bits. */
  function Spoken(ack: uint64, b: nat): (n: uint64)
    requires b < 32
    ensures n == Wrap64(ack - 32 + b)
  {
    if ack + b >= 32 then ack + b - 32 else TWO_64 + ack + b - 32
  }

  /** Counting down from ack runs below zero at this bit and goes on at the top of the range. */
  predicate Underflows(ack: uint64, b: nat) {
    0 < ack && ack + b < 32
  }

  /**
   When bit b is set: membership, except that after an underflow the scan has reached the
   first entry and looks at nothing else.
   */
  predicate Reported(data: seq<uint64>, ack: uint64, b: nat)
    requires b < 32
  {
    if data != [] && Underflows(ack, b) then data[0] == Spoken(ack, b) else Spoken(ack, b) in data
  }

  ghost predicate ScanReady(data: seq<uint64>, idx: nat, ack: uint64, k: nat)
    requires idx < |data|
  {
    if 0 < ack <= k then idx == 0
    else k < 32 ==> forall j :: idx < j < |data| ==> data[j] > Spoken(ack, 31 - k)
  }

  lemma {:induction false} ScanStep(data: seq<uint64>, idx: nat, ack: uint64, k: nat)
    requires Ascending(data) && idx < |data| && k < 32 && ScanReady(data, idx, ack, k)
    ensures var i := ScanDown(data, idx, Spoken(ack, 31 - k));
            && ScanReady(data, i, ack, k + 1)
            && (data[i] == Spoken(ack, 31 - k) <==> Reported(data, ack, 31 - k))
  {
  }

  lemma {:induction false} AtLeastIndex(data: seq<uint64>, i: nat)
    requires Ascending(data) && i < |data|
    ensures data[i] >= i
  {
    if i == 0 {
    } else {
      AtLeastIndex(data, i - 1);
    }
  }

  lemma {:induction false} ScanMeaning(data: seq<uint64>, idx: nat, expected: uint64, ack: uint64, k: nat, bits: bv32, b: nat)
    requires Ascending(data) && idx < |data| && k <= 32 && ScanReady(data, idx, ack, k) && b < 32
    requires k < 32 ==> expected == Spoken(ack, 31 - k)
    ensures Bit(ScanFrom(data, idx, expected, k, bits), b) <==> Bit(bits, b) || (b + k < 32 && Reported(data, ack, b))
    decreases 32 - k
  {
    if k == 32 {
    } else {
      var i := ScanDown(data, idx, expected);
      var next := Noted(bits, k, data[i] == expected);
      ScanStep(data, idx, ack, k);
      NotedBit(bits, k, data[i] == expected, b);
      ScanMeaning(data, i, Decrement(expected), ack, k + 1, next, b);
    }
  }

  /** On an ascending list the scan reports exactly this. */
  lemma {:induction false} AckFieldMeaning(data: seq<uint64>, ack: uint64, b: nat)
    requires Ascending(data) && b < 32
    ensures Bit(AckField(data, ack), b) <==> Reported(data, ack, b)
  {
    NoBit(b);
    if data != [] {
      ScanMeaning(data, |data| - 1, Decrement(ack), ack, 0, 0, b);
    }
  }

  /** No entry can be hidden by an underflow. */
  predicate NothingHidden(data: seq<uint64>, ack: uint64) {
    ack == 0 || ack >= 32 || |data| <= 1 || data[|data| - 1] < TWO_64 - (32 - ack)
  }

  lemma {:induction false} ReportedIsMembershipIff(data: seq<uint64>, ack: uint64)
    requires Ascending(data)
    ensures (forall b: nat :: b < 32 ==> (Reported(data, ack, b) <==> Spoken(ack, b) in data)) <==> NothingHidden(data, ack)
  {
    if !NothingHidden(data, ack) {
      var top := data[|data| - 1];
      var b := top - (TWO_64 - (32 - ack));
      assert Spoken(ack, b) == top && data[0] < top;
      assert !Reported(data, ack, b) && Spoken(ack, b) in data;
    }
  }

  /**
   Scan equals membership, at every bit, exactly when no underflow can hide an entry: ack
   is zero or at least 32, or the list has at most one entry, or it stays below the numbers
   that the underflow runs through.
   */
  lemma {:induction false} ScanIsMembershipIff(data: seq<uint64>, ack: uint64)
    requires Ascending(data)
    ensures (forall b: nat :: b < 32 ==> (Bit(AckField(data, ack), b) <==> Spoken(ack, b) in data))
            <==> NothingHidden(data, ack)
  {
    ReportedBits(data, ack);
    ReportedIsMembershipIff(data, ack);
  }

  lemma {:induction false} ReportedBits(data: seq<uint64>, ack: uint64)
    requires Ascending(data)
    ensures forall b: nat :: b < 32 ==> (Bit(AckField(data, ack), b) <==> Reported(data, ack, b))
  {
    forall b: nat | b < 32 ensures Bit(AckField(data, ack), b) <==> Reported(data, ack, b) {
      AckFieldMeaning(data, ack, b);
    }
  }

  method ComputeAckBits(data: seq<uint64>, ack: uint64) returns (ackBits: bv32)
    ensures ackBits == AckField(data, ack)
    ensures Ascending(data) ==> forall b: nat :: b < 32 ==> (Bit(ackBits, b) <==> Reported(data, ack, b))
  {
    ackBits := 0;
    if data != [] {
      var idx: nat := |data| - 1;
      var expected := Decrement(ack);
      var bit := 31;
      while bit >= 0
        invariant -1 <= bit <= 31 && idx < |data|
        invariant ScanFrom(data, idx, expected, 31 - bit, ackBits) == AckField(data, ack)
      {
        ghost var start := idx;
        while idx > 0 && data[idx] > expected
          invariant idx < |data| && ScanDown(data, idx, expected) == ScanDown(data, start, expected)
        {
          idx := idx - 1;
        }
        ghost var noted := Noted(ackBits, 31 - bit, data[idx] == expected);
        if data[idx] == expected {
          ackBits := WithBit(ackBits, bit);
        }
        assert ackBits == noted;
        bit, expected := bit - 1, Decrement(expected);
      }
    }
    if Ascending(data) {
      ReportedBits(data, ack);
    }
  }

  // ---------- unpacking at the sender ----------

  function SeqNums(data: seq<PacketInfo>): (n: seq<uint64>)
    ensures |n| == |data| && forall i :: 0 <= i < |n| ==> n[i] == data[i].seqNum
  {
    seq(|data|, i requires 0 <= i < |data| => data[i].seqNum)
  }

  /** First acknowledgement: remember when, and how long it took. */
  function Confirm(p: PacketInfo, now: int): PacketInfo {
    p.(acknowledged := true, receiveTicks := now, roundTripTime := now - p.sendTicks)
  }

  /** The loop of VerifyAck from its k-th iteration on; clock[k] is the time read there. */
  function VerifyFrom(data: seq<PacketInfo>, idx: nat, expected: uint64, isAck: bool, flags: seq<bool>, clock: seq<int>,
                      k: nat): (r: seq<PacketInfo>)
    requires idx < |data| && k <= 32 && |flags| == |clock| == 32
    ensures SeqNums(r) == SeqNums(data)
    decreases 32 - k, data
  {
    if k == 32 then data
    else
      var i := ScanDown(SeqNums(data), idx, expected);
      VerifyFrom(Touch(data, i, expected, isAck, clock[k]), i, Decrement(expected), flags[31 - k], flags, clock, k + 1)
  }

  /** The body of the loop once the entry is found. */
  function Touch(data: seq<PacketInfo>, i: nat, expected: uint64, isAck: bool, now: int): (r: seq<PacketInfo>)
    requires i < |data|
    ensures SeqNums(r) == SeqNums(data)
  {
    if data[i].seqNum == expected && !data[i].acknowledged && isAck then data[i := Confirm(data[i], now)] else data
  }

  function Verified(data: seq<PacketInfo>, ack: uint64, ackBits: bv32, clock: seq<int>): (r: seq<PacketInfo>)
    requires |clock| == 32
    ensures SeqNums(r) == SeqNums(data)
  {
    if data == [] then data else VerifyFrom(data, |data| - 1, ack, true, Flags(ackBits), clock, 0)
  }

  /** How far n lies before ack, counting down in 64 bits. */
  function Back(ack: uint64, n: uint64): (k: uint64)
    ensures k == Wrap64(ack - n)
  {
    if n <= ack then ack - n else TWO_64 + ack - n
  }

  /** The numbers that an acknowledgement speaks for: ack itself, and the set bits 31 to 1. */
  predicate Claims(ack: uint64, flags: seq<bool>, n: uint64)
    requires |flags| == 32
  {
    n <= ack < n + 32 && (n == ack || flags[32 - (ack - n)])
  }

  /** After an underflow the scan has reached the first entry and looks at nothing else. */
  predicate ClaimsFirst(ack: uint64, flags: seq<bool>, n: uint64)
    requires |flags| == 32
  {
    n > ack && Back(ack, n) < 32 && flags[32 - Back(ack, n)]
  }

  /** What one entry becomes if only the iterations from k on are still to come. */
  function Outcome(p: PacketInfo, first: bool, ack: uint64, flags: seq<bool>, clock: seq<int>, k: nat): PacketInfo
    requires |flags| == |clock| == 32
  {
    if !p.acknowledged && k <= Back(ack, p.seqNum)
       && (Claims(ack, flags, p.seqNum) || (first && ClaimsFirst(ack, flags, p.seqNum)))
    then Confirm(p, clock[Back(ack, p.seqNum)]) else p
  }

  ghost predicate VerifyReady(nums: seq<uint64>, idx: nat, ack: uint64, k: nat, expected: uint64)
    requires idx < |nums|
  {
    && expected == (if k <= ack then ack - k else TWO_64 + ack - k)
    && if k <= ack then forall j :: idx < j < |nums| ==> nums[j] > expected else idx == 0
  }

  /** The number of entry j is looked for in exactly one iteration, if at all. */
  predicate Due(n: uint64, first: bool, ack: uint64, k: nat) {
    Back(ack, n) == k && (n <= ack || first)
  }

  lemma {:induction false} HitIsTheNumber(nums: seq<uint64>, idx: nat, ack: uint64, k: nat, expected: uint64, j: nat)
    requires Ascending(nums) && idx < |nums| && j < |nums| && k < 32
    requires VerifyReady(nums, idx, ack, k, expected)
    ensures var i := ScanDown(nums, idx, expected);
            && (j == i && nums[i] == expected <==> Due(nums[j], j == 0, ack, k))
            && (k < 31 ==> VerifyReady(nums, i, ack, k + 1, Decrement(expected)))
  {
    var i := ScanDown(nums, idx, expected);
    if j < i {
      assert nums[j] < nums[i];
    } else if i < j {
      assert nums[i] < nums[j];
    }
    if i > 0 {
      assert nums[0] < nums[i];
    }
  }

  lemma {:induction false} TouchOutcome(p: PacketInfo, first: bool, isAck: bool, ack: uint64, flags: seq<bool>,
                                        clock: seq<int>, k: nat)
    requires k < 32 && |flags| == |clock| == 32
    requires isAck == (k == 0 || flags[32 - k])
    ensures Outcome(if Due(p.seqNum, first, ack, k) && !p.acknowledged && isAck then Confirm(p, clock[k]) else p,
                    first, ack, flags, clock, k + 1)
         == Outcome(p, first, ack, flags, clock, k)
  {
  }

  /** One iteration, seen from entry j: it acts on the entry exactly when its number is due. */
  lemma {:induction false} VerifyStep(data: seq<PacketInfo>, idx: nat, expected: uint64, isAck: bool, ack: uint64,
                                      flags: seq<bool>, clock: seq<int>, k: nat, j: nat)
    requires idx < |data| && j < |data| && k < 32 && |flags| == |clock| == 32 && Ascending(SeqNums(data))
    requires VerifyReady(SeqNums(data), idx, ack, k, expected) && isAck == (k == 0 || flags[32 - k])
    ensures var i := ScanDown(SeqNums(data), idx, expected);
            var next := Touch(data, i, expected, isAck, clock[k]);
            && (k < 31 ==> VerifyReady(SeqNums(next), i, ack, k + 1, Decrement(expected)))
            && Outcome(next[j], j == 0, ack, flags, clock, k + 1) == Outcome(data[j], j == 0, ack, flags, clock, k)
  {
    HitIsTheNumber(SeqNums(data), idx, ack, k, expected, j);
    TouchOutcome(data[j], j == 0, isAck, ack, flags, clock, k);
  }

  lemma {:induction false} VerifyMeaning(data: seq<PacketInfo>, idx: nat, expected: uint64, isAck: bool, ack: uint64,
                                         flags: seq<bool>, clock: seq<int>, k: nat, j: nat)
    requires idx < |data| && j < |data| && k <= 32 && |flags| == |clock| == 32 && Ascending(SeqNums(data))
    requires k < 32 ==> VerifyReady(SeqNums(data), idx, ack, k, expected) && isAck == (k == 0 || flags[32 - k])
    ensures VerifyFrom(data, idx, expected, isAck, flags, clock, k)[j] == Outcome(data[j], j == 0, ack, flags, clock, k)
    decreases 32 - k
  {
    if k == 32 {
    } else {
      var i := ScanDown(SeqNums(data), idx, expected);
      var next := Touch(data, i, expected, isAck, clock[k]);
      VerifyStep(data, idx, expected, isAck, ack, flags, clock, k, j);
      VerifyMeaning(next, i, Decrement(expected), flags[31 - k], ack, flags, clock, k + 1, j);
    }
  }

  /**
   On an ascending list, the entries that the acknowledgement claims and that were not
   acknowledged before are stamped with the time of their iteration and with the ticks that
   have passed since they were sent; nothing else changes. Counting down past
   zero goes on at the top of the range, and there only the first entry is looked at.
   */
  lemma {:induction false} VerifiedMeaning(data: seq<PacketInfo>, ack: uint64, ackBits: bv32, clock: seq<int>, j: nat)
    requires j < |data| && |clock| == 32 && Ascending(SeqNums(data))
    ensures var p, flags := data[j], Flags(ackBits);
            Verified(data, ack, ackBits, clock)[j] ==
            if !p.acknowledged && (Claims(ack, flags, p.seqNum) || (j == 0 && ClaimsFirst(ack, flags, p.seqNum)))
            then
              var now := clock[Back(ack, p.seqNum)];
              PacketInfo(p.seqNum, true, p.sendTicks, now, now - p.sendTicks)
            else p
  {
    VerifyMeaning(data, |data| - 1, ack, true, ack, Flags(ackBits), clock, 0, j);
  }

  /** What entry j has become: as it was, or acknowledged now for the first time. */
  ghost predicate Stamped(data: seq<PacketInfo>, ack: uint64, ackBits: bv32, clock: seq<int>, j: nat, r: PacketInfo)
    requires j < |data| && |clock| == 32
  {
    var p, flags := data[j], Flags(ackBits);
    if !p.acknowledged && (Claims(ack, flags, p.seqNum) || (j == 0 && ClaimsFirst(ack, flags, p.seqNum))) then
      && r.acknowledged && r.seqNum == p.seqNum && r.sendTicks == p.sendTicks
      && r.receiveTicks == clock[Back(ack, p.seqNum)] && r.roundTripTime == r.receiveTicks - r.sendTicks
    else
      r == p
  }

  ghost predicate AllStamped(data: seq<PacketInfo>, ack: uint64, ackBits: bv32, clock: seq<int>, r: seq<PacketInfo>)
    requires |clock| == 32
  {
    |r| == |data| && forall j :: 0 <= j < |data| ==> Stamped(data, ack, ackBits, clock, j, r[j])
  }

  lemma {:induction false} VerifiedStamps(data: seq<PacketInfo>, ack: uint64, ackBits: bv32, clock: seq<int>)
    requires |clock| == 32 && Ascending(SeqNums(data))
    ensures AllStamped(data, ack, ackBits, clock, Verified(data, ack, ackBits, clock))
  {
    var r := Verified(data, ack, ackBits, clock);
    assert |SeqNums(r)| == |r|;
    forall j | 0 <= j < |data| ensures Stamped(data, ack, ackBits, clock, j, r[j]) {
      VerifiedMeaning(data, ack, ackBits, clock, j);
    }
  }

  /** (ackBits & (1u << bit)) != 0 */
  method TestFlag(ackBits: bv32, bit: nat) returns (isSet: bool)
    requires bit < 32
    ensures isSet == Flags(ackBits)[bit]
  {
    isSet := HasBit(ackBits, bit);
  }

  /** One iteration: step down to the expected number, and confirm the entry that has it. */
  method Visit(data: seq<PacketInfo>, from: nat, expected: uint64, isAck: bool, now: int) returns (r: seq<PacketInfo>, idx: nat)
    requires from < |data|
    ensures idx == ScanDown(SeqNums(data), from, expected) && r == Touch(data, idx, expected, isAck, now)
  {
    r, idx := data, from;
    ghost var nums := SeqNums(data);
    while idx > 0 && data[idx].seqNum > expected
      invariant idx <= from && ScanDown(nums, idx, expected) == ScanDown(nums, from, expected)
    {
      idx := idx - 1;
    }
    if data[idx].seqNum == expected {
      if !data[idx].acknowledged && isAck {
        r := data[idx := Confirm(data[idx], now)];
      }
    }
  }

  method VerifyAck(data: seq<PacketInfo>, ack: uint64, ackBits: bv32, clock: seq<int>) returns (r: seq<PacketInfo>)
    requires |clock| == 32
    ensures r == Verified(data, ack, ackBits, clock)
    ensures Ascending(SeqNums(data)) ==> AllStamped(data, ack, ackBits, clock, r)
  {
    r := data;
    if data != [] {
      ghost var flags := Flags(ackBits);
      ghost var verified := Verified(data, ack, ackBits, clock);
      var idx: nat := |data| - 1;
      var isAck := true;
      var expected := ack;
      var bit := 31;
      while bit >= 0
        invariant -1 <= bit <= 31 && idx < |r|
        invariant VerifyFrom(r, idx, expected, isAck, flags, clock, 31 - bit) == verified
      {
        r, idx := Visit(r, idx, expected, isAck, clock[31 - bit]);
        isAck := TestFlag(ackBits, bit);
        bit, expected := bit - 1, Decrement(expected);
      }
    }
    if Ascending(SeqNums(data)) {
      VerifiedStamps(data, ack, ackBits, clock);
    }
  }

  /** What WindowTransfer says of the first entry of the send list if counting down passes zero. */
  predicate TransfersFirst(received: seq<uint64>, n: uint64, ack: uint64) {
    && n > ack && Back(ack, n) < 32
    && (if ack == 0 then n in received else received != [] && received[0] == n)
  }

  /**
   The window transfer. When the receiver packs its ascending list, the sender newly
   acknowledges exactly the stored entries equal to ack, or in the list and at most 31
   before ack. Packet ack - 32, although packed into bit 0, is not acted on. Past zero
   the first entry of the send list meets the first entry of the receiver's.
   */
  lemma {:induction false} WindowTransfer(received: seq<uint64>, sent: seq<PacketInfo>, ack: uint64, clock: seq<int>, j: nat)
    requires Ascending(received) && Ascending(SeqNums(sent)) && |clock| == 32 && j < |sent|
    ensures var n := sent[j].seqNum;
            Verified(sent, ack, AckField(received, ack), clock)[j] ==
            if !sent[j].acknowledged
               && (n == ack || (n < ack < n + 32 && n in received) || (j == 0 && TransfersFirst(received, n, ack)))
            then PacketInfo(n, true, sent[j].sendTicks, clock[Back(ack, n)], clock[Back(ack, n)] - sent[j].sendTicks)
            else sent[j]
  {
    var n := sent[j].seqNum;
    VerifiedMeaning(sent, ack, AckField(received, ack), clock, j);
    var k := Back(ack, n);
    if 0 < k < 32 {
      AckFieldMeaning(received, ack, 32 - k);
      SpokenIsBack(ack, n);
    }
  }

  lemma {:induction false} SpokenIsBack(ack: uint64, n: uint64)
    requires 0 < Back(ack, n) < 32
    ensures Spoken(ack, 32 - Back(ack, n)) == n
    ensures Underflows(ack, 32 - Back(ack, n)) <==> 0 < ack < n
  {
  }

  // ---------- unpacking into a list ----------

  /** The numbers an acknowledgement stands for, ack first and then downwards. */
  function AckNumbers(expected: uint64, flags: seq<bool>, k: nat): seq<uint64>
    requires k <= 32 == |flags|
    decreases 32 - k, expected
  {
    if k == 32 then []
    else (if flags[31 - k] then [expected] else []) + AckNumbers(Decrement(expected), flags, k + 1)
  }

  lemma {:induction false} AckNumbersStep(acks: seq<uint64>, expected: uint64, flags: seq<bool>, k: nat)
    requires k < 32 == |flags|
    ensures acks + AckNumbers(expected, flags, k)
         == (if flags[31 - k] then acks + [expected] else acks) + AckNumbers(Decrement(expected), flags, k + 1)
  {
  }

  /** Append what is not there yet. */
  function AppendNew(data: seq<uint64>, acks: seq<uint64>): seq<uint64>
    decreases |acks|
  {
    if acks == [] then data
    else AppendNew(if acks[0] in data then data else data + [acks[0]], acks[1..])
  }

  function Stored(data: seq<uint64>, ack: uint64, ackBits: bv32): seq<uint64> {
    AppendNew(data, [ack] + AckNumbers(Decrement(ack), Flags(ackBits), 0))
  }

  /** First half of StoreAcks: list the numbers of the field. */
  method CollectAcks(ack: uint64, ackBits: bv32) returns (acks: seq<uint64>)
    ensures acks == [ack] + AckNumbers(Decrement(ack), Flags(ackBits), 0)
  {
    ghost var flags := Flags(ackBits);
    ghost var all := [ack] + AckNumbers(Decrement(ack), flags, 0);
    acks := [ack];
    var expected := Decrement(ack);
    var bit := 31;
    while bit >= 0
      invariant -1 <= bit <= 31
      invariant acks + AckNumbers(expected, flags, 31 - bit) == all
    {
      AckNumbersStep(acks, expected, flags, 31 - bit);
      if HasBit(ackBits, bit) {
        acks := acks + [expected];
      }
      bit, expected := bit - 1, Decrement(expected);
    }
  }

  /** Second half: append the ones that are not there yet. */
  method StoreAcks(data: seq<uint64>, ack: uint64, ackBits: bv32) returns (r: seq<uint64>)
    ensures r == Stored(data, ack, ackBits)
  {
    var acks := CollectAcks(ack, ackBits);
    r := data;
    for i := 0 to |acks|
      invariant AppendNew(r, acks[i..]) == AppendNew(data, acks)
    {
      assert acks[i..][1..] == acks[i + 1..];
      if acks[i] !in r {
        r := r + [acks[i]];
      }
    }
  }

  /** A set bit among the iterations from k on speaks of n. */
  ghost predicate SpokenFrom(ack: uint64, flags: seq<bool>, k: nat, n: uint64)
    requires |flags| == 32
  {
    exists b: nat :: b + k < 32 && flags[b] && n == Spoken(ack, b)
  }

  lemma {:induction false} SpokenStep(ack: uint64, flags: seq<bool>, k: nat, n: uint64)
    requires k < 32 == |flags|
    ensures SpokenFrom(ack, flags, k, n) <==> (flags[31 - k] && n == Spoken(ack, 31 - k)) || SpokenFrom(ack, flags, k + 1, n)
  {
    if flags[31 - k] && n == Spoken(ack, 31 - k) {
      assert SpokenFrom(ack, flags, k, n);
    } else if SpokenFrom(ack, flags, k + 1, n) {
      var b: nat :| b + k + 1 < 32 && flags[b] && n == Spoken(ack, b);
      assert b + k < 32;
    }
  }

  lemma {:induction false} AckNumbersMembers(expected: uint64, ack: uint64, flags: seq<bool>, k: nat, n: uint64)
    requires k <= 32 == |flags| && (k < 32 ==> expected == Spoken(ack, 31 - k))
    ensures n in AckNumbers(expected, flags, k) <==> SpokenFrom(ack, flags, k, n)
    decreases 32 - k
  {
    if k == 32 {
    } else {
      AckNumbersMembers(Decrement(expected), ack, flags, k + 1, n);
      SpokenStep(ack, flags, k, n);
    }
  }

  ghost predicate NoDuplicates(s: seq<uint64>) {
    forall i, j :: 0 <= i < j < |s| ==> s[i] != s[j]
  }

  lemma {:induction false} AppendNewMeaning(data: seq<uint64>, acks: seq<uint64>)
    ensures data <= AppendNew(data, acks)
    ensures forall n :: n in AppendNew(data, acks) <==> n in data || n in acks
    ensures NoDuplicates(data) ==> NoDuplicates(AppendNew(data, acks))
    decreases |acks|
  {
    if acks == [] {
    } else {
      AppendNewMeaning(if acks[0] in data then data else data + [acks[0]], acks[1..]);
      assert acks == [acks[0]] + acks[1..];
    }
  }

  /**
   Decoding keeps the old list in front, adds exactly ack and the numbers of the set bits,
   and repeats nothing.
   */
  lemma {:induction false} StoredMeaning(data: seq<uint64>, ack: uint64, ackBits: bv32, n: uint64)
    ensures data <= Stored(data, ack, ackBits)
    ensures n in Stored(data, ack, ackBits) <==>
            n in data || n == ack || exists b: nat :: b < 32 && Bit(ackBits, b) && n == Spoken(ack, b)
    ensures NoDuplicates(data) ==> NoDuplicates(Stored(data, ack, ackBits))
  {
    AppendNewMeaning(data, [ack] + AckNumbers(Decrement(ack), Flags(ackBits), 0));
    AckNumbersMembers(Decrement(ack), ack, Flags(ackBits), 0, n);
    assert forall b: nat :: b < 32 ==> Flags(ackBits)[b] == Bit(ackBits, b);
  }

  lemma {:induction false} SpokenApart(ack: uint64, b: nat, c: nat)
    requires b < 32 && c < 32
    ensures Spoken(ack, b) == Spoken(ack, c) <==> b == c
    ensures Spoken(ack, b) != ack
    ensures Underflows(ack, b) ==> Spoken(ack, b) > ack
  {
  }

  lemma {:induction false} StoredReported(sorted: seq<uint64>, ack: uint64, ackBits: bv32, b: nat)
    requires Ascending(sorted) && b < 32
    requires forall n :: n in sorted <==> n in Stored([], ack, ackBits)
    ensures Reported(sorted, ack, b) <==> Bit(ackBits, b) && !Underflows(ack, b)
  {
    var n := Spoken(ack, b);
    SpokenApart(ack, b, b);
    StoredMeaning([], ack, ackBits, n);
    StoredMeaning([], ack, ackBits, ack);
    assert ack in sorted;
    assert sorted[0] <= ack;
    forall c: nat | c < 32 && Bit(ackBits, c) && n == Spoken(ack, c) ensures c == b {
      SpokenApart(ack, b, c);
    }
  }

  /**
   Encoding inverts decoding: packing the sorted result of StoreAcks gives the field back
   exactly when no set bit speaks of a number below zero.
   */
  lemma {:induction false} EncodeInvertsDecodeIff(sorted: seq<uint64>, ack: uint64, ackBits: bv32)
    requires Ascending(sorted)
    requires forall n :: n in sorted <==> n in Stored([], ack, ackBits)
    ensures AckField(sorted, ack) == ackBits <==>
            forall b: nat :: b < 32 && Underflows(ack, b) ==> !Bit(ackBits, b)
  {
    var field := AckField(sorted, ack);
    forall b: nat | b < 32 ensures Bit(field, b) <==> Bit(ackBits, b) && !Underflows(ack, b) {
      AckFieldMeaning(sorted, ack, b);
      StoredReported(sorted, ack, ackBits, b);
    }
    if forall b: nat :: b < 32 && Underflows(ack, b) ==> !Bit(ackBits, b) {
      SameBits(field, ackBits);
    }
  }
}
