/**
 What the two game-state handlers share: the sequence numbers and packet lists that a
 Player keeps on the server and the Client keeps for itself, and the two updates that both
 make when a packet comes in.
 */
module Links {
  import opened Bits
  import opened SequenceNumbers
  import opened AckBits

  /** The reliability part of a game-state packet. */
  datatype Header = Header(seqNum: uint16, ack: uint16, ackBits: bv32)

  datatype Link = Link(
    localLarge: uint64, localSmall: uint16,
    remoteLarge: uint64, remoteSmall: uint16,
    sent: seq<PacketInfo>, received: seq<uint64>)

  const NEW_LINK := Link(0, 0, 0, 0, [], [])

  /** The packet's own number: advance, and remember it unless it repeats the last one. */
  function Arrive(l: Link, seqNum: uint16): Link {
    if SequenceNumberDiff(l.remoteSmall, seqNum) > 0 then
      var r := Advance(Remote(l.remoteLarge, l.remoteSmall), seqNum);
      l.(remoteLarge := r.large, remoteSmall := r.small, received := l.received + [r.large])
    else l
  }

  /** The packet's acknowledgement, applied to the stored packets. */
  function Acknowledge(l: Link, ack: uint16, ackBits: bv32, clock: seq<int>): Link
    requires |clock| == 32
  {
    l.(sent := Verified(l.sent, TranslateAck(l.localLarge, l.localSmall, ack), ackBits, clock))
  }

  /** A packet leaves: count it and store it. */
  function Depart(l: Link, now: int): Link {
    var n := Wrap64(l.localLarge + 1);
    l.(localLarge := n, localSmall := Small(n), sent := l.sent + [PacketInfo(n, false, now, 0, 0)])
  }

  /** Keep the newest entries of a list. */
  function Newest<T>(s: seq<T>, cap: nat): (r: seq<T>)
    ensures |s| <= cap ==> r == s
    ensures |s| > cap ==> |r| == cap && r == s[|s| - cap..]
  {
    if |s| > cap then s[|s| - cap..] else s
  }

  // ---------- stored packets as sets of numbers ----------

  function Nums(s: seq<PacketInfo>): set<nat> {
    if s == [] then {} else Nums(s[..|s| - 1]) + {s[|s| - 1].seqNum}
  }

  function AckedNums(s: seq<PacketInfo>): set<nat> {
    if s == [] then {}
    else AckedNums(s[..|s| - 1]) + (if s[|s| - 1].acknowledged then {s[|s| - 1].seqNum} else {})
  }

  ghost predicate AllBelow(nums: set<nat>, bound: nat) {
    forall n :: n in nums ==> n < bound
  }

  /** Stored in the order of their numbers, without repeats. */
  ghost predicate Ordered(s: seq<PacketInfo>) {
    s == [] || (Ordered(s[..|s| - 1]) && AllBelow(Nums(s[..|s| - 1]), s[|s| - 1].seqNum))
  }

  lemma {:induction false} AppendPacket(s: seq<PacketInfo>, p: PacketInfo)
    ensures Nums(s + [p]) == Nums(s) + {p.seqNum}
    ensures AckedNums(s + [p]) == AckedNums(s) + (if p.acknowledged then {p.seqNum} else {})
    ensures Ordered(s + [p]) <==> Ordered(s) && AllBelow(Nums(s), p.seqNum)
  {
    assert (s + [p])[..|s|] == s;
  }

  lemma {:induction false} SeqNumsInit(s: seq<PacketInfo>)
    requires s != []
    ensures SeqNums(s) == SeqNums(s[..|s| - 1]) + [s[|s| - 1].seqNum]
  {
  }

  lemma {:induction false} NumsOfSeqNums(s: seq<PacketInfo>)
    ensures forall n :: n in Nums(s) <==> n in SeqNums(s)
  {
    if s == [] {
    } else {
      NumsOfSeqNums(s[..|s| - 1]);
      SeqNumsInit(s);
    }
  }

  lemma {:induction false} AscendingInit(nums: seq<uint64>, last: uint64)
    ensures Ascending(nums + [last]) <==> Ascending(nums) && forall n :: n in nums ==> n < last
  {
    var all := nums + [last];
    if Ascending(all) {
      forall i, j | 0 <= i < j < |nums| ensures nums[i] < nums[j] {
        assert all[i] < all[j];
      }
      forall n | n in nums ensures n < last {
        var i :| 0 <= i < |nums| && nums[i] == n;
        assert all[i] < all[|nums|];
      }
    } else if Ascending(nums) {
      var i, j :| 0 <= i < j < |all| && all[i] >= all[j];
      assert all[i] in nums && all[j] == last;
    }
  }

  lemma {:induction false} OrderedIsAscending(s: seq<PacketInfo>)
    ensures Ordered(s) <==> Ascending(SeqNums(s))
  {
    if s == [] {
    } else {
      var init := s[..|s| - 1];
      OrderedIsAscending(init);
      NumsOfSeqNums(init);
      SeqNumsInit(s);
      AscendingInit(SeqNums(init), s[|s| - 1].seqNum);
    }
  }

  lemma {:induction false} SameNums(s: seq<PacketInfo>, t: seq<PacketInfo>)
    requires SeqNums(s) == SeqNums(t)
    ensures Nums(s) == Nums(t) && (Ordered(s) <==> Ordered(t))
  {
    NumsOfSeqNums(s);
    NumsOfSeqNums(t);
    OrderedIsAscending(s);
    OrderedIsAscending(t);
  }

  /** Each arrival above the one before it. */
  ghost predicate Rising(s: seq<uint64>) {
    |s| <= 1 || (Rising(s[..|s| - 1]) && s[|s| - 2] < s[|s| - 1])
  }

  lemma {:induction false} RisingAppend(s: seq<uint64>, n: uint64)
    ensures Rising(s + [n]) <==> Rising(s) && (s == [] || s[|s| - 1] < n)
  {
    assert (s + [n])[..|s|] == s;
  }

  lemma {:induction false} RisingIsAscending(s: seq<uint64>)
    ensures Rising(s) <==> Ascending(s)
  {
    if |s| <= 1 {
    } else {
      var init, last := s[..|s| - 1], s[|s| - 1];
      RisingIsAscending(init);
      assert s == init + [last];
      AscendingInit(init, last);
      if Rising(s) {
        LastIsGreatest(init);
      }
    }
  }

  lemma {:induction false} LastIsGreatest(s: seq<uint64>)
    requires Ascending(s) && s != []
    ensures forall n :: n in s ==> n <= s[|s| - 1]
  {
  }

  // ---------- trimming the list of received packets ----------

  /** On an ascending list the entries near the end are within reach of the cap. */
  lemma {:induction false} NearTheEnd(s: seq<uint64>, i: nat, j: nat)
    requires Ascending(s) && i <= j < |s|
    ensures s[j] - s[i] >= j - i
    decreases j - i
  {
    if i == j {
    } else {
      NearTheEnd(s, i, j - 1);
    }
  }

  lemma {:induction false} NewestKeepsWindow(s: seq<uint64>, cap: nat, n: uint64)
    requires Ascending(s) && s != [] && cap >= 33
    ensures Ascending(Newest(s, cap))
    ensures n in Newest(s, cap) ==> n in s
    ensures n in s && n + 32 >= s[|s| - 1] ==> n in Newest(s, cap)
  {
    if n in s && n + 32 >= s[|s| - 1] && |s| > cap {
      var i :| 0 <= i < |s| && s[i] == n;
      NearTheEnd(s, i, |s| - 1);
      assert s[|s| - cap..][i - (|s| - cap)] == n;
    }
  }

  /**
   Bounded history loses nothing: the field for the newest number, computed on the newest
   33 entries or more, is the field computed on all of them.
   */
  lemma {:induction false} BoundedHistory(history: seq<uint64>, cap: nat)
    requires Ascending(history) && history != [] && cap >= 33
    ensures AckField(Newest(history, cap), history[|history| - 1]) == AckField(history, history[|history| - 1])
  {
    var top := history[|history| - 1];
    var recent := Newest(history, cap);
    NewestKeepsWindow(history, cap, top);
    forall b: nat | b < 32 ensures Bit(AckField(recent, top), b) <==> Bit(AckField(history, top), b) {
      AckFieldMeaning(recent, top, b);
      AckFieldMeaning(history, top, b);
      SameReport(history, cap, b);
    }
    SameBits(AckField(recent, top), AckField(history, top));
  }

  lemma {:induction false} SameReport(history: seq<uint64>, cap: nat, b: nat)
    requires Ascending(history) && history != [] && cap >= 33 && b < 32
    ensures var top := history[|history| - 1];
            Reported(Newest(history, cap), top, b) <==> Reported(history, top, b)
  {
    var top := history[|history| - 1];
    var recent := Newest(history, cap);
    NewestKeepsWindow(history, cap, Spoken(top, b));
    assert recent[0] in history;
    assert forall n :: n in history ==> n <= top;
  }

  /** One entry fewer is not enough: packet 1 is lost from the field for packet 33. */
  lemma ThirtyTwoIsTooFew()
    ensures var history: seq<uint64> := seq(33, i => i + 1);
            && Ascending(history) && history[32] == 33
            && Bit(AckField(history, 33), 0) && !Bit(AckField(Newest(history, 32), 33), 0)
  {
    var history: seq<uint64> := seq(33, i => i + 1);
    var recent := Newest(history, 32);
    assert Ascending(recent);
    AckFieldMeaning(history, 33, 0);
    AckFieldMeaning(recent, 33, 0);
    assert history[0] == 1;
    assert 1 !in recent;
  }

  // ---------- the received list over a run ----------

  /** The received list is the newest entries of all arrivals, which rise to the remote number. */
  ghost predicate HistoryKept(cap: nat, remoteLarge: uint64, received: seq<uint64>, history: seq<uint64>) {
    && Rising(history)
    && (if history == [] then remoteLarge == 0 else history[|history| - 1] == remoteLarge)
    && received == Newest(history, cap)
  }

  /** How far an arriving number moves the receiver on. */
  function Progress(l: Link, seqNum: uint16): uint16 {
    SequenceNumberDiff(l.remoteSmall, seqNum)
  }

  /** What an arrival does short of the 64-bit range. */
  lemma {:induction false} ArriveAdds(l: Link, seqNum: uint16)
    requires l.remoteLarge + TWO_16 < TWO_64
    ensures var n := l.remoteLarge + Progress(l, seqNum);
            Arrive(l, seqNum) == if n == l.remoteLarge then l
                                 else l.(remoteLarge := n, remoteSmall := seqNum, received := l.received + [n])
  {
  }

  /** All arrivals so far, with the new one if it is new. */
  function HistoryAfter(l: Link, history: seq<uint64>, seqNum: uint16): seq<uint64> {
    if Progress(l, seqNum) > 0 then history + [Arrive(l, seqNum).remoteLarge] else history
  }

  /** Trimming after every arrival is trimming the whole history once. */
  lemma {:induction false} NewestAppend(history: seq<uint64>, n: uint64, cap: nat)
    requires cap > 0
    ensures Newest(Newest(history, cap) + [n], cap) == Newest(history + [n], cap)
  {
  }

  lemma {:induction false} HistoryAppend(cap: nat, remoteLarge: uint64, received: seq<uint64>, history: seq<uint64>,
                                         n: uint64)
    requires cap > 0 && HistoryKept(cap, remoteLarge, received, history) && n > remoteLarge
    ensures HistoryKept(cap, n, Newest(received + [n], cap), history + [n])
  {
    NewestAppend(history, n, cap);
    RisingAppend(history, n);
  }

  /** The list with the number d places on, unless that is the same number. */
  function Extended(s: seq<uint64>, large: uint64, d: uint16): seq<uint64>
    requires large + d < TWO_64
  {
    if d > 0 then s + [large + d] else s
  }

  lemma {:induction false} NewestTwice(s: seq<uint64>, cap: nat)
    ensures Newest(Newest(s, cap), cap) == Newest(s, cap)
  {
  }

  lemma {:induction false} TrimmedAlready(cap: nat, large: uint64, received: seq<uint64>, history: seq<uint64>)
    requires HistoryKept(cap, large, received, history)
    ensures HistoryKept(cap, large, Newest(received, cap), history)
  {
    NewestTwice(history, cap);
  }

  lemma {:induction false} HistoryExtends(cap: nat, large: uint64, received: seq<uint64>, history: seq<uint64>, d: uint16)
    requires cap > 0 && HistoryKept(cap, large, received, history) && large + d < TWO_64
    ensures HistoryKept(cap, large + d, Newest(Extended(received, large, d), cap), Extended(history, large, d))
  {
    if d > 0 {
      HistoryAppend(cap, large, received, history, large + d);
    } else {
      TrimmedAlready(cap, large, received, history);
    }
  }

  /** Trimming the received list loses nothing that the next arrival needs. */
  lemma {:induction false} ArrivalKeepsHistory(cap: nat, l: Link, history: seq<uint64>, seqNum: uint16)
    requires cap > 0 && HistoryKept(cap, l.remoteLarge, l.received, history) && l.remoteLarge + TWO_16 < TWO_64
    ensures var a := Arrive(l, seqNum);
            && a.remoteLarge <= l.remoteLarge + TWO_16
            && HistoryKept(cap, a.remoteLarge, Newest(a.received, cap), HistoryAfter(l, history, seqNum))
  {
    var a, d := Arrive(l, seqNum), Progress(l, seqNum);
    ArriveAdds(l, seqNum);
    assert a.remoteLarge == l.remoteLarge + d && a.received == Extended(l.received, l.remoteLarge, d);
    assert HistoryAfter(l, history, seqNum) == Extended(history, l.remoteLarge, d);
    HistoryExtends(cap, l.remoteLarge, l.received, history, d);
  }

  lemma {:induction false} HistoryReports(cap: nat, remoteLarge: uint64, received: seq<uint64>, history: seq<uint64>)
    requires cap >= 33 && HistoryKept(cap, remoteLarge, received, history)
    ensures AckField(received, remoteLarge) == AckField(history, remoteLarge)
  {
    if history != [] {
      RisingIsAscending(history);
      BoundedHistory(history, cap);
    }
  }

  /** No 64-bit counter can have wrapped: far more packets than a session can carry. */
  const MAX_EVENTS := 0x8000_0000_0000
}
