/**
 The times that the ends record. Over every run of the client, what it has stored of each
 packet is when it was sent, when it was first acknowledged and how long that took, and the
 round trip that it notes is the average over the packets it removes; over every run of the
 server, each stored reply carries the time at which it was sent.
 */
module Timing {
  import opened Bits
  import opened IntegerDivision
  import opened SequenceNumbers
  import opened AckBits
  import opened Links
  import opened ClientLink
  import opened Exchange
  import opened Wrappers
  import ServerLink

  // ---------- what happened when ----------

  /** When packets 1, 2, ... were sent. */
  function SendTimes(events: seq<Event>): seq<int> {
    if events == [] then []
    else
      var e := events[|events| - 1];
      SendTimes(events[..|events| - 1]) + (if e.Send? then [e.now] else [])
  }

  /** The header acknowledges packet n, which is still stored. */
  predicate Confirms(l: Link, h: Header, n: uint64) {
    n in SeqNums(l.sent) && Claims(TakenFor(l, h), Flags(h.ackBits), n)
  }

  /** On the clock of the loop that looks for the packet in this header. */
  function ConfirmTime(l: Link, e: Event, n: uint64): int
    requires e.Receive? && |e.clock| == 32 && Confirms(l, e.header, n)
  {
    e.clock[TakenFor(l, e.header) - n]
  }

  /** Packet n has been acknowledged. */
  predicate Answered(events: seq<Event>, n: uint64)
    requires Timed(events)
  {
    events != [] &&
    (Answered(events[..|events| - 1], n)
     || (events[|events| - 1].Receive? && Confirms(Run(events[..|events| - 1]).link, events[|events| - 1].header, n)))
  }

  /** When the first header did so. */
  function AnswerTime(events: seq<Event>, n: uint64): int
    requires Timed(events) && Answered(events, n)
  {
    var init, e := events[..|events| - 1], events[|events| - 1];
    if Answered(init, n) then AnswerTime(init, n) else ConfirmTime(Run(init).link, e, n)
  }

  // ---------- one packet ----------

  /** The entry of a packet that was sent at one of these times, and answered at that time, if it was. */
  ghost predicate Shows(p: PacketInfo, times: seq<int>, answered: bool, at: int) {
    && 1 <= p.seqNum <= |times| && p.sendTicks == times[p.seqNum - 1] && p.acknowledged == answered
    && p.receiveTicks == (if answered then at else 0)
    && p.roundTripTime == (if answered then at - times[p.seqNum - 1] else 0)
  }

  /** The entry records what happened to its packet. */
  ghost predicate Records(events: seq<Event>, p: PacketInfo)
    requires Timed(events)
  {
    Shows(p, SendTimes(events), Answered(events, p.seqNum),
          if Answered(events, p.seqNum) then AnswerTime(events, p.seqNum) else 0)
  }

  ghost predicate AllRecorded(events: seq<Event>, s: seq<PacketInfo>)
    requires Timed(events)
  {
    forall j :: 0 <= j < |s| ==> Records(events, s[j])
  }

  lemma {:induction false} SentSoFar(events: seq<Event>)
    requires Timed(events) && |events| < MAX_EVENTS
    ensures |SendTimes(events)| == Run(events).link.localLarge
    decreases |events|
  {
    if events == [] {
    } else {
      var init, e := events[..|events| - 1], events[|events| - 1];
      SentSoFar(init);
      ClientKeeps(init);
      if e.Send? {
        DepartCounts(Run(init).link, e.now);
      } else {
        ClientNumber(Run(init).link, e.header, e.clock);
      }
    }
  }

  lemma {:induction false} StoredInRange(events: seq<Event>, n: uint64)
    requires Timed(events) && |events| < MAX_EVENTS && n in SeqNums(Run(events).link.sent)
    ensures 1 <= n <= Run(events).link.localLarge
  {
    ClientKeeps(events);
  }

  /** Nothing is acknowledged before it is sent. */
  lemma {:induction false} AnsweredWasSent(events: seq<Event>, n: uint64)
    requires Timed(events) && |events| < MAX_EVENTS && Answered(events, n)
    ensures n <= |SendTimes(events)|
    decreases |events|
  {
    var init, e := events[..|events| - 1], events[|events| - 1];
    SentSoFar(init);
    if Answered(init, n) {
      AnsweredWasSent(init, n);
    } else {
      StoredInRange(init, n);
    }
  }

  /** A packet joins with the time at which it is sent. */
  lemma {:induction false} SendRecords(init: seq<Event>, e: Event, p: PacketInfo)
    requires Timed(init) && e.Send? && Records(init, p)
    ensures Timed(init + [e]) && Records(init + [e], p)
  {
    assert (init + [e])[..|init|] == init;
  }

  lemma {:induction false} NewPacketRecords(init: seq<Event>, e: Event, n: uint64)
    requires Timed(init) && |init| + 1 < MAX_EVENTS && e.Send? && n == |SendTimes(init)| + 1
    ensures Timed(init + [e]) && Records(init + [e], PacketInfo(n, false, e.now, 0, 0))
  {
    assert (init + [e])[..|init|] == init;
    if Answered(init, n) {
      AnsweredWasSent(init, n);
    }
  }

  lemma {:induction false} ReceiveIsTimed(init: seq<Event>, e: Event)
    requires Timed(init) && e.Receive? && |e.clock| == 32
    ensures Timed(init + [e]) && SendTimes(init + [e]) == SendTimes(init)
  {
    assert (init + [e])[..|init|] == init;
  }

  /** all is init and one header more. */
  ghost predicate Extends(all: seq<Event>, init: seq<Event>, e: Event) {
    && Timed(all) && Timed(init) && e.Receive? && |e.clock| == 32
    && all != [] && all[..|all| - 1] == init && all[|all| - 1] == e
  }

  lemma {:induction false} ReceiveAnswers(init: seq<Event>, e: Event, all: seq<Event>, n: uint64)
    requires Extends(all, init, e)
    ensures Answered(all, n) <==> Answered(init, n) || Confirms(Run(init).link, e.header, n)
  {
  }

  lemma {:induction false} ReceiveAnswerTime(init: seq<Event>, e: Event, all: seq<Event>, n: uint64)
    requires Extends(all, init, e) && Answered(all, n)
    ensures Answered(init, n) ==> AnswerTime(all, n) == AnswerTime(init, n)
    ensures !Answered(init, n) ==> Confirms(Run(init).link, e.header, n)
                                   && AnswerTime(all, n) == ConfirmTime(Run(init).link, e, n)
  {
  }

  /** What an acknowledgement makes of an entry. */
  function Answer(l: Link, h: Header, clock: seq<int>, p: PacketInfo): PacketInfo
    requires |clock| == 32
  {
    if !p.acknowledged && Confirms(l, h, p.seqNum) then
      var now := clock[TakenFor(l, h) - p.seqNum];
      PacketInfo(p.seqNum, true, p.sendTicks, now, now - p.sendTicks)
    else p
  }

  lemma {:induction false} AnswerShows(l: Link, h: Header, clock: seq<int>, p: PacketInfo, times: seq<int>,
                                       answered: bool, at: int)
    requires |clock| == 32 && Shows(p, times, answered, at)
    ensures var now := if !answered && Confirms(l, h, p.seqNum) then clock[TakenFor(l, h) - p.seqNum] else at;
            Shows(Answer(l, h, clock, p), times, answered || Confirms(l, h, p.seqNum), now)
  {
  }

  /** It records what then has happened to its packet. */
  lemma {:induction false} ReceiveRecords(init: seq<Event>, e: Event, p: PacketInfo)
    requires Timed(init) && e.Receive? && |e.clock| == 32 && Records(init, p)
    ensures Timed(init + [e]) && Records(init + [e], Answer(Run(init).link, e.header, e.clock, p))
  {
    ReceiveIsTimed(init, e);
    AnswerRecords(init, e, init + [e], p, Run(init).link);
  }

  lemma {:induction false} AnswerRecords(init: seq<Event>, e: Event, all: seq<Event>, p: PacketInfo, l: Link)
    requires Extends(all, init, e) && SendTimes(all) == SendTimes(init) && Records(init, p) && l == Run(init).link
    ensures Records(all, Answer(l, e.header, e.clock, p))
  {
    var n := p.seqNum;
    ReceiveAnswers(init, e, all, n);
    if Answered(all, n) {
      ReceiveAnswerTime(init, e, all, n);
    }
    AnswerShows(l, e.header, e.clock, p, SendTimes(init), Answered(init, n),
                if Answered(init, n) then AnswerTime(init, n) else 0);
  }

  lemma {:induction false} MarksAnswer(l: Link, h: Header, clock: seq<int>, j: nat)
    requires |clock| == 32 && j < |l.sent| && Ascending(SeqNums(l.sent)) && BelowTop(SeqNums(l.sent))
    ensures |Marks(l, h, clock)| == |l.sent| && Marks(l, h, clock)[j] == Answer(l, h, clock, l.sent[j])
  {
    var taken := TakenFor(l, h);
    VerifiedMeaning(l.sent, taken, h.ackBits, clock, j);
    assert SeqNums(Marks(l, h, clock)) == SeqNums(l.sent);
    assert SeqNums(l.sent)[j] == l.sent[j].seqNum;
  }

  lemma {:induction false} StoredIsLow(r: Record)
    requires Accounted(r) && r.link.localLarge < MAX_EVENTS
    ensures Ascending(SeqNums(r.link.sent)) && BelowTop(SeqNums(r.link.sent))
  {
  }

  /** All entries as the acknowledgement leaves them, before any is removed. */
  lemma {:induction false} MarksRecorded(init: seq<Event>, e: Event)
    requires Timed(init) && |init| + 1 < MAX_EVENTS && e.Receive? && |e.clock| == 32
    requires AllRecorded(init, Run(init).link.sent)
    ensures Timed(init + [e]) && AllRecorded(init + [e], Marks(Run(init).link, e.header, e.clock))
  {
    var l := Run(init).link;
    ClientKeeps(init);
    StoredIsLow(Run(init));
    ReceiveIsTimed(init, e);
    assert |SeqNums(Marks(l, e.header, e.clock))| == |SeqNums(l.sent)|;
    forall j | 0 <= j < |l.sent| ensures Records(init + [e], Marks(l, e.header, e.clock)[j]) {
      MarksAnswer(l, e.header, e.clock, j);
      ReceiveRecords(init, e, l.sent[j]);
    }
  }

  lemma {:induction false} ReceiveLeavesSuffix(l: Link, h: Header, clock: seq<int>)
    requires |clock| == 32
    ensures var marks, left := Marks(l, h, clock), ClientReceive(l, h, clock).sent;
            |left| <= |marks| && left == marks[|marks| - |left|..]
  {
    var marks := Marks(l, h, clock);
    assert ClientReceive(l, h, clock).sent == Newest(Prune(marks).kept, MAX_SENT);
    PruneLeavesSuffix(marks);
  }

  lemma {:induction false} SuffixRecorded(events: seq<Event>, s: seq<PacketInfo>, k: nat)
    requires Timed(events) && AllRecorded(events, s) && k <= |s|
    ensures AllRecorded(events, s[k..])
  {
  }

  lemma {:induction false} SendKeepsRecords(init: seq<Event>, e: Event)
    requires Timed(init) && |init| + 1 < MAX_EVENTS && e.Send? && AllRecorded(init, Run(init).link.sent)
    ensures Timed(init + [e]) && AllRecorded(init + [e], Depart(Run(init).link, e.now).sent)
  {
    var l := Run(init).link;
    SentSoFar(init);
    ClientKeeps(init);
    NextNumber(l.localLarge);
    NewPacketRecords(init, e, l.localLarge + 1);
    forall j | 0 <= j < |l.sent| ensures Records(init + [e], l.sent[j]) {
      SendRecords(init, e, l.sent[j]);
    }
  }

  lemma {:induction false} ReceiveKeepsRecords(init: seq<Event>, e: Event)
    requires Timed(init) && |init| + 1 < MAX_EVENTS && e.Receive? && |e.clock| == 32 && AllRecorded(init, Run(init).link.sent)
    ensures Timed(init + [e]) && AllRecorded(init + [e], ClientReceive(Run(init).link, e.header, e.clock).sent)
  {
    var l := Run(init).link;
    var marks, left := Marks(l, e.header, e.clock), ClientReceive(l, e.header, e.clock).sent;
    MarksRecorded(init, e);
    ReceiveLeavesSuffix(l, e.header, e.clock);
    SuffixRecorded(init + [e], marks, |marks| - |left|);
  }

  lemma {:induction false} RunAppend(init: seq<Event>, e: Event)
    requires Timed(init) && (e.Receive? ==> |e.clock| == 32)
    ensures Timed(init + [e])
    ensures Run(init + [e]).link == match e
                                    case Send(now) => Depart(Run(init).link, now)
                                    case Receive(h, clock) => ClientReceive(Run(init).link, h, clock)
  {
    assert (init + [e])[..|init|] == init;
  }

  /**
   Over every run of the client, with arbitrary packets coming in: each stored packet is
   recorded with the time at which it was sent; it is marked acknowledged exactly if a
   header has confirmed it while it was stored, and then with the time at which the first
   such header was looked through, and the time that had passed since it was sent.
   */
  lemma {:induction false} ClientRecords(events: seq<Event>)
    requires Timed(events) && |events| < MAX_EVENTS
    ensures AllRecorded(events, Run(events).link.sent)
    decreases |events|
  {
    if events == [] {
    } else {
      var init, e := events[..|events| - 1], events[|events| - 1];
      assert events == init + [e];
      ClientRecords(init);
      RunAppend(init, e);
      if e.Send? {
        SendKeepsRecords(init, e);
      } else {
        ReceiveKeepsRecords(init, e);
      }
    }
  }

  // ---------- the round trip that the client notes ----------

  /** When packet n was answered, if it was. */
  function TimeOfAnswer(events: seq<Event>, n: uint64): Option<int>
    requires Timed(events)
  {
    if Answered(events, n) then Some(AnswerTime(events, n)) else None
  }

  function WaitUntil(times: seq<int>, n: nat, answer: Option<int>): Option<int> {
    if answer.Some? && 1 <= n <= |times| then Some(answer.value - times[n - 1]) else None
  }

  /** How long packet n waited for its answer, if it was answered. */
  function Wait(events: seq<Event>, n: nat): Option<int>
    requires Timed(events)
  {
    if n < TWO_64 then WaitUntil(SendTimes(events), n, TimeOfAnswer(events, n)) else None
  }

  /** The same of this many packets from one on. */
  function Waits(events: seq<Event>, from: nat, count: nat): (w: seq<Option<int>>)
    requires Timed(events)
    ensures |w| == count && forall j :: 0 <= j < count ==> w[j] == Wait(events, from + j)
  {
    seq(count, j requires 0 <= j < count => Wait(events, from + j))
  }

  function Count(waits: seq<Option<int>>): nat {
    if waits == [] then 0 else Count(waits[..|waits| - 1]) + if waits[|waits| - 1].Some? then 1 else 0
  }

  function Total(waits: seq<Option<int>>): int {
    if waits == [] then 0
    else Total(waits[..|waits| - 1]) + match waits[|waits| - 1] case None => 0 case Some(wait) => wait
  }

  ghost predicate Consecutive(s: seq<PacketInfo>, from: nat) {
    forall j :: 0 <= j < |s| ==> s[j].seqNum == from + j
  }

  /** The entries carry these waits. */
  ghost predicate Carry(s: seq<PacketInfo>, waits: seq<Option<int>>) {
    |s| == |waits| && forall j :: 0 <= j < |s| ==> waits[j] == if s[j].acknowledged then Some(s[j].roundTripTime) else None
  }

  lemma {:induction false} CarriedSums(s: seq<PacketInfo>, waits: seq<Option<int>>)
    requires Carry(s, waits)
    ensures AckedCount(s) == Count(waits) && RoundTrips(s) == Total(waits)
  {
    if s == [] {
    } else {
      CarriedSums(s[..|s| - 1], waits[..|waits| - 1]);
    }
  }

  lemma {:induction false} ShownWait(p: PacketInfo, times: seq<int>, answer: Option<int>)
    requires Shows(p, times, answer.Some?, if answer.Some? then answer.value else 0)
    ensures WaitUntil(times, p.seqNum, answer) == if p.acknowledged then Some(p.roundTripTime) else None
  {
  }

  lemma {:induction false} RecordedShows(events: seq<Event>, p: PacketInfo) returns (answer: Option<int>)
    requires Timed(events) && Records(events, p)
    ensures answer == TimeOfAnswer(events, p.seqNum)
    ensures Shows(p, SendTimes(events), answer.Some?, if answer.Some? then answer.value else 0)
  {
    answer := TimeOfAnswer(events, p.seqNum);
  }

  lemma {:induction false} RecordedWait(events: seq<Event>, p: PacketInfo)
    requires Timed(events) && Records(events, p)
    ensures Wait(events, p.seqNum) == if p.acknowledged then Some(p.roundTripTime) else None
  {
    var answer := RecordedShows(events, p);
    ShownWait(p, SendTimes(events), answer);
  }

  lemma {:induction false} RecordedWaits(events: seq<Event>, s: seq<PacketInfo>, from: nat)
    requires Timed(events) && AllRecorded(events, s) && Consecutive(s, from)
    ensures Carry(s, Waits(events, from, |s|))
  {
    forall j | 0 <= j < |s| ensures Wait(events, from + j) == if s[j].acknowledged then Some(s[j].roundTripTime) else None {
      RecordedWait(events, s[j]);
    }
  }

  /** The packets that a prune takes off: how many, and the first one. */
  function Removes(l: Link): nat {
    if |l.sent| >= MAX_SENT then |l.sent| - MAX_SENT else |l.sent|
  }

  function Oldest(l: Link): int {
    l.localLarge - |l.sent| + 1
  }

  lemma {:induction false} FrontRecorded(init: seq<Event>, e: Event)
    requires Timed(init) && |init| + 1 < MAX_EVENTS && e.Receive? && |e.clock| == 32
    ensures var l, all := Run(init).link, init + [e];
            var front := Front(Marks(l, e.header, e.clock));
            && Timed(all) && AllRecorded(all, front) && |front| == Removes(l) && 1 <= Oldest(l) && Consecutive(front, Oldest(l))
  {
    var l := Run(init).link;
    var marks := Marks(l, e.header, e.clock);
    ClientKeeps(init);
    ClientRecords(init);
    MarksRecorded(init, e);
    FrontNumbers(Run(init), marks);
  }

  lemma {:induction false} FrontNumbers(r: Record, marks: seq<PacketInfo>)
    requires Accounted(r) && SeqNums(marks) == SeqNums(r.link.sent)
    ensures |Front(marks)| == Removes(r.link) && 1 <= Oldest(r.link) && Consecutive(Front(marks), Oldest(r.link))
  {
    assert |SeqNums(marks)| == |marks| == |r.link.sent|;
    forall j | 0 <= j < |Front(marks)| ensures Front(marks)[j].seqNum == Oldest(r.link) + j {
      assert SeqNums(marks)[j] == marks[j].seqNum;
    }
  }

  /**
   Over every run of the client: when a header comes in, the noted round trip stays as it was
   if no packet that is now removed has been answered. Otherwise it becomes the average time
   that the answered ones of them have waited, in whole milliseconds.
   */
  lemma {:induction false} NotedRoundTrip(init: seq<Event>, e: Event, previous: uint64)
    requires Timed(init) && |init| + 1 < MAX_EVENTS && e.Receive? && |e.clock| == 32
    ensures Timed(init + [e])
    ensures var l, all := Run(init).link, init + [e];
            1 <= Oldest(l) &&
            var waits, after := Waits(all, Oldest(l), Removes(l)), RoundTripAfter(previous, l, e.header, e.clock);
            if Count(waits) == 0 then after == previous
            else exists q :: IsQuotient(Total(waits), Count(waits) * 1000000, q) && after == Wrap64(q)
  {
    var l := Run(init).link;
    var marks := Marks(l, e.header, e.clock);
    FrontRecorded(init, e);
    RecordedWaits(init + [e], Front(marks), Oldest(l));
    CarriedSums(Front(marks), Waits(init + [e], Oldest(l), Removes(l)));
    NoneAcknowledged(Front(marks));
    AverageMeaning(marks, previous);
  }

  // ---------- the server's replies ----------

  /** Reply n was sent when the n-th packet was handled, and is not acknowledged. */
  ghost predicate SentThen(events: seq<ServerLink.Event>, p: PacketInfo) {
    1 <= p.seqNum <= |events| && p == PacketInfo(p.seqNum, false, events[p.seqNum - 1].now, 0, 0)
  }

  ghost predicate AllSentThen(events: seq<ServerLink.Event>, s: seq<PacketInfo>) {
    forall p :: p in s ==> SentThen(events, p)
  }

  /** What is removed is the acknowledged packets; the others stay as they are. */
  lemma {:induction false} UnacknowledgedAre(s: seq<PacketInfo>, p: PacketInfo)
    ensures p in ServerLink.Unacknowledged(s) <==> p in s && !p.acknowledged
  {
    if s == [] {
    } else {
      var init, last := s[..|s| - 1], s[|s| - 1];
      UnacknowledgedAre(init, p);
      assert s == init + [last];
    }
  }

  lemma {:induction false} MarksLeaveOthers(l: Link, h: Header, clock: seq<int>, p: PacketInfo)
    requires |clock| == 32 && Ascending(SeqNums(l.sent)) && BelowTop(SeqNums(l.sent))
    requires p in Marks(l, h, clock) && !p.acknowledged
    ensures p in l.sent
  {
    var marks := Marks(l, h, clock);
    assert |SeqNums(marks)| == |SeqNums(l.sent)|;
    var j :| 0 <= j < |marks| && marks[j] == p;
    MarksAnswer(l, h, clock, j);
    assert l.sent[j] == p;
  }

  lemma {:induction false} ServerStoresSent(l: Link, e: ServerLink.Event, init: seq<ServerLink.Event>)
    requires |e.clock| == 32 && Ascending(SeqNums(l.sent)) && BelowTop(SeqNums(l.sent))
    requires l.localLarge == |init| && l.localLarge + 1 < TWO_64 && AllSentThen(init, l.sent)
    ensures AllSentThen(init + [e], ServerLink.ServerStep(l, e.header, e.clock, e.now).sent)
  {
    var marks := Marks(l, e.header, e.clock);
    NextNumber(l.localLarge);
    var reply := PacketInfo(l.localLarge + 1, false, e.now, 0, 0);
    assert ServerLink.ServerStep(l, e.header, e.clock, e.now).sent == ServerLink.Unacknowledged(marks) + [reply];
    forall p | p in ServerLink.Unacknowledged(marks) + [reply] ensures SentThen(init + [e], p) {
      if p != reply {
        UnacknowledgedAre(marks, p);
        MarksLeaveOthers(l, e.header, e.clock, p);
        assert SentThen(init, p);
      }
    }
  }

  lemma {:induction false} ServerStoredIsLow(r: ServerLink.Record)
    requires ServerLink.SentOrRetired(r.link.localLarge, r.link.sent, r.retired) && r.link.localLarge < MAX_EVENTS
    ensures Ascending(SeqNums(r.link.sent)) && BelowTop(SeqNums(r.link.sent))
  {
    OutboxIsLow(r.link.sent, r.link.localLarge);
  }

  /**
   Over every run of the server, with arbitrary packets coming in: each stored reply carries
   the time at which it was sent, and nothing else has been noted of it.
   */
  lemma {:induction false} ServerRecords(events: seq<ServerLink.Event>)
    requires ServerLink.Timed(events) && |events| < MAX_EVENTS
    ensures AllSentThen(events, ServerLink.Run(events).link.sent)
    decreases |events|
  {
    if events == [] {
    } else {
      var init, e := events[..|events| - 1], events[|events| - 1];
      assert events == init + [e];
      ServerRecords(init);
      ServerLink.ServerKeeps(init);
      ServerStoredIsLow(ServerLink.Run(init));
      ServerStoresSent(ServerLink.Run(init).link, e, init);
    }
  }
}
