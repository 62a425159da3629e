/**
 Clock synchronisation: the samples that Client::SyncClock takes and their average. All
 times are whole milliseconds.
 */
module ClockSync {
  import opened IntegerDivision
  import opened Wrappers
  import Handshakes

  /** One answered round: sent and received on the client's clock, stamped on the server's. */
  datatype Exchange = Exchange(sent: int, stamp: int, received: int)

  function RoundTrip(e: Exchange): int {
    e.received - e.sent
  }

  /** m_serverClockOffset after one round: the mean of two estimates, each divided on its own. */
  function Sample(e: Exchange): int {
    var offset1 := e.stamp - e.sent - Truncated(RoundTrip(e), 2);
    var offset2 := e.stamp - e.received - Truncated(RoundTrip(e), 2);
    Truncated(offset1 + offset2, 2)
  }

  /** The server's clock is ahead by offset, and it took the stamp while the packet was away. */
  predicate Genuine(e: Exchange, offset: int) {
    e.sent <= e.stamp - offset <= e.received
  }

  /**
   The two estimates do not cancel the round trip: a sample is the stamp against the time of
   receipt, and one more exactly if it is negative and the round trip is odd.
   */
  lemma SampleMeaning(e: Exchange)
    requires e.sent <= e.received
    ensures Sample(e) == e.stamp - e.received
                       + (if e.stamp < e.received && RoundTrip(e) % 2 == 1 then 1 else 0)
  {
  }

  lemma SampleBounds(e: Exchange, offset: int)
    requires Genuine(e, offset)
    ensures offset - RoundTrip(e) <= Sample(e) <= offset + 1
  {
    SampleMeaning(e);
  }

  /** With equally long ways, a sample falls short of the offset by half the round trip. */
  lemma SymmetricBias(e: Exchange, offset: int)
    requires Genuine(e, offset) && e.stamp - offset - e.sent == e.received - (e.stamp - offset)
    ensures 2 * (offset - Sample(e)) == RoundTrip(e)
  {
    SampleMeaning(e);
  }

  /** What the server notes: its stamp against the time of sending. */
  function NotedOffset(e: Exchange): int {
    e.stamp - e.sent
  }

  /** The client's sample and the server's note lie on either side of the offset, a round trip apart. */
  lemma OffsetsBracket(e: Exchange, offset: int)
    requires Genuine(e, offset)
    ensures Sample(e) - 1 <= offset <= NotedOffset(e)
    ensures RoundTrip(e) - 1 <= NotedOffset(e) - Sample(e) <= RoundTrip(e)
  {
    SampleMeaning(e);
  }

  /**
   One exchange with the server's handler: the client's time of sending goes in, and the
   stamp comes back. What the handler notes for the player is never below the true offset,
   what the client samples is never more than a millisecond above it, and they are a round
   trip apart.
   */
  lemma {:induction false} HandlersBracket(players: seq<Handshakes.Player>, address: Handshakes.Address, salt: Handshakes.Salt,
                                           i: nat, e: Exchange, offset: int)
    requires Handshakes.IsFirstWith(players, address, salt, i) && Genuine(e, offset)
    ensures var (next, reply) := Handshakes.ClockSynced(players, address, salt, e.sent, e.stamp);
            && reply == Some(e.stamp) && |next| == |players| && next[i].clockOffset == NotedOffset(e)
            && Sample(e) - 1 <= offset <= next[i].clockOffset
            && RoundTrip(e) - 1 <= next[i].clockOffset - Sample(e) <= RoundTrip(e)
  {
    Handshakes.ClockSyncMeaning(players, address, salt, e.sent, e.stamp);
    OffsetsBracket(e, offset);
  }

  // ---------- the whole synchronisation ----------

  datatype Round =
    | Answered(exchange: Exchange)
    | TimedOut
    | NotSent
    | Unusable      // from another address, with a wrong checksum or type, or an early receive error

  /** The rounds that count, unless one of them aborts the synchronisation. */
  datatype Outcome = Aborted(disconnected: bool) | Measured(exchanges: seq<Exchange>)

  function Measure(rounds: seq<Round>): Outcome {
    if rounds == [] then Measured([])
    else
      var before := Measure(rounds[..|rounds| - 1]);
      if before.Aborted? then before
      else
        match rounds[|rounds| - 1]
        case Answered(e) => Measured(before.exchanges + [e])
        case TimedOut => before
        case NotSent => Aborted(true)
        case Unusable => Aborted(false)
  }

  /** The rounds in the order in which they are taken: the first that fails decides, the answered ones are collected. */
  lemma {:induction false} MeasureFromFront(r: Round, rounds: seq<Round>)
    ensures Measure([r] + rounds) ==
            match r
            case NotSent => Aborted(true)
            case Unusable => Aborted(false)
            case TimedOut => Measure(rounds)
            case Answered(e) => if Measure(rounds).Aborted? then Measure(rounds) else Measured([e] + Measure(rounds).exchanges)
  {
    if rounds == [] {
      assert [r] + rounds == [] + [r] && ([] + [r])[..0] == [];
      assert Measure([]) == Measured([]);
    } else {
      var init, last := rounds[..|rounds| - 1], rounds[|rounds| - 1];
      assert ([r] + rounds)[..|rounds|] == [r] + init;
      MeasureFromFront(r, init);
      if r.Answered? && Measure(init).Measured? && last.Answered? {
        var middle := Measure(init).exchanges;
        assert ([r.exchange] + middle) + [last.exchange] == [r.exchange] + (middle + [last.exchange]);
      }
    }
  }

  lemma {:induction false} AbortedStays(rounds: seq<Round>, k: nat)
    requires k <= |rounds| && Measure(rounds[..k]).Aborted?
    ensures Measure(rounds) == Measure(rounds[..k])
    decreases |rounds|
  {
    if k == |rounds| {
      assert rounds[..k] == rounds;
    } else {
      var init := rounds[..|rounds| - 1];
      assert init[..k] == rounds[..k];
      AbortedStays(init, k);
    }
  }

  function Samples(exchanges: seq<Exchange>): (s: seq<int>)
    ensures |s| == |exchanges|
  {
    seq(|exchanges|, i requires 0 <= i < |exchanges| => Sample(exchanges[i]))
  }

  function RoundTrips(exchanges: seq<Exchange>): (s: seq<int>)
    ensures |s| == |exchanges|
  {
    seq(|exchanges|, i requires 0 <= i < |exchanges| => RoundTrip(exchanges[i]))
  }

  function Sum(s: seq<int>): int {
    if s == [] then 0 else Sum(s[..|s| - 1]) + s[|s| - 1]
  }

  lemma {:induction false} SumFromFront(n: int, s: seq<int>)
    ensures Sum([n] + s) == n + Sum(s)
  {
    if s == [] {
      assert [n] + s == [] + [n] && ([] + [n])[..0] == [];
    } else {
      assert ([n] + s)[..|s|] == [n] + s[..|s| - 1];
      SumFromFront(n, s[..|s| - 1]);
    }
  }

  function TimesSent(exchanges: seq<Exchange>): (s: seq<int>)
    ensures |s| == |exchanges|
  {
    seq(|exchanges|, i requires 0 <= i < |exchanges| => exchanges[i].sent)
  }

  function TimesReceived(exchanges: seq<Exchange>): (s: seq<int>)
    ensures |s| == |exchanges|
  {
    seq(|exchanges|, i requires 0 <= i < |exchanges| => exchanges[i].received)
  }

  /** The summed round trips are all times of receipt less all times of sending. */
  lemma {:induction false} RoundTripsTotal(exchanges: seq<Exchange>)
    ensures Sum(RoundTrips(exchanges)) == Sum(TimesReceived(exchanges)) - Sum(TimesSent(exchanges))
  {
    if exchanges == [] {
    } else {
      var k := |exchanges| - 1;
      RoundTripsTotal(exchanges[..k]);
      assert RoundTrips(exchanges)[..k] == RoundTrips(exchanges[..k]);
      assert TimesReceived(exchanges)[..k] == TimesReceived(exchanges[..k]);
      assert TimesSent(exchanges)[..k] == TimesSent(exchanges[..k]);
    }
  }

  /** Both averages are quotients rounded towards zero. */
  lemma {:induction false} BothAverages(exchanges: seq<Exchange>)
    requires exchanges != []
    ensures IsQuotient(Sum(Samples(exchanges)), |exchanges|, Truncated(Sum(Samples(exchanges)), |exchanges|))
    ensures IsQuotient(Sum(TimesReceived(exchanges)) - Sum(TimesSent(exchanges)), |exchanges|,
                       Truncated(Sum(RoundTrips(exchanges)), |exchanges|))
  {
    TruncatedIsQuotient(Sum(Samples(exchanges)), |exchanges|);
    TruncatedIsQuotient(Sum(RoundTrips(exchanges)), |exchanges|);
    RoundTripsTotal(exchanges);
  }

  method Accumulate(s: seq<int>) returns (sum: int)
    ensures sum == Sum(s)
  {
    sum := 0;
    for i := 0 to |s|
      invariant sum == Sum(s[..i])
    {
      assert s[..i + 1][..i] == s[..i];
      sum := sum + s[i];
    }
    assert s[..|s|] == s;
  }

  const ROUNDS := 5

  class Clock {
    var m_connected: bool
    var m_connectionSalt: nat
    var m_serverClockOffset: int
    var m_roundTripTimeMs: int

    constructor (connectionSalt: nat)
      ensures m_connected && m_connectionSalt == connectionSalt && m_serverClockOffset == m_roundTripTimeMs == 0
    {
      m_connected, m_connectionSalt, m_serverClockOffset, m_roundTripTimeMs := true, connectionSalt, 0, 0;
    }

    /** Without a connection nothing happens; a failed synchronisation leaves the offset at zero. */
    method SyncClock(rounds: seq<Round>) returns (result: int)
      requires |rounds| == ROUNDS
      modifies this
      ensures var ready, outcome := old(m_connected) && old(m_connectionSalt) != 0, Measure(rounds);
              && (result == 0 || result == 1) && (result == 0 <==> ready && outcome.Measured? && outcome.exchanges != [])
              && m_serverClockOffset == (if !ready then old(m_serverClockOffset)
                                         else if result != 0 then 0
                                         else Truncated(Sum(Samples(outcome.exchanges)), |outcome.exchanges|))
              && m_roundTripTimeMs == (if result != 0 then old(m_roundTripTimeMs)
                                       else Truncated(Sum(RoundTrips(outcome.exchanges)), |outcome.exchanges|))
              && m_connected == (old(m_connected) && !(ready && outcome == Aborted(true)))
      ensures result == 0 ==>
              var exchanges := Measure(rounds).exchanges;
              && IsQuotient(Sum(Samples(exchanges)), |exchanges|, m_serverClockOffset)
              && IsQuotient(Sum(TimesReceived(exchanges)) - Sum(TimesSent(exchanges)), |exchanges|, m_roundTripTimeMs)
      ensures m_connectionSalt == old(m_connectionSalt)
    {
      result := 1;
      if !m_connected || m_connectionSalt == 0 {
        return;
      }
      var offsets, roundTrips := [], [];
      ghost var exchanges := [];
      for i := 0 to ROUNDS
        invariant Measure(rounds[..i]) == Measured(exchanges)
        invariant offsets == Samples(exchanges) && roundTrips == RoundTrips(exchanges)
        invariant m_connected && m_connectionSalt == old(m_connectionSalt)
        invariant m_roundTripTimeMs == old(m_roundTripTimeMs)
        invariant exchanges == [] ==> i == 0 || m_serverClockOffset == 0
      {
        m_serverClockOffset := 0;
        assert rounds[..i + 1][..i] == rounds[..i];
        match rounds[i] {
          case Answered(e) =>
            var roundTripTime := e.received - e.sent;
            roundTrips := roundTrips + [roundTripTime];
            var offset1 := e.stamp - e.sent - Truncated(roundTripTime, 2);
            var offset2 := e.stamp - e.received - Truncated(roundTripTime, 2);
            m_serverClockOffset := Truncated(offset1 + offset2, 2);
            offsets := offsets + [m_serverClockOffset];
            exchanges := exchanges + [e];
          case TimedOut =>
          case NotSent =>
            m_connected := false;
            AbortedStays(rounds, i + 1);
            return;
          case Unusable =>
            AbortedStays(rounds, i + 1);
            return;
        }
      }
      assert rounds[..ROUNDS] == rounds;
      if offsets != [] {
        var offsetSum := Accumulate(offsets);
        var roundTripSum := Accumulate(roundTrips);
        m_serverClockOffset := Truncated(offsetSum, |offsets|);
        m_roundTripTimeMs := Truncated(roundTripSum, |roundTrips|);
        result := 0;
        BothAverages(exchanges);
      }
    }
  }

  /** Exchanges against one constant offset, none slower than the given round trip. */
  ghost predicate AllGenuine(exchanges: seq<Exchange>, offset: int, slowest: int) {
    forall i :: 0 <= i < |exchanges| ==> Genuine(exchanges[i], offset) && RoundTrip(exchanges[i]) <= slowest
  }

  lemma {:induction false} SumBounds(exchanges: seq<Exchange>, offset: int, slowest: int)
    requires AllGenuine(exchanges, offset, slowest)
    ensures |exchanges| * (offset - slowest) <= Sum(Samples(exchanges)) <= |exchanges| * (offset + 1)
    decreases |exchanges|
  {
    if exchanges == [] {
    } else {
      var k := |exchanges| - 1;
      SumBounds(exchanges[..k], offset, slowest);
      assert Samples(exchanges)[..k] == Samples(exchanges[..k]);
      SampleBounds(exchanges[k], offset);
      assert RoundTrip(exchanges[k]) <= slowest && slowest >= 0;
      Times(k, offset - slowest, offset + 1);
    }
  }

  /**
   However many rounds are averaged, the clock offset is never more than one millisecond
   above the true one and never below it by more than the slowest round trip.
   */
  lemma {:induction false} AverageOffsetBounds(exchanges: seq<Exchange>, offset: int, slowest: int)
    requires exchanges != [] && AllGenuine(exchanges, offset, slowest)
    ensures offset - slowest <= Truncated(Sum(Samples(exchanges)), |exchanges|) <= offset + 1
  {
    SumBounds(exchanges, offset, slowest);
    TruncatedBetween(Sum(Samples(exchanges)), |exchanges|, offset - slowest, offset + 1);
  }

  ghost predicate RoundTripsWithin(exchanges: seq<Exchange>, fastest: int, slowest: int) {
    forall i :: 0 <= i < |exchanges| ==> fastest <= exchanges[i].received - exchanges[i].sent <= slowest
  }

  lemma {:induction false} RoundTripSumBounds(exchanges: seq<Exchange>, fastest: int, slowest: int)
    requires RoundTripsWithin(exchanges, fastest, slowest)
    ensures |exchanges| * fastest <= Sum(RoundTrips(exchanges)) <= |exchanges| * slowest
    decreases |exchanges|
  {
    if exchanges == [] {
    } else {
      var k := |exchanges| - 1;
      RoundTripSumBounds(exchanges[..k], fastest, slowest);
      assert RoundTrips(exchanges)[..k] == RoundTrips(exchanges[..k]);
      assert fastest <= RoundTrip(exchanges[k]) <= slowest;
      Times(k, fastest, slowest);
    }
  }

  /** The averaged round trip lies between the fastest and the slowest. */
  lemma {:induction false} AverageRoundTripBounds(exchanges: seq<Exchange>, fastest: int, slowest: int)
    requires exchanges != [] && RoundTripsWithin(exchanges, fastest, slowest)
    ensures fastest <= Truncated(Sum(RoundTrips(exchanges)), |exchanges|) <= slowest
  {
    RoundTripSumBounds(exchanges, fastest, slowest);
    TruncatedBetween(Sum(RoundTrips(exchanges)), |exchanges|, fastest, slowest);
  }
}
