/**
 Building runs of the exchange: states that can be reached in order, step by step, and the
 round in which the client sends, the server answers, and the answer is lost or comes in.
 */
module Rounds {
  import opened SequenceNumbers
  import opened AckBits
  import opened Links
  import opened ServerLink
  import opened ClientLink
  import opened Channels
  import opened Exchange
  import opened Marking

  /** Some run of k steps on channels that keep their order ends here. */
  ghost predicate Reached(s: System, k: nat) {
    exists states, actions :: IsRun(states, actions) && OrderKept(actions) && |actions| == k && states[k] == s
  }

  lemma StartIsReached()
    ensures Reached(START, 0)
  {
    var states, actions: seq<Action> := [START], [];
    assert IsRun(states, actions) && OrderKept(actions) && |actions| == 0 && states[0] == START;
  }

  lemma {:induction false} ReachStep(s: System, k: nat, a: Action)
    requires Reached(s, k) && Possible(s, a) && KeepsOrder(a)
    ensures Reached(Step(s, a), k + 1)
  {
    var states, actions :| IsRun(states, actions) && OrderKept(actions) && |actions| == k && states[k] == s;
    StepsAppend(states, actions, a);
    var run, all := states + [Step(s, a)], actions + [a];
    assert IsRun(run, all) && OrderKept(all) && |all| == k + 1 && run[k + 1] == Step(s, a);
  }

  lemma {:induction false} ReachedStores(s: System, k: nat)
    requires Reached(s, k) && k < MAX_EVENTS
    ensures Counting(s)
  {
    var states, actions :| IsRun(states, actions) && OrderKept(actions) && |actions| == k && states[k] == s;
    RunStores(states, actions, k);
  }

  /** The run itself. */
  lemma {:induction false} RunTo(s: System, k: nat) returns (states: seq<System>, actions: seq<Action>)
    requires Reached(s, k)
    ensures IsRun(states, actions) && OrderKept(actions) && |actions| == k && states[k] == s
  {
    states, actions :| IsRun(states, actions) && OrderKept(actions) && |actions| == k && states[k] == s;
  }

  lemma {:induction false} EarlierIsSmaller(states: seq<System>, actions: seq<Action>, i: nat, k: nat)
    requires IsRun(states, actions) && i <= k < |states| && k < MAX_EVENTS
    ensures states[i].client.localLarge <= states[k].client.localLarge
    ensures states[i].server.localLarge <= states[k].server.localLarge
    decreases k - i
  {
    if i < k {
      EarlierIsSmaller(states, actions, i, k - 1);
      Exchange.RunStores(states, actions, k - 1);
      Exchange.StepStores(states[k - 1], actions[k - 1]);
    }
  }

  /** A run that ends before the first wrap has not seen it. */
  lemma {:induction false} EndsUnwrapped(states: seq<System>, actions: seq<Action>)
    requires IsRun(states, actions) && |actions| < MAX_EVENTS && BeforeWrap(states[|actions|])
    ensures Unwrapped(states)
  {
    forall i | 0 <= i < |states| ensures BeforeWrap(states[i]) {
      EarlierIsSmaller(states, actions, i, |actions|);
    }
  }

  // ---------- a round ----------

  ghost predicate Resting(s: System) {
    s.toServer == [] && s.toClient == []
  }

  /** The client has sent a packet. */
  function Sent(s: System, now: int): System {
    s.(client := Depart(s.client, now), toServer := s.toServer + [Packet(s.client.localLarge + 1, NextHeader(s.client))])
  }

  /** The server has answered packet p, the only one on its way. */
  function Took(s: System, client: Link, p: Packet, clock: seq<int>, now: int): System
    requires |clock| == 32
  {
    s.(client := client, server := ServerStep(s.server, p.header, clock, now), toServer := [],
       toClient := [Packet(s.server.localLarge + 1, Reply(s.server, p.header.seqNum))],
       serverGot := s.serverGot + {p.number},
       serverAcked := s.serverAcked + AckedNums(Marks(s.server, p.header, clock)))
  }

  /** The client has sent a packet, and the server has answered it. */
  function Answered(s: System, clock: seq<int>, now: int): System
    requires |clock| == 32
  {
    Took(s, Depart(s.client, now), Packet(s.client.localLarge + 1, NextHeader(s.client)), clock, now)
  }

  lemma {:induction false} SentReached(s: System, k: nat, now: int)
    requires Reached(s, k)
    ensures Reached(Sent(s, now), k + 1)
  {
    ReachStep(s, k, ClientSends(now));
  }

  lemma {:induction false} TakesOnly(s: System, client: Link, p: Packet, clock: seq<int>, now: int)
    requires s.toClient == [] && |clock| == 32
    ensures Step(s.(client := client, toServer := [p]), ServerReceives(false, clock, now)) == Took(s, client, p, clock, now)
  {
    ServerTakes(s.(client := client, toServer := [p]), false, clock, now);
  }

  lemma {:induction false} TookReached(s: System, client: Link, p: Packet, k: nat, clock: seq<int>, now: int)
    requires Reached(s.(client := client, toServer := [p]), k) && s.toClient == [] && |clock| == 32
    ensures Reached(Took(s, client, p, clock, now), k + 1)
  {
    TakesOnly(s, client, p, clock, now);
    ReachStep(s.(client := client, toServer := [p]), k, ServerReceives(false, clock, now));
  }

  lemma {:induction false} AnswerReached(s: System, k: nat, clock: seq<int>, now: int)
    requires Reached(s, k) && Resting(s) && |clock| == 32
    ensures Reached(Answered(s, clock, now), k + 2)
  {
    var client, p := Depart(s.client, now), Packet(s.client.localLarge + 1, NextHeader(s.client));
    SentReached(s, k, now);
    assert Sent(s, now) == s.(client := client, toServer := [p]);
    TookReached(s, client, p, k + 1, clock, now);
  }

  /** And the answer has been lost. */
  function Unheard(s: System, clock: seq<int>, now: int): System
    requires |clock| == 32
  {
    Answered(s, clock, now).(toClient := [])
  }

  lemma {:induction false} LostRoundReached(s: System, k: nat, clock: seq<int>, now: int)
    requires Reached(s, k) && Resting(s) && |clock| == 32
    ensures Reached(Unheard(s, clock, now), k + 3)
  {
    AnswerReached(s, k, clock, now);
    ReachStep(Answered(s, clock, now), k + 2, LoseToClient(0));
  }

  /** What such a round leaves alone, and what it changes. */
  lemma {:induction false} UnheardIs(s: System, clock: seq<int>, now: int)
    requires Resting(s) && |clock| == 32
    ensures var next, h := Unheard(s, clock, now), NextHeader(s.client);
            && Resting(next) && next.clientGot == s.clientGot && next.clientAcked == s.clientAcked
            && next.client == Depart(s.client, now) && next.server == ServerStep(s.server, h, clock, now)
            && next.serverGot == s.serverGot + {s.client.localLarge + 1}
            && next.serverAcked == s.serverAcked + AckedNums(Marks(s.server, h, clock))
  {
  }

  /** The answer has come in. */
  function Delivered(s: System, clock: seq<int>): System
    requires |clock| == 32 && |s.toClient| == 1
  {
    var p := s.toClient[0];
    s.(client := ClientReceive(s.client, p.header, clock), toClient := [],
       clientGot := s.clientGot + {p.number},
       clientAcked := s.clientAcked + AckedNums(Marks(s.client, p.header, clock)))
  }

  lemma {:induction false} AnsweredIs(s: System, clock: seq<int>, now: int)
    requires Resting(s) && |clock| == 32
    ensures var next, h := Answered(s, clock, now), NextHeader(s.client);
            && next.client == Depart(s.client, now) && next.server == ServerStep(s.server, h, clock, now)
            && next.toServer == [] && next.toClient == [Packet(s.server.localLarge + 1, Reply(s.server, h.seqNum))]
            && next.clientGot == s.clientGot && next.serverAcked == s.serverAcked + AckedNums(Marks(s.server, h, clock))
  {
  }

  /** What a round with an answer that comes in leaves alone, and what it changes. */
  lemma {:induction false} DeliveredIs(s: System, clock: seq<int>, now: int)
    requires Resting(s) && |clock| == 32
    ensures var next, h := Delivered(Answered(s, clock, now), clock), NextHeader(s.client);
            && Resting(next) && next.clientGot == s.clientGot + {s.server.localLarge + 1}
            && next.client == ClientReceive(Depart(s.client, now), Reply(s.server, h.seqNum), clock)
            && next.server == ServerStep(s.server, h, clock, now)
  {
    AnsweredIs(s, clock, now);
  }

  /** Half a round: the server has taken the client's packet. */
  lemma {:induction false} HalfRoundReached(s: System, k: nat, clock: seq<int>, now: int) returns (next: System)
    requires Reached(s, k) && Resting(s) && |clock| == 32
    ensures Reached(next, k + 2) && next.clientGot == s.clientGot
    ensures next.serverAcked == s.serverAcked + AckedNums(Marks(s.server, NextHeader(s.client), clock))
  {
    AnswerReached(s, k, clock, now);
    next := Answered(s, clock, now);
    AnsweredIs(s, clock, now);
  }

  /** A round with an answer that comes in. */
  lemma {:induction false} HeardRoundReached(s: System, k: nat, clock: seq<int>, now: int) returns (next: System)
    requires Reached(s, k) && Resting(s) && |clock| == 32
    ensures var h := NextHeader(s.client);
            && Reached(next, k + 3) && Resting(next) && next.clientGot == s.clientGot + {s.server.localLarge + 1}
            && next.client == ClientReceive(Depart(s.client, now), Reply(s.server, h.seqNum), clock)
            && next.server == ServerStep(s.server, h, clock, now)
  {
    AnswerReached(s, k, clock, now);
    ReachStep(Answered(s, clock, now), k + 2, ClientReceives(false, clock));
    next := Delivered(Answered(s, clock, now), clock);
    DeliveredIs(s, clock, now);
  }

  // ---------- a client that hears nothing ----------

  /** The client has sent n packets and has heard nothing. */
  ghost predicate Deaf(client: Link, n: nat) {
    client.localLarge == n && client.remoteSmall == 0 && client.received == []
  }

  /** Its next header acknowledges nothing. */
  lemma {:induction false} DeafHeader(client: Link, n: nat)
    requires Deaf(client, n) && n + 1 < TWO_64
    ensures NextHeader(client) == Header(Small(n + 1), 0, 0)
  {
    NextHeaderParts(client);
  }

  lemma {:induction false} DeafSends(client: Link, n: nat, now: int)
    requires Deaf(client, n) && n + 1 < TWO_64
    ensures Deaf(Depart(client, now), n + 1) && Depart(client, now).localSmall == Small(n + 1)
    ensures Depart(client, now).sent == client.sent + [PacketInfo(n + 1, false, now, 0, 0)]
  {
    NextNumber(n);
  }
}
