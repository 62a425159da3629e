/**
 Every run of the whole exchange is a run of either end by itself: every header on its way is
 what its end sends after some run of its own. So what Marking says of those headers holds
 at every step of every run, with loss, repetition, overtaking, wraps and any delay.
 */
module Origins {
  import opened SequenceNumbers
  import opened AckBits
  import opened Links
  import opened Channels
  import opened Exchange
  import opened Marking
  import ServerLink
  import ClientLink

  lemma {:induction false} ServerRunAppend(events: seq<ServerLink.Event>, e: ServerLink.Event)
    requires ServerLink.Timed(events) && |e.clock| == 32
    ensures ServerLink.Timed(events + [e])
    ensures ServerLink.Run(events + [e]).link == ServerLink.ServerStep(ServerLink.Run(events).link, e.header, e.clock, e.now)
  {
    assert (events + [e])[..|events|] == events;
  }

  lemma {:induction false} ClientRunAppend(events: seq<ClientLink.Event>, e: ClientLink.Event)
    requires ClientLink.Timed(events) && (e.Receive? ==> |e.clock| == 32)
    ensures ClientLink.Timed(events + [e])
    ensures ClientLink.Run(events + [e]).link ==
            match e
            case Send(now) => Depart(ClientLink.Run(events).link, now)
            case Receive(h, clock) => ClientLink.ClientReceive(ClientLink.Run(events).link, h, clock)
  {
    assert (events + [e])[..|events|] == events;
  }

  lemma {:induction false} ServerGoesOn(s: System, a: Action, before: seq<ServerLink.Event>)
    returns (events: seq<ServerLink.Event>)
    requires Possible(s, a) && ServerLink.Timed(before) && ServerLink.Run(before).link == s.server
    ensures ServerLink.Timed(events) && |events| <= |before| + 1 && ServerLink.Run(events).link == Step(s, a).server
  {
    events := before;
    if a.ServerReceives? {
      var e := ServerLink.Event(s.toServer[0].header, a.clock, a.now);
      ServerRunAppend(before, e);
      events := before + [e];
    }
  }

  lemma {:induction false} ClientGoesOn(s: System, a: Action, before: seq<ClientLink.Event>)
    returns (events: seq<ClientLink.Event>)
    requires Possible(s, a) && ClientLink.Timed(before) && ClientLink.Run(before).link == s.client
    ensures ClientLink.Timed(events) && |events| <= |before| + 1 && ClientLink.Run(events).link == Step(s, a).client
  {
    events := before;
    if a.ClientSends? {
      ClientRunAppend(before, ClientLink.Send(a.now));
      events := before + [ClientLink.Send(a.now)];
    } else if a.ClientReceives? {
      var e := ClientLink.Receive(s.toClient[0].header, a.clock);
      ClientRunAppend(before, e);
      events := before + [e];
    }
  }

  /** The server of a run is the server after what it has received. */
  lemma {:induction false} ServerRuns(states: seq<System>, actions: seq<Action>, k: nat)
    returns (events: seq<ServerLink.Event>)
    requires IsRun(states, actions) && k < |states|
    ensures ServerLink.Timed(events) && |events| <= k && ServerLink.Run(events).link == states[k].server
  {
    if k == 0 {
      events := [];
    } else {
      var before := ServerRuns(states, actions, k - 1);
      events := ServerGoesOn(states[k - 1], actions[k - 1], before);
    }
  }

  /** The client of a run is the client after what it has sent and received. */
  lemma {:induction false} ClientRuns(states: seq<System>, actions: seq<Action>, k: nat)
    returns (events: seq<ClientLink.Event>)
    requires IsRun(states, actions) && k < |states|
    ensures ClientLink.Timed(events) && |events| <= k && ClientLink.Run(events).link == states[k].client
  {
    if k == 0 {
      events := [];
    } else {
      var before := ClientRuns(states, actions, k - 1);
      events := ClientGoesOn(states[k - 1], actions[k - 1], before);
    }
  }

  /** Channels bring in nothing new. */
  lemma {:induction false} ChannelMembers(channel: seq<Packet>, p: Packet)
    ensures forall repeated :: channel != [] && p in Rest(channel, repeated) ==> p in channel
    ensures forall i: nat :: i < |channel| && p in Without(channel, i) ==> p in channel
    ensures forall i: nat :: i + 1 < |channel| && p in Swapped(channel, i) ==> p in channel
  {
  }

  /** A packet to the client is new, or was on its way before. */
  lemma {:induction false} ToClientBefore(s: System, a: Action, p: Packet)
    requires Possible(s, a) && p in Step(s, a).toClient && p !in s.toClient
    ensures a.ServerReceives? && p.header == ServerLink.Reply(s.server, s.toServer[0].header.seqNum)
  {
    ChannelMembers(s.toClient, p);
  }

  lemma {:induction false} ToServerBefore(s: System, a: Action, p: Packet)
    requires Possible(s, a) && p in Step(s, a).toServer && p !in s.toServer
    ensures a.ClientSends? && p.header == ClientLink.NextHeader(s.client)
  {
    ChannelMembers(s.toServer, p);
  }

  /** Every packet on its way to the client is the server's reply to a packet after some run. */
  lemma {:induction false} ReplyOrigin(states: seq<System>, actions: seq<Action>, k: nat, p: Packet)
    returns (events: seq<ServerLink.Event>, seqNum: uint16)
    requires IsRun(states, actions) && k < |states| && p in states[k].toClient
    ensures ServerLink.Timed(events) && |events| < k && p.header == ServerLink.Reply(ServerLink.Run(events).link, seqNum)
    decreases k
  {
    if p in states[k - 1].toClient {
      events, seqNum := ReplyOrigin(states, actions, k - 1, p);
    } else {
      ToClientBefore(states[k - 1], actions[k - 1], p);
      events := ServerRuns(states, actions, k - 1);
      seqNum := states[k - 1].toServer[0].header.seqNum;
    }
  }

  /** Every packet on its way to the server is the client's next packet after some run. */
  lemma {:induction false} HeaderOrigin(states: seq<System>, actions: seq<Action>, k: nat, p: Packet)
    returns (events: seq<ClientLink.Event>)
    requires IsRun(states, actions) && k < |states| && p in states[k].toServer
    ensures ClientLink.Timed(events) && |events| < k && p.header == ClientLink.NextHeader(ClientLink.Run(events).link)
    decreases k
  {
    if p in states[k - 1].toServer {
      events := HeaderOrigin(states, actions, k - 1, p);
    } else {
      ToServerBefore(states[k - 1], actions[k - 1], p);
      events := ClientRuns(states, actions, k - 1);
    }
  }

  /**
   At every step of every run at which the client takes a packet: it marks exactly the stored
   packets that the counts of the server, when it sent that packet, vouch for; and the step
   is harmless exactly when the server has received all of those.
   */
  lemma {:induction false} ClientStepMarksExactly(states: seq<System>, actions: seq<Action>, k: nat, n: uint64)
    returns (events: seq<ServerLink.Event>, seqNum: uint16)
    requires IsRun(states, actions) && k < |actions| && |actions| + 1 < MAX_EVENTS && actions[k].ClientReceives?
    ensures ServerLink.Timed(events) && |events| < k
    ensures var s, r := states[k], ServerLink.Run(events);
            var h, counted, history := s.toClient[0].header, Arrive(r.link, seqNum).remoteLarge, HistoryAfter(r.link, r.history, seqNum);
            && h == ServerLink.Reply(r.link, seqNum)
            && (n in AckedNums(Marks(s.client, h, actions[k].clock)) <==>
                n in AckedNums(s.client.sent) || (n in Nums(s.client.sent) && Vouches(history, counted, TakenFor(s.client, h), n)))
            && (HarmlessStep(s, actions[k]) <==> VouchesReceived(s.client.sent, history, counted, TakenFor(s.client, h), s.serverGot))
  {
    var s := states[k];
    events, seqNum := ReplyOrigin(states, actions, k, s.toClient[0]);
    RunStores(states, actions, k);
    ReplyMarksExactly(events, seqNum, s.client, actions[k].clock, n);
    ReplyIsHarmlessIff(events, seqNum, s.client, s.serverGot);
  }

  /** And the same for the server, with what the client had heard when it sent the packet. */
  lemma {:induction false} ServerStepMarksExactly(states: seq<System>, actions: seq<Action>, k: nat, n: uint64)
    returns (events: seq<ClientLink.Event>)
    requires IsRun(states, actions) && k < |actions| && |actions| + 1 < MAX_EVENTS && actions[k].ServerReceives?
    ensures ClientLink.Timed(events) && |events| < k
    ensures var s, r := states[k], ClientLink.Run(events);
            var h, counted, list := s.toServer[0].header, r.link.remoteSmall, Newest(r.history, ClientLink.MAX_RECEIVED);
            && h == ClientLink.NextHeader(r.link)
            && (n in AckedNums(Marks(s.server, h, actions[k].clock)) <==>
                n in AckedNums(s.server.sent) || (n in Nums(s.server.sent) && Vouches(list, counted, TakenFor(s.server, h), n)))
            && (HarmlessStep(s, actions[k]) <==> VouchesReceived(s.server.sent, list, counted, TakenFor(s.server, h), s.clientGot))
  {
    var s := states[k];
    events := HeaderOrigin(states, actions, k, s.toServer[0]);
    RunStores(states, actions, k);
    NextHeaderMarksExactly(events, s.server, actions[k].clock, n);
    NextHeaderIsHarmlessIff(events, s.server, s.clientGot);
  }
}
