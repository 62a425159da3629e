/**
 Every run of the whole exchange in order, past any number of wraps: what either end has
 received is an in-order stream, every header on its way reports on such a stream, and what
 the other end makes of it is what Wrapping says.
 */
module Streams {
  import opened SequenceNumbers
  import opened AckBits
  import opened Links
  import opened Channels
  import opened Exchange
  import opened Marking
  import opened Wrapping
  import Origins
  import ServerLink
  import ClientLink

  // ---------- a channel that keeps its order ----------

  /** The packet carries the wire number that belongs to it. */
  predicate Numbered(p: Packet, floor: nat, top: nat) {
    1 <= p.number && floor <= p.number <= top && p.header.seqNum == Small(p.number)
  }

  /** Each packet above the one before it. */
  predicate Lined(channel: seq<Packet>, floor: nat, top: nat) {
    channel == [] || (Numbered(channel[0], floor, top) && Lined(channel[1..], channel[0].number + 1, top))
  }

  lemma {:induction false} LinedAppend(channel: seq<Packet>, floor: nat, top: nat, p: Packet)
    requires Lined(channel, floor, top) && floor <= top + 1 && Numbered(p, top + 1, top + 1)
    ensures Lined(channel + [p], floor, top + 1)
  {
    if channel == [] {
    } else {
      LinedAppend(channel[1..], channel[0].number + 1, top, p);
      assert (channel + [p])[1..] == channel[1..] + [p];
    }
  }

  lemma {:induction false} LinedDeliver(channel: seq<Packet>, floor: nat, top: nat, repeated: bool)
    requires channel != [] && Lined(channel, floor, top)
    ensures Lined(Rest(channel, repeated), channel[0].number, top)
  {
    if !repeated {
      LinedFloor(channel[1..], channel[0].number + 1, top, channel[0].number);
    }
  }

  lemma {:induction false} LinedFloor(channel: seq<Packet>, floor: nat, top: nat, lower: nat)
    requires Lined(channel, floor, top) && lower <= floor
    ensures Lined(channel, lower, top)
  {
  }

  lemma {:induction false} LinedLose(channel: seq<Packet>, floor: nat, top: nat, i: nat)
    requires i < |channel| && Lined(channel, floor, top)
    ensures Lined(Without(channel, i), floor, top)
    decreases i
  {
    if i == 0 {
      assert Without(channel, i) == channel[1..];
      LinedFloor(channel[1..], channel[0].number + 1, top, floor);
    } else {
      LinedLose(channel[1..], channel[0].number + 1, top, i - 1);
      assert Without(channel, i) == [channel[0]] + Without(channel[1..], i - 1);
    }
  }

  // ---------- what an end has received ----------

  ghost predicate Gathered(stream: seq<nat>, got: set<nat>) {
    InOrder(stream) && FromOne(stream) && Got(stream) == got
  }

  lemma {:induction false} GatheredAppend(stream: seq<nat>, got: set<nat>, n: nat)
    requires Gathered(stream, got) && 1 <= n && Last(stream) <= n
    ensures Gathered(stream + [n], got + {n}) && Last(stream + [n]) == n
  {
    assert (stream + [n])[..|stream|] == stream;
  }

  /** What is on its way after the packets of this stream. */
  ghost predicate Following(channel: seq<Packet>, stream: seq<nat>, top: nat) {
    Last(stream) <= top && Lined(channel, Last(stream), top)
  }

  lemma {:induction false} FollowingAppend(channel: seq<Packet>, stream: seq<nat>, top: nat, p: Packet)
    requires Following(channel, stream, top) && Numbered(p, top + 1, top + 1)
    ensures Following(channel + [p], stream, top + 1)
  {
    LinedAppend(channel, Last(stream), top, p);
  }

  lemma {:induction false} FollowingNext(channel: seq<Packet>, stream: seq<nat>, got: set<nat>, top: nat, repeated: bool)
    requires Following(channel, stream, top) && channel != [] && Gathered(stream, got)
    ensures Following(Rest(channel, repeated), stream + [channel[0].number], top)
    ensures Gathered(stream + [channel[0].number], got + {channel[0].number})
  {
    GatheredAppend(stream, got, channel[0].number);
    LinedDeliver(channel, Last(stream), top, repeated);
  }

  /** The server after the packets of this stream. */
  ghost predicate ServerHas(server: Link, events: seq<ServerLink.Event>, stream: seq<nat>) {
    ServerLink.Timed(events) && ServerLink.Run(events).link == server && Carries(events, stream)
  }

  ghost predicate ClientHas(client: Link, events: seq<ClientLink.Event>, stream: seq<nat>) {
    ClientLink.Timed(events) && ClientLink.Run(events).link == client && AreSmall(Wires(events), stream)
  }

  ghost predicate ServerFollows(s: System, events: seq<ServerLink.Event>, stream: seq<nat>) {
    && ServerHas(s.server, events, stream) && Gathered(stream, s.serverGot)
    && Following(s.toServer, stream, s.client.localLarge)
  }

  ghost predicate ClientFollows(s: System, events: seq<ClientLink.Event>, stream: seq<nat>) {
    && ClientHas(s.client, events, stream) && Gathered(stream, s.clientGot)
    && Following(s.toClient, stream, s.server.localLarge)
  }

  lemma {:induction false} CarriesAppend(events: seq<ServerLink.Event>, stream: seq<nat>, e: ServerLink.Event, n: nat)
    requires Carries(events, stream) && e.header.seqNum == Small(n)
    ensures Carries(events + [e], stream + [n])
  {
  }

  lemma {:induction false} ServerHasNext(server: Link, events: seq<ServerLink.Event>, stream: seq<nat>,
                                         e: ServerLink.Event, n: nat)
    requires ServerHas(server, events, stream) && |e.clock| == 32 && e.header.seqNum == Small(n)
    ensures ServerHas(ServerLink.ServerStep(server, e.header, e.clock, e.now), events + [e], stream + [n])
  {
    Origins.ServerRunAppend(events, e);
    CarriesAppend(events, stream, e, n);
  }

  lemma {:induction false} ServerTakesNext(s: System, repeated: bool, clock: seq<int>, now: int,
                                           events: seq<ServerLink.Event>, stream: seq<nat>)
    requires ServerFollows(s, events, stream) && Possible(s, ServerReceives(repeated, clock, now))
    ensures ServerFollows(Step(s, ServerReceives(repeated, clock, now)),
                          events + [ServerLink.Event(s.toServer[0].header, clock, now)], stream + [s.toServer[0].number])
  {
    ServerTakes(s, repeated, clock, now);
    ServerHasNext(s.server, events, stream, ServerLink.Event(s.toServer[0].header, clock, now), s.toServer[0].number);
    FollowingNext(s.toServer, stream, s.serverGot, s.client.localLarge, repeated);
  }

  lemma {:induction false} SendsNumbered(l: Link)
    requires l.localLarge + 1 < TWO_64
    ensures Numbered(Packet(l.localLarge + 1, ClientLink.NextHeader(l)), l.localLarge + 1, l.localLarge + 1)
  {
    NextHeaderParts(l);
  }

  lemma {:induction false} ServerWaits(s: System, now: int, events: seq<ServerLink.Event>, stream: seq<nat>)
    requires ServerFollows(s, events, stream) && s.client.localLarge + 1 < TWO_64
    ensures ServerFollows(Step(s, ClientSends(now)), events, stream)
  {
    SendsNumbered(s.client);
    FollowingAppend(s.toServer, stream, s.client.localLarge, Packet(s.client.localLarge + 1, ClientLink.NextHeader(s.client)));
    DepartCounts(s.client, now);
  }

  /** The other steps leave the server alone. */
  lemma {:induction false} ServerUntouched(s: System, a: Action, events: seq<ServerLink.Event>, stream: seq<nat>)
    requires Possible(s, a) && KeepsOrder(a) && ServerFollows(s, events, stream) && !a.ServerReceives? && !a.ClientSends?
    ensures ServerFollows(Step(s, a), events, stream)
  {
    match a
    case LoseToServer(i) => LinedLose(s.toServer, Last(stream), s.client.localLarge, i);
    case ClientReceives(_, clock) => ClientNumber(s.client, s.toClient[0].header, clock);
    case LoseToClient(_) =>
  }

  lemma {:induction false} ServerFollowsOn(s: System, a: Action, before: seq<ServerLink.Event>, had: seq<nat>)
    returns (events: seq<ServerLink.Event>, stream: seq<nat>)
    requires Possible(s, a) && KeepsOrder(a) && ServerFollows(s, before, had) && s.client.localLarge + 1 < TWO_64
    ensures ServerFollows(Step(s, a), events, stream) && |events| <= |before| + 1
  {
    events, stream := before, had;
    if a.ServerReceives? {
      ServerTakesNext(s, a.repeated, a.clock, a.now, before, had);
      events, stream := before + [ServerLink.Event(s.toServer[0].header, a.clock, a.now)], had + [s.toServer[0].number];
    } else if a.ClientSends? {
      ServerWaits(s, a.now, before, had);
    } else {
      ServerUntouched(s, a, before, had);
    }
  }

  lemma ServerFollowsAtStart()
    ensures ServerFollows(START, [], [])
  {
  }

  /** Over every run in order: what the server has received is such a stream. */
  lemma {:induction false} ServerStream(states: seq<System>, actions: seq<Action>, k: nat)
    returns (events: seq<ServerLink.Event>, stream: seq<nat>)
    requires IsRun(states, actions) && OrderKept(actions) && k < |states| && k < MAX_EVENTS
    ensures ServerFollows(states[k], events, stream) && |events| <= k
  {
    if k == 0 {
      events, stream := [], [];
      ServerFollowsAtStart();
    } else {
      var before, had := ServerStream(states, actions, k - 1);
      RunStores(states, actions, k - 1);
      events, stream := ServerFollowsOn(states[k - 1], actions[k - 1], before, had);
    }
  }

  lemma {:induction false} WiresAppend(events: seq<ClientLink.Event>, e: ClientLink.Event)
    ensures Wires(events + [e]) == Wires(events) + (if e.Receive? then [e.header.seqNum] else [])
  {
    assert (events + [e])[..|events|] == events;
  }

  lemma {:induction false} ClientHasNext(client: Link, events: seq<ClientLink.Event>, stream: seq<nat>,
                                         e: ClientLink.Event, n: nat)
    requires ClientHas(client, events, stream) && e.Receive? && |e.clock| == 32 && e.header.seqNum == Small(n)
    ensures ClientHas(ClientLink.ClientReceive(client, e.header, e.clock), events + [e], stream + [n])
  {
    Origins.ClientRunAppend(events, e);
    WiresAppend(events, e);
  }

  lemma {:induction false} ClientTakesNext(s: System, repeated: bool, clock: seq<int>, events: seq<ClientLink.Event>,
                                           stream: seq<nat>)
    requires ClientFollows(s, events, stream) && Possible(s, ClientReceives(repeated, clock))
    ensures ClientFollows(Step(s, ClientReceives(repeated, clock)),
                          events + [ClientLink.Receive(s.toClient[0].header, clock)], stream + [s.toClient[0].number])
  {
    ClientHasNext(s.client, events, stream, ClientLink.Receive(s.toClient[0].header, clock), s.toClient[0].number);
    FollowingNext(s.toClient, stream, s.clientGot, s.server.localLarge, repeated);
  }

  lemma {:induction false} RepliesNumbered(l: Link, seqNum: uint16)
    requires l.localLarge + 1 < TWO_64
    ensures Numbered(Packet(l.localLarge + 1, ServerLink.Reply(l, seqNum)), l.localLarge + 1, l.localLarge + 1)
  {
    assert Wrap64(l.localLarge + 1) == l.localLarge + 1;
  }

  lemma {:induction false} ClientWaits(s: System, repeated: bool, clock: seq<int>, now: int,
                                       events: seq<ClientLink.Event>, stream: seq<nat>)
    requires ClientFollows(s, events, stream) && s.server.localLarge + 1 < TWO_64
    requires Possible(s, ServerReceives(repeated, clock, now))
    ensures ClientFollows(Step(s, ServerReceives(repeated, clock, now)), events, stream)
  {
    var h := s.toServer[0].header;
    ServerTakes(s, repeated, clock, now);
    RepliesNumbered(s.server, h.seqNum);
    FollowingAppend(s.toClient, stream, s.server.localLarge, Packet(s.server.localLarge + 1, ServerLink.Reply(s.server, h.seqNum)));
    ServerNumber(s.server, h, clock, now);
  }

  lemma {:induction false} ClientGoesOnSending(s: System, now: int, events: seq<ClientLink.Event>, stream: seq<nat>)
    requires ClientFollows(s, events, stream)
    ensures ClientFollows(Step(s, ClientSends(now)), events + [ClientLink.Send(now)], stream)
  {
    Origins.ClientRunAppend(events, ClientLink.Send(now));
    WiresAppend(events, ClientLink.Send(now));
  }

  lemma {:induction false} ClientFollowsOn(s: System, a: Action, before: seq<ClientLink.Event>, had: seq<nat>)
    returns (events: seq<ClientLink.Event>, stream: seq<nat>)
    requires Possible(s, a) && KeepsOrder(a) && ClientFollows(s, before, had) && s.server.localLarge + 1 < TWO_64
    ensures ClientFollows(Step(s, a), events, stream) && |events| <= |before| + 1
  {
    events, stream := before, had;
    match a
    case ServerReceives(repeated, clock, now) => ClientWaits(s, repeated, clock, now, before, had);
    case ClientSends(now) =>
      ClientGoesOnSending(s, now, before, had);
      events := before + [ClientLink.Send(now)];
    case ClientReceives(repeated, clock) =>
      ClientTakesNext(s, repeated, clock, before, had);
      events, stream := before + [ClientLink.Receive(s.toClient[0].header, clock)], had + [s.toClient[0].number];
    case LoseToClient(i) => LinedLose(s.toClient, Last(had), s.server.localLarge, i);
    case LoseToServer(_) =>
  }

  lemma ClientFollowsAtStart()
    ensures ClientFollows(START, [], [])
  {
  }

  /** And what the client has received. */
  lemma {:induction false} ClientStream(states: seq<System>, actions: seq<Action>, k: nat)
    returns (events: seq<ClientLink.Event>, stream: seq<nat>)
    requires IsRun(states, actions) && OrderKept(actions) && k < |states| && k < MAX_EVENTS
    ensures ClientFollows(states[k], events, stream) && |events| <= k
  {
    if k == 0 {
      events, stream := [], [];
      ClientFollowsAtStart();
    } else {
      var before, had := ClientStream(states, actions, k - 1);
      RunStores(states, actions, k - 1);
      events, stream := ClientFollowsOn(states[k - 1], actions[k - 1], before, had);
    }
  }

  // ---------- what a header in flight reports on ----------

  /** The reply answers the last packet of this stream, all of which the server has received. */
  ghost predicate Reports(s: System, h: Header, events: seq<ServerLink.Event>, stream: seq<nat>) {
    && ServerLink.Timed(events) && stream != [] && Carries(events, stream[..|stream| - 1]) && h == Answer(events, stream)
    && InOrder(stream) && FromOne(stream) && Got(stream) <= s.serverGot && Last(stream) <= s.client.localLarge
  }

  lemma {:induction false} StepGrows(s: System, a: Action)
    requires Possible(s, a) && Counting(s)
    ensures s.serverGot <= Step(s, a).serverGot && s.clientGot <= Step(s, a).clientGot
    ensures s.client.localLarge <= Step(s, a).client.localLarge && s.server.localLarge <= Step(s, a).server.localLarge
  {
    StepStores(s, a);
  }

  /** A reply reports on what the server had received, and on the packet that it answers. */
  lemma {:induction false} NewReplyReports(s: System, a: Action, p: Packet, events: seq<ServerLink.Event>, had: seq<nat>)
    requires Possible(s, a) && a.ServerReceives? && ServerFollows(s, events, had)
    requires p.header == ServerLink.Reply(s.server, s.toServer[0].header.seqNum)
    ensures Reports(Step(s, a), p.header, events, had + [s.toServer[0].number])
  {
    var n := s.toServer[0].number;
    GatheredAppend(had, s.serverGot, n);
    assert (had + [n])[..|had|] == had;
    assert Step(s, a).client == s.client && Step(s, a).serverGot == s.serverGot + {n};
  }

  lemma {:induction false} NewReply(s: System, a: Action, p: Packet, before: seq<ServerLink.Event>, had: seq<nat>)
    returns (events: seq<ServerLink.Event>, stream: seq<nat>)
    requires Possible(s, a) && ServerFollows(s, before, had) && p in Step(s, a).toClient && p !in s.toClient
    ensures Reports(Step(s, a), p.header, events, stream) && events == before
  {
    Origins.ToClientBefore(s, a, p);
    NewReplyReports(s, a, p, before, had);
    events, stream := before, had + [s.toServer[0].number];
  }

  lemma {:induction false} StillReports(s: System, a: Action, h: Header, events: seq<ServerLink.Event>, stream: seq<nat>)
    requires Possible(s, a) && Counting(s) && Reports(s, h, events, stream)
    ensures Reports(Step(s, a), h, events, stream)
  {
    StepGrows(s, a);
  }

  lemma {:induction false} LaterThanStart(states: seq<System>, actions: seq<Action>, k: nat, p: Packet)
    requires IsRun(states, actions) && k < |states| && (p in states[k].toClient || p in states[k].toServer)
    ensures k > 0 && Possible(states[k - 1], actions[k - 1]) && states[k] == Step(states[k - 1], actions[k - 1])
  {
  }

  /** Over every run in order: every reply on its way reports on such a stream. */
  lemma {:induction false} ReplyStream(states: seq<System>, actions: seq<Action>, k: nat, p: Packet)
    returns (events: seq<ServerLink.Event>, stream: seq<nat>)
    requires IsRun(states, actions) && OrderKept(actions) && k < |states| && k < MAX_EVENTS && p in states[k].toClient
    ensures Reports(states[k], p.header, events, stream) && |events| < k
    decreases k
  {
    LaterThanStart(states, actions, k, p);
    var s, a := states[k - 1], actions[k - 1];
    if p in s.toClient {
      RunStores(states, actions, k - 1);
      events, stream := ReplyStream(states, actions, k - 1, p);
      StillReports(s, a, p.header, events, stream);
    } else {
      var before, had := ServerStream(states, actions, k - 1);
      events, stream := NewReply(s, a, p, before, had);
    }
  }

  /** The packet reports on this stream, all of which the client has received. */
  ghost predicate Tell(s: System, h: Header, events: seq<ClientLink.Event>, stream: seq<nat>) {
    && ClientLink.Timed(events) && AreSmall(Wires(events), stream) && h == ClientLink.NextHeader(ClientLink.Run(events).link)
    && InOrder(stream) && FromOne(stream) && Got(stream) <= s.clientGot && Last(stream) <= s.server.localLarge
  }

  lemma {:induction false} StillTells(s: System, a: Action, h: Header, events: seq<ClientLink.Event>, stream: seq<nat>)
    requires Possible(s, a) && Counting(s) && Tell(s, h, events, stream)
    ensures Tell(Step(s, a), h, events, stream)
  {
    StepGrows(s, a);
  }

  lemma {:induction false} NewHeaderTells(s: System, a: Action, p: Packet, events: seq<ClientLink.Event>, stream: seq<nat>)
    requires Possible(s, a) && ClientFollows(s, events, stream) && p in Step(s, a).toServer && p !in s.toServer
    ensures Tell(Step(s, a), p.header, events, stream)
  {
    Origins.ToServerBefore(s, a, p);
  }

  /** And every packet on its way to the server. */
  lemma {:induction false} HeaderStream(states: seq<System>, actions: seq<Action>, k: nat, p: Packet)
    returns (events: seq<ClientLink.Event>, stream: seq<nat>)
    requires IsRun(states, actions) && OrderKept(actions) && k < |states| && k < MAX_EVENTS && p in states[k].toServer
    ensures Tell(states[k], p.header, events, stream) && |events| < k
    decreases k
  {
    LaterThanStart(states, actions, k, p);
    var s, a := states[k - 1], actions[k - 1];
    if p in s.toServer {
      RunStores(states, actions, k - 1);
      events, stream := HeaderStream(states, actions, k - 1, p);
      StillTells(s, a, p.header, events, stream);
    } else {
      events, stream := ClientStream(states, actions, k - 1);
      NewHeaderTells(s, a, p, events, stream);
    }
  }

  // ---------- what it marks ----------

  /** Every gap of the stream can be bridged, and its last packet was sent less than a round ago. */
  ghost predicate Bridges(stream: seq<nat>, localLarge: nat) {
    AllBridgeable(stream) && localLarge < Last(stream) + SEQUENCE_NUMBER_MAX
  }

  /**
   Over every run in order, whenever the client takes a reply: the reply reports on what the
   server had received then, and if the gaps could be bridged and it is less than a round
   late it marks exactly the stored packets that it stands for; the step is harmless exactly
   when the server has received those.
   */
  lemma {:induction false} ClientStepInOrder(states: seq<System>, actions: seq<Action>, k: nat, n: uint64)
    returns (events: seq<ServerLink.Event>, stream: seq<nat>)
    requires IsRun(states, actions) && OrderKept(actions) && k < |actions| && |actions| + 1 < MAX_EVENTS
    requires actions[k].ClientReceives?
    ensures Reports(states[k], states[k].toClient[0].header, events, stream)
    ensures var s, h, taken := states[k], states[k].toClient[0].header, Taken(states[k].client.localLarge, Last(stream));
            Bridges(stream, s.client.localLarge) ==>
              && (n in AckedNums(Marks(s.client, h, actions[k].clock)) <==>
                  n in AckedNums(s.client.sent) || (n in Nums(s.client.sent) && Stands(stream, taken, n)))
              && (HarmlessStep(s, actions[k]) <==> StandsForReceived(s.client.sent, stream, taken, s.serverGot))
  {
    var s := states[k];
    events, stream := ReplyStream(states, actions, k, s.toClient[0]);
    RunStores(states, actions, k);
    if Bridges(stream, s.client.localLarge) {
      AnswerMarksExactly(events, stream, s.client, actions[k].clock, n);
      AnswerIsHarmlessIff(events, stream, s.client, s.serverGot);
    }
  }

  /** The same whenever the server takes a packet, with the field counted from the small number. */
  lemma {:induction false} ServerStepInOrder(states: seq<System>, actions: seq<Action>, k: nat, n: uint64)
    returns (events: seq<ClientLink.Event>, stream: seq<nat>)
    requires IsRun(states, actions) && OrderKept(actions) && k < |actions| && |actions| + 1 < MAX_EVENTS
    requires actions[k].ServerReceives?
    ensures Tell(states[k], states[k].toServer[0].header, events, stream)
    ensures var s, h, taken := states[k], states[k].toServer[0].header, Taken(states[k].server.localLarge, Last(stream));
            Bridges(stream, s.server.localLarge) ==>
              && (n in AckedNums(Marks(s.server, h, actions[k].clock)) <==>
                  n in AckedNums(s.server.sent) || (n in Nums(s.server.sent) && SmallStands(stream, taken, n)))
              && (HarmlessStep(s, actions[k]) <==> SmallStandsForReceived(s.server.sent, stream, taken, s.clientGot))
  {
    var s := states[k];
    events, stream := HeaderStream(states, actions, k, s.toServer[0]);
    RunStores(states, actions, k);
    if Bridges(stream, s.server.localLarge) {
      HeaderMarksExactly(events, stream, s.server, actions[k].clock, n);
      HeaderIsHarmlessIff(events, stream, s.server, s.clientGot);
    }
  }
}
