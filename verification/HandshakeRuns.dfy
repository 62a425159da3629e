/**
 Runs of the handshake that end in disagreement: one with a salt that is used twice, and one
 with fresh salts in which one packet overtakes another. So agreement needs both.
 */
module HandshakeRuns {
  import opened Channels
  import opened Handshakes
  import opened Wrappers

  // ---------- without fresh salts ----------

  lemma {:induction false} XorCancels(c: Salt, v: Salt, w: Salt)
    ensures Xor(c, v) == Xor(c, w) <==> v == w
  {
  }

  function TwiceTheSameSalt(c: Salt, v: Salt, w: Salt): seq<Action> {
    [Begins(c), ServerReceives(true, v), ServerReceives(false, w), ClientReceives(false), ServerReceives(false, NO_SALT),
     ClientFails(Timeout), Begins(c), ClientReceives(false), ClientReceives(false)]
  }

  /** The state after the server has taken the first message to it, one way and the other. */
  lemma {:induction false} TakesRequest(s: System, repeated: bool, v: Salt)
    requires s.toServer != [] && s.toServer[0].Request?
    ensures var c, next := s.toServer[0].clientSalt, Step(s, ServerReceives(repeated, v));
            var players := Requested(s.players, s.me, c, v);
            next == s.(players := players, toServer := Rest(s.toServer, repeated), toClient := s.toClient + [Challenge(c, v)],
                       connected := s.connected + ConnectedPlayers(players))
  {
  }

  lemma {:induction false} TakesResponse(s: System, i: nat, v: Salt)
    requires s.toServer != [] && s.toServer[0].Response?
    requires i < |s.players| && i == First(s.players, s.me) && s.players[i].connectionSalt == s.toServer[0].salt
    ensures var players := s.players[i := s.players[i].(state := CONNECTED)];
            Step(s, ServerReceives(false, v)) ==
            s.(players := players, toServer := s.toServer[1..], toClient := s.toClient + [Accepted(s.players[i].playerID)],
               connected := s.connected + ConnectedPlayers(players))
  {
  }

  /** The server has marked no salt at the address but this one. */
  ghost predicate MarkedOnly(connected: set<(Address, Salt)>, me: Address, salt: Salt) {
    forall x :: (me, x) in connected ==> x == salt
  }

  /** A run can be prolonged by any step that is enabled. */
  lemma {:induction false} RunAppend(states: seq<System>, actions: seq<Action>, a: Action)
    requires IsRun(states, actions) && Enabled(states[|actions|], a)
    ensures IsRun(states + [Step(states[|actions|], a)], actions + [a])
  {
    var next, all := states + [Step(states[|actions|], a)], actions + [a];
    forall i | 0 <= i < |all| ensures Enabled(next[i], all[i]) && next[i + 1] == Step(next[i], all[i]) {
      assert i < |actions| ==> next[i] == states[i] && next[i + 1] == states[i + 1] && all[i] == actions[i];
    }
  }

  /** Players who joined at the address after the others, all still CONNECTING. */
  ghost predicate Joined(players: seq<Player>, others: seq<Player>, me: Address, salt: Salt) {
    && others < players && players[|others|].connectionSalt == salt
    && forall i :: |others| <= i < |players| ==> players[i].address == me && players[i].state == CONNECTING
  }

  lemma {:induction false} RequestJoins(players: seq<Player>, others: seq<Player>, me: Address, c: Salt, v: Salt, salt: Salt)
    requires if players == others then salt == Xor(c, v) else Joined(players, others, me, salt)
    ensures Joined(Requested(players, me, c, v), others, me, salt)
  {
  }

  lemma {:induction false} JoinedFacts(players: seq<Player>, others: seq<Player>, me: Address, salt: Salt)
    requires First(others, me) == |others| && Joined(players, others, me, salt)
    ensures First(players, me) == |others|
    ensures MarkedOnly(ConnectedPlayers(players), me, salt)
    ensures MarkedOnly(ConnectedPlayers(players[|others| := players[|others|].(state := CONNECTED)]), me, salt)
  {
  }

  lemma {:induction false} Opening(s0: System, c: Salt) returns (run: seq<System>)
    requires Initial(s0)
    ensures IsRun(run, [Begins(c)]) && run[0] == s0
    ensures run[1] == s0.(phase := AwaitChallenge(c), used := {c}, toServer := [Request(c)])
  {
    RunAppend([s0], [], Begins(c));
    assert [] + [Begins(c)] == [Begins(c)];
    run := [s0] + [Step(s0, Begins(c))];
  }

  /** A request handled without leaving the channel. */
  lemma {:induction false} OneChallenge(s0: System, c: Salt, v: Salt) returns (run: seq<System>)
    requires Initial(s0) && First(s0.players, s0.me) == |s0.players|
    ensures IsRun(run, [Begins(c), ServerReceives(true, v)]) && run[0] == s0
    ensures var s2 := run[2];
            && s2.me == s0.me && s2.phase == AwaitChallenge(c) && s2.toServer == [Request(c)] && s2.toClient == [Challenge(c, v)]
            && Joined(s2.players, s0.players, s0.me, Xor(c, v)) && MarkedOnly(s2.connected, s0.me, Xor(c, v))
  {
    run := Opening(s0, c);
    var s1 := run[1];
    TakesRequest(s1, true, v);
    RequestJoins(s0.players, s0.players, s0.me, c, v, Xor(c, v));
    JoinedFacts(Requested(s0.players, s0.me, c, v), s0.players, s0.me, Xor(c, v));
    RunAppend(run, [Begins(c)], ServerReceives(true, v));
    run := run + [Step(s1, ServerReceives(true, v))];
  }

  /** The same request, handled once more. */
  lemma {:induction false} TwoChallenges(s0: System, c: Salt, v: Salt, w: Salt) returns (run: seq<System>)
    requires Initial(s0) && First(s0.players, s0.me) == |s0.players|
    ensures IsRun(run, [Begins(c), ServerReceives(true, v), ServerReceives(false, w)]) && run[0] == s0
    ensures var s3 := run[3];
            && s3.me == s0.me && s3.phase == AwaitChallenge(c) && s3.toServer == []
            && s3.toClient == [Challenge(c, v), Challenge(c, w)]
            && Joined(s3.players, s0.players, s0.me, Xor(c, v)) && MarkedOnly(s3.connected, s0.me, Xor(c, v))
  {
    run := OneChallenge(s0, c, v);
    var s2 := run[2];
    TakesRequest(s2, false, w);
    RequestJoins(s2.players, s0.players, s0.me, c, w, Xor(c, v));
    JoinedFacts(Requested(s2.players, s0.me, c, w), s0.players, s0.me, Xor(c, v));
    RunAppend(run, [Begins(c), ServerReceives(true, v)], ServerReceives(false, w));
    run := run + [Step(s2, ServerReceives(false, w))];
  }

  /** One response, accepted; the answer waits behind the second challenge. */
  lemma {:induction false} OneAnswer(run: seq<System>, actions: seq<Action>, others: seq<Player>, c: Salt, v: Salt, w: Salt)
    returns (next: seq<System>, id: nat)
    requires IsRun(run, actions)
    requires var s3 := run[|actions|];
             && s3.phase == AwaitChallenge(c) && s3.toServer == [] && s3.toClient == [Challenge(c, v), Challenge(c, w)]
             && First(others, s3.me) == |others| && Joined(s3.players, others, s3.me, Xor(c, v))
             && MarkedOnly(s3.connected, s3.me, Xor(c, v))
    ensures IsRun(next, actions + [ClientReceives(false)] + [ServerReceives(false, NO_SALT)]) && run <= next
    ensures var s5 := next[|actions| + 2];
            && s5.me == run[|actions|].me && s5.phase == AwaitAnswer(c, v) && s5.toServer == []
            && s5.toClient == [Challenge(c, w), Accepted(id)] && MarkedOnly(s5.connected, s5.me, Xor(c, v))
  {
    var s3 := run[|actions|];
    var s4 := Step(s3, ClientReceives(false));
    RunAppend(run, actions, ClientReceives(false));
    JoinedFacts(s3.players, others, s3.me, Xor(c, v));
    assert s4.toServer == [Response(Xor(c, v))] && s4.toClient == [Challenge(c, w)];
    TakesResponse(s4, |others|, NO_SALT);
    RunAppend(run + [s4], actions + [ClientReceives(false)], ServerReceives(false, NO_SALT));
    next, id := run + [s4] + [Step(s4, ServerReceives(false, NO_SALT))], s3.players[|others|].playerID;
  }

  /** The second attempt takes the challenge and the answer that the first one left behind. */
  lemma {:induction false} StaleAnswer(run: seq<System>, actions: seq<Action>, c: Salt, v: Salt, w: Salt, id: nat)
    returns (next: seq<System>)
    requires IsRun(run, actions)
    requires var s5 := run[|actions|];
             s5.phase == AwaitAnswer(c, v) && s5.toServer == [] && s5.toClient == [Challenge(c, w), Accepted(id)]
    ensures IsRun(next, actions + [ClientFails(Timeout)] + [Begins(c)] + [ClientReceives(false)] + [ClientReceives(false)])
    ensures run <= next && next[|actions| + 4].phase == Established(c, w)
    ensures next[|actions| + 4].connected == run[|actions|].connected
  {
    var s6 := Step(run[|actions|], ClientFails(Timeout));
    var s7 := Step(s6, Begins(c));
    var s8 := Step(s7, ClientReceives(false));
    assert s8.phase == AwaitAnswer(c, w) && s8.toClient == [Accepted(id)];
    var next6, next7, next8 := run + [s6], run + [s6] + [s7], run + [s6] + [s7] + [s8];
    var actions6 := actions + [ClientFails(Timeout)];
    RunAppend(run, actions, ClientFails(Timeout));
    RunAppend(next6, actions6, Begins(c));
    RunAppend(next7, actions6 + [Begins(c)], ClientReceives(false));
    RunAppend(next8, actions6 + [Begins(c)] + [ClientReceives(false)], ClientReceives(false));
    next := next8 + [Step(s8, ClientReceives(false))];
  }

  /**
   Fresh salts are needed: if a timed-out attempt is repeated with the same salt, a repeated
   request can leave the client CONNECTED with a salt that the server never accepted.
   */
  lemma {:induction false} SaltReuseDisagrees(s0: System, c: Salt, v: Salt, w: Salt) returns (states: seq<System>)
    requires Initial(s0) && First(s0.players, s0.me) == |s0.players| && v != w
    ensures IsRun(states, TwiceTheSameSalt(c, v, w)) && OrderKept(TwiceTheSameSalt(c, v, w)) && states[0] == s0
    ensures states[9].phase == Established(c, w) && (s0.me, Xor(c, w)) !in states[9].connected
  {
    var run3 := TwoChallenges(s0, c, v, w);
    var actions := [Begins(c), ServerReceives(true, v), ServerReceives(false, w)];
    var run5, id := OneAnswer(run3, actions, s0.players, c, v, w);
    states := StaleAnswer(run5, actions + [ClientReceives(false)] + [ServerReceives(false, NO_SALT)], c, v, w, id);
    XorCancels(c, v, w);
    assert TwiceTheSameSalt(c, v, w) == actions + [ClientReceives(false)] + [ServerReceives(false, NO_SALT)]
      + [ClientFails(Timeout)] + [Begins(c)] + [ClientReceives(false)] + [ClientReceives(false)];
  }

  // ---------- without order ----------

  /** A first attempt is accepted after it has timed out; the next one is answered, and its challenge overtakes. */
  function OvertakenAnswer(c: Salt, v: Salt, d: Salt, w: Salt): seq<Action> {
    FirstAttempt(c, v) + [ClientFails(Timeout)] + [Begins(d)] + [ServerReceives(false, w)]
    + [SwapToClient(0)] + [ClientReceives(false)] + [ClientReceives(false)]
  }

  function FirstAttempt(c: Salt, v: Salt): seq<Action> {
    [Begins(c)] + [ServerReceives(false, v)] + [ClientReceives(false)] + [ServerReceives(false, NO_SALT)]
  }

  /** Whoever is CONNECTED at this address is so with this salt. */
  ghost predicate MarksOnly(players: seq<Player>, me: Address, salt: Salt) {
    forall i :: 0 <= i < |players| && players[i].address == me && players[i].state == CONNECTED ==> players[i].connectionSalt == salt
  }

  lemma {:induction false} MarksOnlyFacts(players: seq<Player>, connected: set<(Address, Salt)>, me: Address,
                                          salt: Salt, c: Salt, v: Salt)
    requires MarksOnly(players, me, salt) && MarkedOnly(connected, me, salt)
    ensures MarkedOnly(connected + ConnectedPlayers(players), me, salt)
    ensures MarksOnly(Requested(players, me, c, v), me, salt)
  {
  }

  /** The request has been challenged. */
  lemma {:induction false} Challenged(s0: System, c: Salt, v: Salt) returns (run: seq<System>)
    requires Initial(s0) && First(s0.players, s0.me) == |s0.players|
    ensures IsRun(run, [Begins(c)] + [ServerReceives(false, v)]) && run[0] == s0
    ensures var s2 := run[2];
            && s2.me == s0.me && s2.phase == AwaitChallenge(c) && s2.toServer == [] && s2.toClient == [Challenge(c, v)]
            && s2.used == {c} && Joined(s2.players, s0.players, s0.me, Xor(c, v)) && MarkedOnly(s2.connected, s0.me, Xor(c, v))
  {
    run := Opening(s0, c);
    var s1 := run[1];
    TakesRequest(s1, false, v);
    RequestJoins(s0.players, s0.players, s0.me, c, v, Xor(c, v));
    JoinedFacts(Requested(s0.players, s0.me, c, v), s0.players, s0.me, Xor(c, v));
    RunAppend(run, [Begins(c)], ServerReceives(false, v));
    run := run + [Step(s1, ServerReceives(false, v))];
  }

  lemma {:induction false} AcceptedMarksOnly(players: seq<Player>, others: seq<Player>, me: Address, salt: Salt)
    requires First(others, me) == |others| && Joined(players, others, me, salt)
    ensures MarksOnly(players[|others| := players[|others|].(state := CONNECTED)], me, salt)
  {
  }

  /** The challenge is answered, and the answer accepted; that is still on its way. */
  lemma {:induction false} FirstAccepted(s0: System, c: Salt, v: Salt) returns (run: seq<System>, id: nat)
    requires Initial(s0) && First(s0.players, s0.me) == |s0.players|
    ensures IsRun(run, FirstAttempt(c, v)) && run[0] == s0
    ensures var s4 := run[4];
            && s4.me == s0.me && s4.phase == AwaitAnswer(c, v) && s4.toServer == [] && s4.toClient == [Accepted(id)] && s4.used == {c}
            && MarksOnly(s4.players, s0.me, Xor(c, v)) && MarkedOnly(s4.connected, s0.me, Xor(c, v))
  {
    var run2 := Challenged(s0, c, v);
    var actions := [Begins(c)] + [ServerReceives(false, v)];
    var s2, s3 := run2[2], Step(run2[2], ClientReceives(false));
    RunAppend(run2, actions, ClientReceives(false));
    assert s3.toServer == [Response(Xor(c, v))] && s3.toClient == [];
    JoinedFacts(s2.players, s0.players, s0.me, Xor(c, v));
    AcceptedMarksOnly(s2.players, s0.players, s0.me, Xor(c, v));
    TakesResponse(s3, |s0.players|, NO_SALT);
    RunAppend(run2 + [s3], actions + [ClientReceives(false)], ServerReceives(false, NO_SALT));
    run, id := run2 + [s3] + [Step(s3, ServerReceives(false, NO_SALT))], s2.players[|s0.players|].playerID;
  }

  /** After a timeout the client tries again with a fresh salt, and is challenged. */
  lemma {:induction false} ChallengedAgain(run: seq<System>, actions: seq<Action>, salt: Salt, d: Salt, w: Salt, id: nat)
    returns (next: seq<System>)
    requires IsRun(run, actions)
    requires var s := run[|actions|];
             && s.phase.AwaitAnswer? && s.toServer == [] && s.toClient == [Accepted(id)]
             && MarksOnly(s.players, s.me, salt) && MarkedOnly(s.connected, s.me, salt)
    ensures IsRun(next, actions + [ClientFails(Timeout)] + [Begins(d)] + [ServerReceives(false, w)]) && run <= next
    ensures next[|actions| + 1].used == run[|actions|].used
    ensures var t := next[|actions| + 3];
            && t.me == run[|actions|].me && t.phase == AwaitChallenge(d) && t.toServer == []
            && t.toClient == [Accepted(id), Challenge(d, w)] && MarkedOnly(t.connected, t.me, salt)
  {
    var s := run[|actions|];
    var failed := Step(s, ClientFails(Timeout));
    var begun := Step(failed, Begins(d));
    RunAppend(run, actions, ClientFails(Timeout));
    RunAppend(run + [failed], actions + [ClientFails(Timeout)], Begins(d));
    assert begun.toServer == [Request(d)];
    TakesRequest(begun, false, w);
    MarksOnlyFacts(s.players, s.connected, s.me, salt, d, w);
    MarksOnlyFacts(Requested(s.players, s.me, d, w), s.connected, s.me, salt, d, w);
    RunAppend(run + [failed] + [begun], actions + [ClientFails(Timeout)] + [Begins(d)], ServerReceives(false, w));
    next := run + [failed] + [begun] + [Step(begun, ServerReceives(false, w))];
  }

  /** The challenge overtakes the old answer, which then seems to be its own. */
  lemma {:induction false} TakesOldAnswer(run: seq<System>, actions: seq<Action>, d: Salt, w: Salt, id: nat)
    returns (next: seq<System>)
    requires IsRun(run, actions)
    requires run[|actions|].phase == AwaitChallenge(d) && run[|actions|].toClient == [Accepted(id), Challenge(d, w)]
    ensures IsRun(next, actions + [SwapToClient(0)] + [ClientReceives(false)] + [ClientReceives(false)]) && run <= next
    ensures next[|actions| + 3].phase == Established(d, w) && next[|actions| + 3].connected == run[|actions|].connected
  {
    var s := run[|actions|];
    var swapped := Step(s, SwapToClient(0));
    assert swapped.toClient == [Challenge(d, w), Accepted(id)];
    var answered := Step(swapped, ClientReceives(false));
    assert answered.phase == AwaitAnswer(d, w) && answered.toClient == [Accepted(id)];
    RunAppend(run, actions, SwapToClient(0));
    RunAppend(run + [swapped], actions + [SwapToClient(0)], ClientReceives(false));
    RunAppend(run + [swapped] + [answered], actions + [SwapToClient(0)] + [ClientReceives(false)], ClientReceives(false));
    next := run + [swapped] + [answered] + [Step(answered, ClientReceives(false))];
  }

  /**
   Order is needed, too: with fresh salts, an answer left over from an attempt that timed out,
   overtaken by the next challenge, leaves the client CONNECTED with a salt that the server
   never accepted.
   */
  lemma {:induction false} OvertakingDisagrees(s0: System, c: Salt, v: Salt, d: Salt, w: Salt) returns (states: seq<System>)
    requires Initial(s0) && First(s0.players, s0.me) == |s0.players| && c != d && Xor(c, v) != Xor(d, w)
    ensures IsRun(states, OvertakenAnswer(c, v, d, w)) && states[0] == s0 && FreshSalts(states, OvertakenAnswer(c, v, d, w))
    ensures states[10].phase == Established(d, w) && (s0.me, Xor(d, w)) !in states[10].connected
  {
    var run4, id := FirstAccepted(s0, c, v);
    var run7 := ChallengedAgain(run4, FirstAttempt(c, v), Xor(c, v), d, w, id);
    var actions := FirstAttempt(c, v) + [ClientFails(Timeout)] + [Begins(d)] + [ServerReceives(false, w)];
    states := TakesOldAnswer(run7, actions, d, w, id);
    assert states[0] == s0 && states[5].used == {c};
    DrawsAreFresh(states, c, v, d, w);
  }

  lemma {:induction false} DrawsAreFresh(states: seq<System>, c: Salt, v: Salt, d: Salt, w: Salt)
    requires IsRun(states, OvertakenAnswer(c, v, d, w)) && c != d && states[5].used == {c}
    ensures FreshSalts(states, OvertakenAnswer(c, v, d, w))
  {
    var actions := OvertakenAnswer(c, v, d, w);
    forall i | 0 <= i < |actions| && actions[i].Begins? ensures actions[i].clientSalt !in states[i].used {
      assert i == 0 || i == 5;
    }
  }
}
