/**
 The connection handshake: the server's handlers for connection requests, challenge
 responses and disconnects, the client's EstablishConnection, and both of them over
 channels that may lose any packet, deliver the first one repeatedly, and let packets
 overtake each other. They agree as long as none does.
 */
module Handshakes {
  import opened Bits
  import opened Channels
  import opened Wire
  import opened Wrappers

  /** A 64-bit random number. */
  datatype Salt = Salt(bits: bv64)

  const NO_SALT := Salt(0)

  function Xor(clientSalt: Salt, serverSalt: Salt): Salt {
    Salt(XorBits(clientSalt.bits, serverSalt.bits))
  }

  function XorBits(x: bv64, y: bv64): bv64 {
    x ^ y
  }

  /** Each bit of w is set exactly if it is set in one of x and y, and not in the other. */
  ghost predicate CombinesWords(w: bv32, x: bv32, y: bv32) {
    forall i: nat :: i < 32 ==> (Bit(w, i) <==> (Bit(x, i) != Bit(y, i)))
  }

  /** The same of all 64 bits, as two words of 32. */
  ghost predicate Combines(salt: Salt, clientSalt: Salt, serverSalt: Salt) {
    && CombinesWords(Low32(salt.bits), Low32(clientSalt.bits), Low32(serverSalt.bits))
    && CombinesWords(High32(salt.bits), High32(clientSalt.bits), High32(serverSalt.bits))
  }

  function XorWords(x: bv32, y: bv32): bv32 {
    x ^ y
  }

  lemma XorHalves(x: bv64, y: bv64)
    ensures Low32(XorBits(x, y)) == XorWords(Low32(x), Low32(y))
    ensures High32(XorBits(x, y)) == XorWords(High32(x), High32(y))
  {
  }

  lemma XorCombinesWords(x: bv32, y: bv32)
    ensures CombinesWords(XorWords(x, y), x, y)
  {
    forall i: nat | i < 32 ensures Bit(XorWords(x, y), i) <==> (Bit(x, i) != Bit(y, i)) {
      XorBit(x, y, i);
    }
  }

  /** The connection salt combines the two salts bit by bit. */
  lemma XorCombines(clientSalt: Salt, serverSalt: Salt)
    ensures Combines(Xor(clientSalt, serverSalt), clientSalt, serverSalt)
  {
    XorHalves(clientSalt.bits, serverSalt.bits);
    XorCombinesWords(Low32(clientSalt.bits), Low32(serverSalt.bits));
    XorCombinesWords(High32(clientSalt.bits), High32(serverSalt.bits));
  }

  lemma CombinedWordOnce(w: bv32, z: bv32, x: bv32, y: bv32)
    requires CombinesWords(w, x, y) && CombinesWords(z, x, y)
    ensures w == z
  {
    SameBits(w, z);
  }

  lemma SameHalves(x: bv64, y: bv64)
    requires Low32(x) == Low32(y) && High32(x) == High32(y)
    ensures x == y
  {
    Halves64(x);
    Halves64(y);
  }

  /** Only one salt does. */
  lemma CombinedOnce(x: Salt, y: Salt, clientSalt: Salt, serverSalt: Salt)
    requires Combines(x, clientSalt, serverSalt) && Combines(y, clientSalt, serverSalt)
    ensures x == y
  {
    CombinedWordOnce(Low32(x.bits), Low32(y.bits), Low32(clientSalt.bits), Low32(serverSalt.bits));
    CombinedWordOnce(High32(x.bits), High32(y.bits), High32(clientSalt.bits), High32(serverSalt.bits));
    SameHalves(x.bits, y.bits);
  }

  /** Either salt can be got back with the other one, and the unset salt changes nothing. */
  lemma XorLaws(c: Salt, v: Salt)
    ensures Xor(c, v) == Xor(v, c)
    ensures Xor(Xor(c, v), v) == c
    ensures Xor(c, NO_SALT) == c
  {
    XorSymmetric(c.bits, v.bits);
    XorTwice(c.bits, v.bits);
    XorNothing(c.bits);
  }

  lemma XorSymmetric(x: bv64, y: bv64)
    ensures XorBits(x, y) == XorBits(y, x)
  {
  }

  lemma XorTwice(x: bv64, y: bv64)
    ensures XorBits(XorBits(x, y), y) == x
  {
  }

  lemma XorNothing(x: bv64)
    ensures XorBits(x, 0) == x
  {
  }

  /** The three fields that IsSameAddress compares. */
  datatype Address = Address(family: nat, host: nat, port: nat)

  datatype ConnectionState = DISCONNECTED | CONNECTING | CONNECTED

  datatype Player = Player(
    address: Address, playerID: nat, clientSalt: Salt, serverSalt: Salt, connectionSalt: Salt,
    state: ConnectionState, clockOffset: int)

  datatype Message =
    | Request(clientSalt: Salt)
    | Challenge(clientSalt: Salt, serverSalt: Salt)
    | Response(salt: Salt)
    | Accepted(playerID: nat)
    | Denied
    | Disconnect(salt: Salt)

  const MAX_PLAYERS := 8

  // ---------- the server's handlers as functions ----------

  /** The index of the first player at the address, or the number of players. */
  function First(players: seq<Player>, address: Address): (i: nat)
    ensures i <= |players|
    ensures i < |players| ==> players[i].address == address
    ensures forall j :: 0 <= j < i ==> players[j].address != address
  {
    if players == [] || players[0].address == address then 0 else 1 + First(players[1..], address)
  }

  predicate IDTaken(players: seq<Player>, id: nat) {
    exists i :: 0 <= i < |players| && players[i].playerID == id
  }

  /** The search for an ID from i on: it ends at the last taken ID before a free one. */
  function LastTaken(players: seq<Player>, i: nat): nat
    requires 1 <= i <= MAX_PLAYERS
    decreases MAX_PLAYERS - i, players
  {
    if i < MAX_PLAYERS && IDTaken(players, i) then LastTaken(players, i + 1) else i - 1
  }

  function NewPlayerID(players: seq<Player>, address: Address): nat {
    var i := First(players, address);
    var known := if i < |players| then players[i].playerID else 0;
    var searched := if known == 0 then LastTaken(players, 1) else known;
    if searched == 0 then 1 else searched
  }

  function Requested(players: seq<Player>, address: Address, clientSalt: Salt, serverSalt: Salt): seq<Player> {
    players + [Player(address, NewPlayerID(players, address), clientSalt, serverSalt, Xor(clientSalt, serverSalt), CONNECTING, 0)]
  }

  function Responded(players: seq<Player>, address: Address, salt: Salt): (seq<Player>, Option<Message>) {
    var i := First(players, address);
    if i == |players| then (players, None)
    else if players[i].connectionSalt == salt then
      (players[i := players[i].(state := CONNECTED)], Some(Accepted(players[i].playerID)))
    else (players[..i] + players[i + 1..], Some(Denied))
  }

  function Disconnected(players: seq<Player>, address: Address, salt: Salt): seq<Player> {
    if players == [] then []
    else
      var p := players[|players| - 1];
      var rest := Disconnected(players[..|players| - 1], address, salt);
      if p.connectionSalt == salt && p.address == address then rest else rest + [p]
  }

  /** The index of the first player with the salt at the address, or the number of players. */
  function FirstWith(players: seq<Player>, address: Address, salt: Salt): (i: nat)
    ensures i <= |players|
    ensures i < |players| ==> players[i].address == address && players[i].connectionSalt == salt
    ensures forall j :: 0 <= j < i ==> !(players[j].address == address && players[j].connectionSalt == salt)
  {
    if players == [] || (players[0].address == address && players[0].connectionSalt == salt) then 0
    else 1 + FirstWith(players[1..], address, salt)
  }

  /** The player's noted clock offset, and the time stamp that is sent back. */
  function ClockSynced(players: seq<Player>, address: Address, salt: Salt, clientTime: int, now: int): (seq<Player>, Option<int>) {
    var i := FirstWith(players, address, salt);
    if i == |players| then (players, None)
    else (players[i := players[i].(clockOffset := now - clientTime)], Some(now))
  }

  // ---------- what the handlers do to one player ----------

  ghost predicate IsFirst(players: seq<Player>, address: Address, i: nat) {
    && i < |players| && players[i].address == address
    && forall j :: 0 <= j < i ==> players[j].address != address
  }

  /** Both lists are the same but for place i, which has the player p. */
  ghost predicate Replaced(players: seq<Player>, i: nat, p: Player, next: seq<Player>) {
    |next| == |players| && forall j :: 0 <= j < |players| ==> next[j] == if j == i then p else players[j]
  }

  /** Place i has gone, and the later ones have moved up. */
  ghost predicate Erased(players: seq<Player>, i: nat, next: seq<Player>)
    requires i < |players|
  {
    |next| + 1 == |players| && forall j :: 0 <= j < |next| ==> next[j] == if j < i then players[j] else players[j + 1]
  }

  /**
   A response is for the first player at the address. With the right salt that player is
   CONNECTED and nothing else changes, and its ID is sent back; with a wrong one the player
   is erased; without a player nothing happens.
   */
  ghost predicate AnswersResponse(players: seq<Player>, address: Address, salt: Salt,
                                  next: seq<Player>, reply: Option<Message>) {
    && (forall i: nat :: IsFirst(players, address, i) ==>
          var p := players[i];
          if p.connectionSalt == salt then
            && Replaced(players, i,
                        Player(address, p.playerID, p.clientSalt, p.serverSalt, salt, CONNECTED, p.clockOffset), next)
            && reply == Some(Accepted(p.playerID))
          else
            Erased(players, i, next) && reply == Some(Denied))
    && ((forall i :: 0 <= i < |players| ==> players[i].address != address) ==> next == players && reply == None)
  }

  lemma {:induction false} ResponseMeaning(players: seq<Player>, address: Address, salt: Salt)
    ensures AnswersResponse(players, address, salt, Responded(players, address, salt).0, Responded(players, address, salt).1)
  {
    forall i: nat | IsFirst(players, address, i) ensures i == First(players, address) {
      OnlyFirst(players, address, i);
    }
  }

  lemma {:induction false} OnlyFirst(players: seq<Player>, address: Address, i: nat)
    requires IsFirst(players, address, i)
    ensures First(players, address) == i
  {
  }

  lemma {:induction false} OnlyFirstWith(players: seq<Player>, address: Address, salt: Salt, i: nat)
    requires IsFirstWith(players, address, salt, i)
    ensures FirstWith(players, address, salt) == i
  {
  }

  ghost predicate IsFirstWith(players: seq<Player>, address: Address, salt: Salt, i: nat) {
    && i < |players| && players[i].address == address && players[i].connectionSalt == salt
    && forall j :: 0 <= j < i ==> !(players[j].address == address && players[j].connectionSalt == salt)
  }

  /**
   A clock request is for the first player with the salt at the address: how far the
   server's clock is ahead of the client's time is noted for that player, and the server's
   time is sent back. Without such a player nothing happens.
   */
  ghost predicate NotesClock(players: seq<Player>, address: Address, salt: Salt, clientTime: int, now: int,
                             next: seq<Player>, reply: Option<int>) {
    && (forall i: nat :: IsFirstWith(players, address, salt, i) ==>
          var p := players[i];
          && Replaced(players, i,
                      Player(address, p.playerID, p.clientSalt, p.serverSalt, salt, p.state, now - clientTime), next)
          && reply == Some(now))
    && ((forall i :: 0 <= i < |players| ==> !(players[i].address == address && players[i].connectionSalt == salt))
        ==> next == players && reply == None)
  }

  lemma {:induction false} ClockSyncMeaning(players: seq<Player>, address: Address, salt: Salt, clientTime: int, now: int)
    ensures NotesClock(players, address, salt, clientTime, now, ClockSynced(players, address, salt, clientTime, now).0,
                       ClockSynced(players, address, salt, clientTime, now).1)
  {
    forall i: nat | IsFirstWith(players, address, salt, i) ensures i == FirstWith(players, address, salt) {
      OnlyFirstWith(players, address, salt, i);
    }
  }

  /**
   A known address gets the ID of its first player again, unless that is zero. Any other gets
   the last of the IDs 1, 2, ... that are taken without a gap, 7 at most, or 1 if that is free.
   */
  ghost predicate GetsID(players: seq<Player>, address: Address, id: nat) {
    && (forall i: nat :: IsFirst(players, address, i) && players[i].playerID != 0 ==> id == players[i].playerID)
    && ((forall i: nat :: IsFirst(players, address, i) ==> players[i].playerID == 0) ==>
          && 1 <= id <= 7 && (id == 1 || IDTaken(players, 1)) && (forall k :: 1 < k <= id ==> IDTaken(players, k))
          && (id == 7 || !IDTaken(players, id + 1) || !IDTaken(players, 1)))
  }

  lemma {:induction false} LastTakenMeaning(players: seq<Player>, i: nat)
    requires 1 <= i <= MAX_PLAYERS && forall k :: 1 <= k < i ==> IDTaken(players, k)
    ensures var id := LastTaken(players, i);
            && i - 1 <= id < MAX_PLAYERS && (forall k :: 1 <= k <= id ==> IDTaken(players, k))
            && (id == MAX_PLAYERS - 1 || !IDTaken(players, id + 1))
    decreases MAX_PLAYERS - i
  {
    if i == MAX_PLAYERS || !IDTaken(players, i) {
    } else {
      LastTakenMeaning(players, i + 1);
    }
  }

  lemma {:induction false} NewIDMeaning(players: seq<Player>, address: Address)
    ensures GetsID(players, address, NewPlayerID(players, address))
  {
    LastTakenMeaning(players, 1);
    forall i: nat | IsFirst(players, address, i) ensures i == First(players, address) {
      OnlyFirst(players, address, i);
    }
    assert First(players, address) < |players| ==> IsFirst(players, address, First(players, address));
  }

  class Server {
    var m_players: seq<Player>

    constructor ()
      ensures m_players == []
    {
      m_players := [];
    }

    method FindPlayerID(clientAddr: Address) returns (playerID: nat)
      ensures playerID == NewPlayerID(m_players, clientAddr) && GetsID(m_players, clientAddr, playerID)
    {
      NewIDMeaning(m_players, clientAddr);
      playerID := 0;
      for k := 0 to |m_players|
        invariant playerID == 0 && k <= First(m_players, clientAddr)
      {
        if m_players[k].address == clientAddr {
          playerID := m_players[k].playerID;
          break;
        }
      }
      if playerID == 0 {
        var i := 1;
        while i < MAX_PLAYERS
          invariant 1 <= i <= MAX_PLAYERS && playerID == i - 1
          invariant LastTaken(m_players, i) == LastTaken(m_players, 1)
        {
          var found := true;
          for k := 0 to |m_players|
            invariant found && playerID == i - 1
            invariant forall j :: 0 <= j < k ==> m_players[j].playerID != i
          {
            if m_players[k].playerID == i {
              found, playerID := false, i;
              break;
            }
          }
          if found {
            break;
          }
          i := i + 1;
        }
      }
      if playerID == 0 {
        playerID := 1;
      }
    }

    method HandleConnectionRequest(clientAddr: Address, clientSalt: Salt, serverSalt: Salt) returns (reply: Message)
      modifies this
      ensures m_players == Requested(old(m_players), clientAddr, clientSalt, serverSalt)
      ensures var n := |old(m_players)|;
              && |m_players| == n + 1 && m_players[..n] == old(m_players)
              && m_players[n].address == clientAddr && m_players[n].state == CONNECTING && m_players[n].clockOffset == 0
              && m_players[n].clientSalt == clientSalt && m_players[n].serverSalt == serverSalt
              && Combines(m_players[n].connectionSalt, clientSalt, serverSalt)
              && GetsID(old(m_players), clientAddr, m_players[n].playerID)
      ensures reply == Challenge(clientSalt, serverSalt)
    {
      XorCombines(clientSalt, serverSalt);
      var playerID := FindPlayerID(clientAddr);
      m_players := m_players + [Player(clientAddr, playerID, clientSalt, serverSalt, Xor(clientSalt, serverSalt), CONNECTING, 0)];
      reply := Challenge(clientSalt, serverSalt);
    }

    method HandleChallengeResponse(clientAddr: Address, salt: Salt) returns (reply: Option<Message>)
      modifies this
      ensures (m_players, reply) == Responded(old(m_players), clientAddr, salt)
      ensures AnswersResponse(old(m_players), clientAddr, salt, m_players, reply)
    {
      ResponseMeaning(m_players, clientAddr, salt);
      for i := 0 to |m_players|
        invariant m_players == old(m_players) && i <= First(m_players, clientAddr)
      {
        if m_players[i].address == clientAddr {
          assert i == First(m_players, clientAddr);
          if m_players[i].connectionSalt == salt {
            m_players := m_players[i := m_players[i].(state := CONNECTED)];
            return Some(Accepted(m_players[i].playerID));
          }
          m_players := m_players[..i] + m_players[i + 1..];
          return Some(Denied);
        }
      }
      assert First(m_players, clientAddr) == |m_players|;
      return None;
    }

    method HandleClockSync(clientAddr: Address, salt: Salt, clientTime: int, now: int) returns (reply: Option<int>)
      modifies this
      ensures (m_players, reply) == ClockSynced(old(m_players), clientAddr, salt, clientTime, now)
      ensures NotesClock(old(m_players), clientAddr, salt, clientTime, now, m_players, reply)
    {
      ClockSyncMeaning(m_players, clientAddr, salt, clientTime, now);
      for i := 0 to |m_players|
        invariant m_players == old(m_players) && i <= FirstWith(m_players, clientAddr, salt)
      {
        if m_players[i].connectionSalt == salt && m_players[i].address == clientAddr {
          m_players := m_players[i := m_players[i].(clockOffset := now - clientTime)];
          return Some(now);
        }
      }
      return None;
    }

    method HandleDisconnect(clientAddr: Address, salt: Salt)
      modifies this
      ensures m_players == Disconnected(old(m_players), clientAddr, salt)
    {
      var kept := [];
      for i := 0 to |m_players|
        invariant kept == Disconnected(m_players[..i], clientAddr, salt)
      {
        assert m_players[..i + 1][..i] == m_players[..i];
        if !(m_players[i].connectionSalt == salt && m_players[i].address == clientAddr) {
          kept := kept + [m_players[i]];
        }
      }
      assert m_players[..|m_players|] == m_players;
      m_players := kept;
    }

    /** The receive loop's switch. The server salt is the random number drawn for a request. */
    method HandlePacket(clientAddr: Address, message: Message, serverSalt: Salt) returns (reply: Option<Message>)
      modifies this
      ensures (m_players, reply) == Handle(old(m_players), clientAddr, message, serverSalt)
      ensures message.Request? ==>
              && m_players == Requested(old(m_players), clientAddr, message.clientSalt, serverSalt)
              && reply == Some(Challenge(message.clientSalt, serverSalt))
      ensures message.Response? ==> AnswersResponse(old(m_players), clientAddr, message.salt, m_players, reply)
      ensures message.Disconnect? ==>
              m_players == Disconnected(old(m_players), clientAddr, message.salt) && reply == None
      ensures message.Challenge? || message.Accepted? || message.Denied? ==> m_players == old(m_players) && reply == None
    {
      reply := None;
      match message {
        case Request(clientSalt) =>
          var challenge := HandleConnectionRequest(clientAddr, clientSalt, serverSalt);
          reply := Some(challenge);
        case Response(salt) =>
          reply := HandleChallengeResponse(clientAddr, salt);
        case Disconnect(salt) =>
          HandleDisconnect(clientAddr, salt);
        case _ =>
      }
    }
  }

  // ---------- which IDs are given out ----------

  lemma {:induction false} LastTakenIsTaken(players: seq<Player>, i: nat)
    requires 1 <= i <= MAX_PLAYERS && (i > 1 ==> IDTaken(players, i - 1))
    ensures LastTaken(players, i) >= i - 1
    ensures LastTaken(players, i) > 0 ==> IDTaken(players, LastTaken(players, i))
    decreases MAX_PLAYERS - i
  {
    if i == MAX_PLAYERS || !IDTaken(players, i) {
    } else {
      LastTakenIsTaken(players, i + 1);
    }
  }

  /** A new address gets an ID that is in use already exactly when some player has ID 1. */
  lemma {:induction false} NewIDIsTakenIff(players: seq<Player>, address: Address)
    requires First(players, address) == |players|
    ensures IDTaken(players, NewPlayerID(players, address)) <==> IDTaken(players, 1)
  {
    LastTakenIsTaken(players, 1);
  }

  // ---------- what the handlers do to one address ----------

  /** The connection salts of the players at the address, in the order of their requests. */
  function SaltsAt(players: seq<Player>, address: Address): seq<Salt> {
    if players == [] then []
    else (if players[0].address == address then [players[0].connectionSalt] else []) + SaltsAt(players[1..], address)
  }

  lemma {:induction false} SaltsAtConcat(a: seq<Player>, b: seq<Player>, address: Address)
    ensures SaltsAt(a + b, address) == SaltsAt(a, address) + SaltsAt(b, address)
  {
    if a == [] {
      assert a + b == b;
    } else {
      var head := if a[0].address == address then [a[0].connectionSalt] else [];
      assert (a + b)[0] == a[0] && (a + b)[1..] == a[1..] + b;
      SaltsAtConcat(a[1..], b, address);
      assert head + (SaltsAt(a[1..], address) + SaltsAt(b, address)) == (head + SaltsAt(a[1..], address)) + SaltsAt(b, address);
    }
  }

  lemma {:induction false} NoSaltsBeforeFirst(players: seq<Player>, address: Address)
    ensures SaltsAt(players[..First(players, address)], address) == []
  {
    if players == [] || players[0].address == address {
    } else {
      NoSaltsBeforeFirst(players[1..], address);
      assert players[..First(players, address)][1..] == players[1..][..First(players[1..], address)];
    }
  }

  /** A request joins the queue of its address, and leaves every other queue alone. */
  lemma {:induction false} RequestJoinsQueue(players: seq<Player>, address: Address, clientSalt: Salt,
                                             serverSalt: Salt, other: Address)
    ensures SaltsAt(Requested(players, address, clientSalt, serverSalt), other)
         == SaltsAt(players, other) + (if other == address then [Xor(clientSalt, serverSalt)] else [])
  {
    var entry := Requested(players, address, clientSalt, serverSalt)[|players|];
    SaltsAtConcat(players, [entry], other);
    assert SaltsAt([entry], other) == (if other == address then [entry.connectionSalt] else []) + SaltsAt([], other);
  }

  /**
   A response is compared with the head of the queue of its address only: it is ignored on an
   empty queue, accepted if the head matches, and otherwise denied at the cost of the head.
   */
  lemma {:induction false} ResponseMeetsHead(players: seq<Player>, address: Address, salt: Salt, other: Address)
    ensures var queue := SaltsAt(players, address);
            var (next, reply) := Responded(players, address, salt);
            && (reply == None <==> queue == [])
            && (reply.Some? ==> (reply.value.Accepted? <==> queue[0] == salt) && (reply.value.Denied? <==> queue[0] != salt))
            && SaltsAt(next, other) == (if other == address && reply == Some(Denied) then queue[1..] else SaltsAt(players, other))
  {
    var i := First(players, address);
    if i < |players| {
      SplitAt(players, i, address);
      SplitAt(players, i, other);
      NoSaltsBeforeFirst(players, address);
      SaltsAtConcat(players[..i], players[i + 1..], other);
      var accepted := players[i := players[i].(state := CONNECTED)];
      SplitAt(accepted, i, other);
      assert accepted[..i] == players[..i] && accepted[i + 1..] == players[i + 1..];
    } else {
      NoSaltsBeforeFirst(players, address);
      assert players[..i] == players;
    }
  }

  lemma {:induction false} SplitAt(players: seq<Player>, i: nat, address: Address)
    requires i < |players|
    ensures SaltsAt(players, address) == SaltsAt(players[..i], address)
         + (if players[i].address == address then [players[i].connectionSalt] else []) + SaltsAt(players[i + 1..], address)
  {
    assert players == players[..i] + players[i..] && players[i..][1..] == players[i + 1..];
    SaltsAtConcat(players[..i], players[i..], address);
  }

  function WithoutSalt(queue: seq<Salt>, salt: Salt): seq<Salt> {
    if queue == [] then []
    else (if queue[0] == salt then [] else [queue[0]]) + WithoutSalt(queue[1..], salt)
  }

  lemma {:induction false} WithoutSaltConcat(a: seq<Salt>, b: seq<Salt>, salt: Salt)
    ensures WithoutSalt(a + b, salt) == WithoutSalt(a, salt) + WithoutSalt(b, salt)
  {
    if a == [] {
      assert a + b == b;
    } else {
      assert (a + b)[0] == a[0] && (a + b)[1..] == a[1..] + b;
      WithoutSaltConcat(a[1..], b, salt);
    }
  }

  lemma {:induction false} SaltsAtAppend(players: seq<Player>, p: Player, address: Address)
    ensures SaltsAt(players + [p], address)
         == if p.address == address then SaltsAt(players, address) + [p.connectionSalt] else SaltsAt(players, address)
  {
    SaltsAtConcat(players, [p], address);
    SaltsAtOne(p, address);
  }

  /** A disconnect removes its own salt from the queue of its address, and nothing else. */
  lemma {:induction false} DisconnectClearsSalt(players: seq<Player>, address: Address, salt: Salt, other: Address)
    ensures SaltsAt(Disconnected(players, address, salt), other)
         == (if other == address then WithoutSalt(SaltsAt(players, other), salt) else SaltsAt(players, other))
  {
    if players == [] {
    } else {
      var init, p := players[..|players| - 1], players[|players| - 1];
      DisconnectClearsSalt(init, address, salt, other);
      assert players == init + [p];
      SaltsAtAppend(init, p, other);
      SaltsAtAppend(Disconnected(init, address, salt), p, other);
      DropOrKeep(SaltsAt(init, other), p.connectionSalt, salt);
    }
  }

  /** The rest is done in the same way if the list is taken from the front. */
  lemma {:induction false} DisconnectedFromFront(p: Player, players: seq<Player>, address: Address, salt: Salt)
    ensures Disconnected([p] + players, address, salt)
         == (if p.connectionSalt == salt && p.address == address then [] else [p]) + Disconnected(players, address, salt)
  {
    if players == [] {
      assert [p] + players == [] + [p] && ([] + [p])[..0] == [];
    } else {
      var init := players[..|players| - 1];
      assert ([p] + players)[..|players|] == [p] + init;
      DisconnectedFromFront(p, init, address, salt);
    }
  }

  /** The players with that salt at that address go, and every other one stays as it is, as often as it is there. */
  lemma {:induction false} DisconnectedKeepsOthers(players: seq<Player>, address: Address, salt: Salt, p: Player)
    ensures multiset(Disconnected(players, address, salt))[p]
         == if p.connectionSalt == salt && p.address == address then 0 else multiset(players)[p]
  {
    if players == [] {
    } else {
      var init, last := players[..|players| - 1], players[|players| - 1];
      DisconnectedKeepsOthers(init, address, salt, p);
      assert players == init + [last];
    }
  }

  lemma {:induction false} DropOrKeep(queue: seq<Salt>, last: Salt, salt: Salt)
    ensures queue + [] == queue
    ensures WithoutSalt(queue + [last], salt) == WithoutSalt(queue, salt) + (if last == salt then [] else [last])
  {
    WithoutSaltConcat(queue, [last], salt);
    assert [last][1..] == [];
  }

  lemma {:induction false} SaltsAtOne(p: Player, address: Address)
    ensures SaltsAt([p], address) == if p.address == address then [p.connectionSalt] else []
  {
    assert [p][1..] == [];
  }

  /**
   A clock request is answered exactly if some player has its salt at its address; it
   leaves every queue as it was, and so cannot disturb a connection attempt.
   */
  lemma {:induction false} ClockSyncKeepsQueues(players: seq<Player>, address: Address, salt: Salt, clientTime: int,
                                                now: int, other: Address)
    ensures var (next, reply) := ClockSynced(players, address, salt, clientTime, now);
            && SaltsAt(next, other) == SaltsAt(players, other)
            && (reply.Some? <==> salt in SaltsAt(players, address))
  {
    var i := FirstWith(players, address, salt);
    SaltsAtMembers(players, address, salt);
    if i < |players| {
      var next := players[i := players[i].(clockOffset := now - clientTime)];
      SplitAt(players, i, other);
      SplitAt(next, i, other);
      assert next[..i] == players[..i] && next[i + 1..] == players[i + 1..];
    }
  }

  lemma {:induction false} SaltsAtMembers(players: seq<Player>, address: Address, salt: Salt)
    ensures salt in SaltsAt(players, address) <==>
            exists i :: 0 <= i < |players| && players[i].address == address && players[i].connectionSalt == salt
  {
    if players == [] {
    } else {
      SaltsAtMembers(players[1..], address, salt);
      assert players == [players[0]] + players[1..];
    }
  }

  /** One attempt whose packets all arrive once: a request, and the response to its challenge. */
  function CleanAttempt(players: seq<Player>, address: Address, clientSalt: Salt, serverSalt: Salt): (seq<Player>, Option<Message>) {
    Responded(Requested(players, address, clientSalt, serverSalt), address, Xor(clientSalt, serverSalt))
  }

  /** The response of the last in the queue. */
  lemma {:induction false} LastMeetsHead(players: seq<Player>, address: Address, queue: seq<Salt>, salt: Salt)
    requires SaltsAt(players, address) == queue + [salt]
    ensures var (next, reply) := Responded(players, address, salt);
            && reply.Some? && (reply.value.Accepted? <==> queue == [] || queue[0] == salt)
            && (reply == Some(Denied) <==> queue != [] && queue[0] != salt)
            && SaltsAt(next, address) == (if reply.value.Accepted? then queue + [salt] else queue[1..] + [salt])
  {
    ResponseMeetsHead(players, address, salt, address);
    if queue != [] {
      assert (queue + [salt])[1..] == queue[1..] + [salt];
    }
  }

  /** It succeeds exactly when no player is left at the address, or the first one has its salt. */
  lemma {:induction false} CleanAttemptSucceedsIff(players: seq<Player>, address: Address, clientSalt: Salt, serverSalt: Salt)
    ensures var queue, salt := SaltsAt(players, address), Xor(clientSalt, serverSalt);
            var (next, reply) := CleanAttempt(players, address, clientSalt, serverSalt);
            && reply.Some? && (reply.value.Accepted? <==> queue == [] || queue[0] == salt)
            && SaltsAt(next, address) == (if reply.value.Accepted? then queue + [salt] else queue[1..] + [salt])
  {
    RequestJoinsQueue(players, address, clientSalt, serverSalt, address);
    LastMeetsHead(Requested(players, address, clientSalt, serverSalt), address, SaltsAt(players, address),
                  Xor(clientSalt, serverSalt));
  }

  ghost predicate AllDifferent(salts: seq<Salt>) {
    salts == [] || (salts[0] !in salts[1..] && AllDifferent(salts[1..]))
  }

  /** The connection salts of a series of attempts. */
  function ConnectionSalts(attempts: seq<(Salt, Salt)>): seq<Salt> {
    if attempts == [] then [] else [Xor(attempts[0].0, attempts[0].1)] + ConnectionSalts(attempts[1..])
  }

  function CleanAttempts(players: seq<Player>, address: Address, attempts: seq<(Salt, Salt)>): (seq<Player>, seq<Option<Message>>)
    decreases |attempts|
  {
    if attempts == [] then (players, [])
    else
      var (next, reply) := CleanAttempt(players, address, attempts[0].0, attempts[0].1);
      var (last, replies) := CleanAttempts(next, address, attempts[1..]);
      (last, [reply] + replies)
  }

  /** A denied attempt turns the queue by one place. */
  lemma {:induction false} AttemptTurnsQueue(queue: seq<Salt>, salt: Salt, later: seq<Salt>)
    requires queue != [] && AllDifferent(queue + ([salt] + later))
    ensures queue[0] != salt && AllDifferent((queue[1..] + [salt]) + later)
  {
    var all := queue + ([salt] + later);
    assert all[1..] == (queue[1..] + [salt]) + later;
    assert all[1..][|queue| - 1] == salt;
  }

  lemma {:induction false} AttemptIsDenied(players: seq<Player>, address: Address, attempt: (Salt, Salt), later: seq<Salt>)
    requires SaltsAt(players, address) != []
    requires AllDifferent(SaltsAt(players, address) + ([Xor(attempt.0, attempt.1)] + later))
    ensures var (next, reply) := CleanAttempt(players, address, attempt.0, attempt.1);
            && reply == Some(Denied) && |SaltsAt(next, address)| == |SaltsAt(players, address)|
            && AllDifferent(SaltsAt(next, address) + later)
  {
    AttemptTurnsQueue(SaltsAt(players, address), Xor(attempt.0, attempt.1), later);
    CleanAttemptSucceedsIff(players, address, attempt.0, attempt.1);
    ResponseMeetsHead(Requested(players, address, attempt.0, attempt.1), address, Xor(attempt.0, attempt.1), address);
  }

  /**
   A player left behind by an unfinished attempt is never cleared away: however many
   attempts follow, with connection salts that never coincide, all of them are denied.
   */
  lemma {:induction false} LeftoverBlocksForever(players: seq<Player>, address: Address, attempts: seq<(Salt, Salt)>)
    requires SaltsAt(players, address) != []
    requires AllDifferent(SaltsAt(players, address) + ConnectionSalts(attempts))
    ensures var (last, replies) := CleanAttempts(players, address, attempts);
            && |SaltsAt(last, address)| == |SaltsAt(players, address)|
            && |replies| == |attempts| && forall i :: 0 <= i < |replies| ==> replies[i] == Some(Denied)
    decreases |attempts|
  {
    if attempts == [] {
    } else {
      var (next, reply) := CleanAttempt(players, address, attempts[0].0, attempts[0].1);
      AttemptIsDenied(players, address, attempts[0], ConnectionSalts(attempts[1..]));
      LeftoverBlocksForever(next, address, attempts[1..]);
    }
  }

  // ---------- the client ----------

  /** What one wait for a packet from the server can bring. */
  datatype Received =
    | Timeout
    | Unusable              // from another address, or with a wrong checksum
    | Packet(message: Message)

  datatype Phase =
    | Idle
    | AwaitChallenge(clientSalt: Salt)
    | AwaitAnswer(clientSalt: Salt, serverSalt: Salt)
    | Established(clientSalt: Salt, serverSalt: Salt)

  function OnReceived(phase: Phase, r: Received): Phase {
    match phase
    case AwaitChallenge(clientSalt) =>
      if r.Packet? && r.message.Challenge? && r.message.clientSalt == clientSalt
      then AwaitAnswer(clientSalt, r.message.serverSalt) else Idle
    case AwaitAnswer(clientSalt, serverSalt) =>
      if r.Packet? && r.message.Accepted? then Established(clientSalt, serverSalt) else Idle
    case _ => phase
  }

  /** What the client sends on entering a phase. */
  function Sent(phase: Phase): Option<Message> {
    match phase
    case AwaitChallenge(clientSalt) => Some(Request(clientSalt))
    case AwaitAnswer(clientSalt, serverSalt) => Some(Response(Xor(clientSalt, serverSalt)))
    case _ => None
  }

  /** Where an attempt ends, if sending works as given and the two waits bring these. */
  function Attempt(clientSalt: Salt, requestSent: bool, challenge: Received, responseSent: bool, answer: Received): Phase {
    var waiting := OnReceived(AwaitChallenge(clientSalt), challenge);
    if requestSent && responseSent then OnReceived(waiting, answer) else Idle
  }

  class Client {
    var m_connectionState: ConnectionState
    var m_clientSalt: Salt
    var m_serverSalt: Salt
    var m_connectionSalt: Salt
    var m_playerID: nat

    constructor ()
      ensures m_connectionState == DISCONNECTED && m_connectionSalt == NO_SALT
    {
      m_connectionState, m_clientSalt, m_serverSalt, m_connectionSalt, m_playerID := DISCONNECTED, NO_SALT, NO_SALT, NO_SALT, 0;
    }

    /**
     One attempt. The salt is the random number drawn for it; challenge and answer are what
     the two waits bring; sending can fail at either place.
     */
    method EstablishConnection(clientSalt: Salt, requestSent: bool, challenge: Received, responseSent: bool, answer: Received)
      returns (result: int, request: Option<Message>, response: Option<Message>)
      modifies this
      ensures var done := Attempt(clientSalt, requestSent, challenge, responseSent, answer);
              if done.Established? then
                && result == 0 && m_connectionState == CONNECTED && answer.Packet? && m_playerID == answer.message.playerID
                && m_clientSalt == clientSalt == done.clientSalt && m_serverSalt == done.serverSalt
                && m_connectionSalt == Xor(clientSalt, done.serverSalt)
              else
                && result == 1 && m_clientSalt == m_serverSalt == m_connectionSalt == NO_SALT && m_playerID == 0
                && m_connectionState == (if requestSent && challenge != Timeout then DISCONNECTED else CONNECTING)
      ensures result == 0 <==>
              && requestSent && responseSent && answer.Packet? && answer.message.Accepted?
              && challenge.Packet? && challenge.message.Challenge? && challenge.message.clientSalt == clientSalt
      ensures result == 0 ==>
              && m_serverSalt == challenge.message.serverSalt
              && Combines(m_connectionSalt, clientSalt, challenge.message.serverSalt)
      ensures request == if requestSent then Some(Request(clientSalt)) else None
      ensures if requestSent && responseSent && challenge.Packet? && challenge.message.Challenge?
                 && challenge.message.clientSalt == clientSalt
              then response.Some? && response.value.Response?
                   && Combines(response.value.salt, clientSalt, challenge.message.serverSalt)
              else response == None
      ensures request == (if requestSent then Sent(AwaitChallenge(clientSalt)) else None)
      ensures response == (if requestSent && responseSent then Sent(OnReceived(AwaitChallenge(clientSalt), challenge)) else None)
    {
      m_clientSalt, m_serverSalt, m_connectionSalt, m_playerID := NO_SALT, NO_SALT, NO_SALT, 0;
      m_connectionState := CONNECTING;
      result, request, response := 1, None, None;
      if !requestSent {
        return;
      }
      request := Some(Request(clientSalt));
      if challenge.Timeout? {
        return;
      }
      if challenge.Unusable? || !challenge.message.Challenge? || challenge.message.clientSalt != clientSalt {
        m_connectionState := DISCONNECTED;
        return;
      }
      var serverSalt := challenge.message.serverSalt;
      if !responseSent {
        m_connectionState := DISCONNECTED;
        return;
      }
      XorCombines(clientSalt, serverSalt);
      response := Some(Response(Xor(clientSalt, serverSalt)));
      if !answer.Packet? || !answer.message.Accepted? {
        m_connectionState := DISCONNECTED;
        return;
      }
      m_connectionState := CONNECTED;
      m_clientSalt, m_serverSalt, m_connectionSalt := clientSalt, serverSalt, Xor(clientSalt, serverSalt);
      m_playerID := answer.message.playerID;
      result := 0;
    }
  }

  // ---------- both ends ----------

  /**
   The server with any number of clients, and one client with its two channels. used holds
   the salts this client has drawn; connected holds every address and connection salt whose
   player the server has marked CONNECTED so far.
   */
  datatype System = System(
    me: Address, phase: Phase, toServer: seq<Message>, toClient: seq<Message>, players: seq<Player>,
    used: set<Salt>, connected: set<(Address, Salt)>)

  datatype Action =
    | Begins(clientSalt: Salt)
    | ClientReceives(repeated: bool)
    | ClientFails(r: Received)
    | ServerReceives(repeated: bool, serverSalt: Salt)
    | OthersSend(address: Address, message: Message, serverSalt: Salt)
    | LoseToServer(i: nat)
    | LoseToClient(i: nat)
    | SwapToServer(i: nat)
    | SwapToClient(i: nat)

  /** The server's dispatch: the players afterwards, and the reply. */
  function Handle(players: seq<Player>, address: Address, message: Message, serverSalt: Salt): (seq<Player>, Option<Message>) {
    match message
    case Request(clientSalt) => (Requested(players, address, clientSalt, serverSalt), Some(Challenge(clientSalt, serverSalt)))
    case Response(salt) => Responded(players, address, salt)
    case Disconnect(salt) => (Disconnected(players, address, salt), None)
    case _ => (players, None)
  }

  ghost function ConnectedPlayers(players: seq<Player>): set<(Address, Salt)> {
    set p | p in players && p.state == CONNECTED :: (p.address, p.connectionSalt)
  }

  function Posted(channel: seq<Message>, message: Option<Message>): seq<Message> {
    match message case None => channel case Some(m) => channel + [m]
  }

  ghost predicate Enabled(s: System, a: Action) {
    match a
    case Begins(_) => s.phase.Idle?
    case ClientReceives(_) => (s.phase.AwaitChallenge? || s.phase.AwaitAnswer?) && s.toClient != []
    case ClientFails(r) => (s.phase.AwaitChallenge? || s.phase.AwaitAnswer?) && !r.Packet?
    case ServerReceives(_, _) => s.toServer != []
    case OthersSend(address, _, _) => address != s.me
    case LoseToServer(i) => i < |s.toServer|
    case LoseToClient(i) => i < |s.toClient|
    case SwapToServer(i) => i + 1 < |s.toServer|
    case SwapToClient(i) => i + 1 < |s.toClient|
  }

  ghost function Step(s: System, a: Action): System
    requires Enabled(s, a)
  {
    match a
    case Begins(clientSalt) =>
      s.(phase := AwaitChallenge(clientSalt), used := s.used + {clientSalt},
         toServer := Posted(s.toServer, Sent(AwaitChallenge(clientSalt))))
    case ClientReceives(repeated) =>
      var next := OnReceived(s.phase, Packet(s.toClient[0]));
      s.(phase := next, toClient := Rest(s.toClient, repeated), toServer := Posted(s.toServer, Sent(next)))
    case ClientFails(r) => s.(phase := OnReceived(s.phase, r))
    case ServerReceives(repeated, serverSalt) =>
      var (players, reply) := Handle(s.players, s.me, s.toServer[0], serverSalt);
      s.(players := players, toServer := Rest(s.toServer, repeated), toClient := Posted(s.toClient, reply),
         connected := s.connected + ConnectedPlayers(players))
    case OthersSend(address, message, serverSalt) =>
      var players := Handle(s.players, address, message, serverSalt).0;
      s.(players := players, connected := s.connected + ConnectedPlayers(players))
    case LoseToServer(i) => s.(toServer := Without(s.toServer, i))
    case LoseToClient(i) => s.(toClient := Without(s.toClient, i))
    case SwapToServer(i) => s.(toServer := Swapped(s.toServer, i))
    case SwapToClient(i) => s.(toClient := Swapped(s.toClient, i))
  }

  /** Nothing is under way; the server may have players already. */
  ghost predicate Initial(s: System) {
    s.phase == Idle && s.toServer == [] && s.toClient == [] && s.used == {} && s.connected == {}
  }

  ghost predicate IsRun(states: seq<System>, actions: seq<Action>) {
    && |states| == |actions| + 1 && Initial(states[0])
    && forall i :: 0 <= i < |actions| ==> Enabled(states[i], actions[i]) && states[i + 1] == Step(states[i], actions[i])
  }

  /** The client never draws the same salt twice. */
  ghost predicate FreshSalts(states: seq<System>, actions: seq<Action>)
    requires IsRun(states, actions)
  {
    forall i :: 0 <= i < |actions| && actions[i].Begins? ==> actions[i].clientSalt !in states[i].used
  }

  predicate KeepsOrder(a: Action) {
    !a.SwapToServer? && !a.SwapToClient?
  }

  /** No message overtakes another. */
  predicate OrderKept(actions: seq<Action>) {
    forall i :: 0 <= i < |actions| ==> KeepsOrder(actions[i])
  }

  // ---------- what keeps the ends in agreement ----------

  /** The message belongs to the attempt with this salt. */
  predicate Opens(m: Message, salt: Salt) {
    (m.Request? || m.Challenge?) && m.clientSalt == salt
  }

  /** The message can only stem from an exchange of responses. */
  predicate Late(m: Message) {
    m.Response? || m.Accepted?
  }

  predicate NoneLate(channel: seq<Message>) {
    forall i :: 0 <= i < |channel| ==> !Late(channel[i])
  }

  predicate NoneOpens(channel: seq<Message>, salt: Salt) {
    forall i :: 0 <= i < |channel| ==> !Opens(channel[i], salt)
  }

  /** Nothing late follows a message of this attempt. */
  predicate Quiet(channel: seq<Message>, salt: Salt) {
    channel == [] || ((Opens(channel[0], salt) ==> NoneLate(channel[1..])) && Quiet(channel[1..], salt))
  }

  ghost predicate Known(channel: seq<Message>, used: set<Salt>) {
    forall i :: 0 <= i < |channel| && (channel[i].Request? || channel[i].Challenge?) ==> channel[i].clientSalt in used
  }

  /** All responses carry this salt. */
  ghost predicate RespondsWith(channel: seq<Message>, salt: Salt) {
    forall i :: 0 <= i < |channel| && channel[i].Response? ==> channel[i].salt == salt
  }

  /** The client only asks to be connected. */
  ghost predicate OnlyAsks(channel: seq<Message>) {
    forall i :: 0 <= i < |channel| ==> channel[i].Request? || channel[i].Response?
  }

  /** The first player at the address is CONNECTED with this salt. */
  predicate Holds(players: seq<Player>, address: Address, salt: Salt) {
    var i := First(players, address);
    i < |players| && players[i].connectionSalt == salt && players[i].state == CONNECTED
  }

  /** The server holds the connection now, and has marked it CONNECTED since the start. */
  ghost predicate Agreed(s: System, salt: Salt) {
    Holds(s.players, s.me, salt) && (s.me, salt) in s.connected
  }

  ghost predicate Invariant(s: System) {
    && Known(s.toServer, s.used) && Known(s.toClient, s.used) && OnlyAsks(s.toServer)
    && match s.phase
       case Idle => true
       case AwaitChallenge(c) =>
         && c in s.used && Quiet(s.toServer, c) && Quiet(s.toClient, c)
         && (NoneOpens(s.toClient, c) || NoneLate(s.toServer))
       case AwaitAnswer(c, v) =>
         RespondsWith(s.toServer, Xor(c, v)) && (NoneLate(s.toClient) || Agreed(s, Xor(c, v)))
       case Established(c, v) =>
         RespondsWith(s.toServer, Xor(c, v)) && Agreed(s, Xor(c, v))
  }

  // ---------- who holds the connection ----------

  lemma {:induction false} FirstIs(players: seq<Player>, address: Address, i: nat)
    requires i < |players| && players[i].address == address
    requires forall j :: 0 <= j < i ==> players[j].address != address
    ensures First(players, address) == i
  {
  }

  /** A player who is changed or leaves at another address is not in the way. */
  lemma {:induction false} OtherChangeKeepsHolding(players: seq<Player>, me: Address, salt: Salt, i: nat, changed: Player)
    requires Holds(players, me, salt) && i < |players| && players[i].address != me && changed.address == players[i].address
    ensures Holds(players[i := changed], me, salt) && Holds(players[..i] + players[i + 1..], me, salt)
  {
    var k := First(players, me);
    FirstIs(players[i := changed], me, k);
    FirstIs(players[..i] + players[i + 1..], me, if i < k then k - 1 else k);
  }

  lemma {:induction false} JoiningKeepsHolding(players: seq<Player>, me: Address, salt: Salt, p: Player)
    requires Holds(players, me, salt)
    ensures Holds(players + [p], me, salt)
  {
    FirstIs(players + [p], me, First(players, me));
  }

  lemma {:induction false} FirstOfInit(players: seq<Player>, me: Address)
    requires players != []
    ensures var init := players[..|players| - 1];
            First(players, me) == if First(init, me) < |init| || players[|init|].address == me then First(init, me) else |players|
  {
    var init := players[..|players| - 1];
    if First(init, me) < |init| {
      FirstIs(players, me, First(init, me));
    } else if players[|init|].address == me {
      FirstIs(players, me, |init|);
    }
  }

  lemma {:induction false} NoneAfterDisconnect(players: seq<Player>, me: Address, address: Address, salt: Salt)
    requires First(players, me) == |players|
    ensures First(Disconnected(players, address, salt), me) == |Disconnected(players, address, salt)|
  {
    if players == [] {
    } else {
      var init, p := players[..|players| - 1], players[|players| - 1];
      FirstOfInit(players, me);
      NoneAfterDisconnect(init, me, address, salt);
      var rest := Disconnected(init, address, salt);
      assert (rest + [p])[..|rest|] == rest;
      FirstOfInit(rest + [p], me);
    }
  }

  lemma {:induction false} OtherLeavingKeepsHolding(players: seq<Player>, me: Address, salt: Salt, address: Address,
                                                    left: Salt)
    requires Holds(players, me, salt) && address != me
    ensures Holds(Disconnected(players, address, left), me, salt)
  {
    var init, p := players[..|players| - 1], players[|players| - 1];
    var rest := Disconnected(init, address, left);
    FirstOfInit(players, me);
    if First(init, me) < |init| {
      OtherLeavingKeepsHolding(init, me, salt, address, left);
      JoiningKeepsHolding(rest, me, salt, p);
    } else {
      NoneAfterDisconnect(init, me, address, left);
      FirstIs(rest + [p], me, |rest|);
    }
  }

  lemma {:induction false} OthersKeepHolding(players: seq<Player>, me: Address, salt: Salt, address: Address,
                                             m: Message, serverSalt: Salt)
    requires Holds(players, me, salt) && address != me
    ensures Holds(Handle(players, address, m, serverSalt).0, me, salt)
  {
    match m
    case Request(c) =>
      JoiningKeepsHolding(players, me, salt, Requested(players, address, c, serverSalt)[|players|]);
    case Response(x) =>
      var i := First(players, address);
      if i < |players| {
        OtherChangeKeepsHolding(players, me, salt, i, players[i].(state := CONNECTED));
      }
    case Disconnect(x) => OtherLeavingKeepsHolding(players, me, salt, address, x);
    case _ =>
  }

  /** Requests from the address itself, and responses with the same salt, change nothing either. */
  lemma {:induction false} OwnKeepHolding(players: seq<Player>, me: Address, salt: Salt, m: Message, serverSalt: Salt)
    requires Holds(players, me, salt) && (m.Request? || m == Response(salt))
    ensures Holds(Handle(players, me, m, serverSalt).0, me, salt)
  {
    var i := First(players, me);
    if m.Request? {
      JoiningKeepsHolding(players, me, salt, Requested(players, me, m.clientSalt, serverSalt)[|players|]);
    } else {
      FirstIs(players[i := players[i].(state := CONNECTED)], me, i);
    }
  }

  // ---------- the invariant over a step ----------

  lemma {:induction false} UnopenedIsQuiet(channel: seq<Message>, salt: Salt)
    requires NoneOpens(channel, salt)
    ensures Quiet(channel, salt)
  {
    if channel == [] {
    } else {
      assert !Opens(channel[0], salt);
      assert NoneOpens(channel[1..], salt);
      UnopenedIsQuiet(channel[1..], salt);
    }
  }

  lemma {:induction false} QuietAppend(channel: seq<Message>, salt: Salt, m: Message)
    requires Quiet(channel, salt) && (NoneOpens(channel, salt) || !Late(m))
    ensures Quiet(channel + [m], salt)
  {
    if channel == [] {
    } else {
      var all := channel + [m];
      assert all[1..] == channel[1..] + [m] && all[0] == channel[0];
      if NoneOpens(channel, salt) {
        assert !Opens(channel[0], salt);
        assert NoneOpens(channel[1..], salt);
      } else if Opens(channel[0], salt) {
        assert NoneLate(channel[1..] + [m]);
      }
      QuietAppend(channel[1..], salt, m);
    }
  }

  lemma {:induction false} QuietLose(channel: seq<Message>, salt: Salt, i: nat)
    requires i < |channel| && Quiet(channel, salt)
    ensures Quiet(Without(channel, i), salt)
    decreases i
  {
    if i == 0 {
      assert Without(channel, 0) == channel[1..];
    } else {
      var rest := Without(channel[1..], i - 1);
      QuietLose(channel[1..], salt, i - 1);
      assert Without(channel, i) == [channel[0]] + rest;
      if Opens(channel[0], salt) {
        LoseKeeps(channel[1..], i - 1, salt, {});
      }
    }
  }

  /** Losing a message cannot bring in what was not there. */
  lemma {:induction false} LoseKeeps(channel: seq<Message>, i: nat, salt: Salt, used: set<Salt>)
    requires i < |channel|
    ensures NoneLate(channel) ==> NoneLate(Without(channel, i))
    ensures NoneOpens(channel, salt) ==> NoneOpens(Without(channel, i), salt)
    ensures Known(channel, used) ==> Known(Without(channel, i), used)
    ensures OnlyAsks(channel) ==> OnlyAsks(Without(channel, i))
    ensures RespondsWith(channel, salt) ==> RespondsWith(Without(channel, i), salt)
  {
  }

  lemma {:induction false} RestKeeps(channel: seq<Message>, repeated: bool, salt: Salt, used: set<Salt>)
    requires channel != []
    ensures NoneLate(channel) ==> NoneLate(Rest(channel, repeated))
    ensures NoneOpens(channel, salt) ==> NoneOpens(Rest(channel, repeated), salt)
    ensures Known(channel, used) ==> Known(Rest(channel, repeated), used)
    ensures OnlyAsks(channel) ==> OnlyAsks(Rest(channel, repeated))
    ensures RespondsWith(channel, salt) ==> RespondsWith(Rest(channel, repeated), salt)
    ensures Quiet(channel, salt) ==> Quiet(Rest(channel, repeated), salt)
    ensures Quiet(channel, salt) && Opens(channel[0], salt) ==> NoneLate(Rest(channel, repeated))
  {
  }

  lemma {:induction false} BeginKeeps(s: System, c: Salt)
    requires Invariant(s) && s.phase.Idle? && c !in s.used
    ensures Invariant(Step(s, Begins(c)))
  {
    UnopenedIsQuiet(s.toServer, c);
    UnopenedIsQuiet(s.toClient, c);
    QuietAppend(s.toServer, c, Request(c));
  }

  lemma {:induction false} ClientReceivesKeeps(s: System, repeated: bool)
    requires Invariant(s) && Enabled(s, ClientReceives(repeated))
    ensures Invariant(Step(s, ClientReceives(repeated)))
  {
  }

  /** What a reply can be, given the message that it answers. */
  ghost predicate Answers(reply: Option<Message>, m: Message, me: Address, players: seq<Player>, connected: set<(Address, Salt)>) {
    reply.Some? ==>
      && (Late(reply.value) ==> m.Response? && Holds(players, me, m.salt) && (me, m.salt) in connected)
      && (reply.value.Challenge? ==> m == Request(reply.value.clientSalt))
      && !reply.value.Request? && !reply.value.Response?
  }

  /** A response is accepted only after its player is marked CONNECTED. */
  lemma {:induction false} HandleAnswers(players: seq<Player>, me: Address, m: Message, serverSalt: Salt)
    ensures var (next, reply) := Handle(players, me, m, serverSalt);
            Answers(reply, m, me, next, ConnectedPlayers(next))
  {
    if m.Response? {
      var i := First(players, me);
      if i < |players| && players[i].connectionSalt == m.salt {
        var marked := players[i].(state := CONNECTED);
        assert players[i := marked][i] == marked;
        assert marked in Responded(players, me, m.salt).0;
        FirstIs(players[i := marked], me, i);
      }
    }
  }

  /** The salt that a connection under way is about. */
  function Agreeing(phase: Phase): Option<Salt> {
    match phase
    case AwaitAnswer(c, v) => Some(Xor(c, v))
    case Established(c, v) => Some(Xor(c, v))
    case _ => None
  }

  /** Who was held is held. */
  ghost predicate StaysHeld(s: System, players: seq<Player>) {
    Agreeing(s.phase).Some? && Holds(s.players, s.me, Agreeing(s.phase).value) ==> Holds(players, s.me, Agreeing(s.phase).value)
  }

  lemma {:induction false} ReplyKeeps(s: System, repeated: bool, players: seq<Player>, reply: Option<Message>,
                                      connected: set<(Address, Salt)>)
    requires Invariant(s) && s.toServer != [] && s.connected <= connected && StaysHeld(s, players)
    requires Answers(reply, s.toServer[0], s.me, players, connected)
    ensures Invariant(s.(players := players, toServer := Rest(s.toServer, repeated), toClient := Posted(s.toClient, reply),
                         connected := connected))
  {
    match s.phase
    case Idle => RestKeeps(s.toServer, repeated, NO_SALT, s.used);
    case Established(c, v) => RestKeeps(s.toServer, repeated, Xor(c, v), s.used);
    case AwaitAnswer(c, v) => RestKeeps(s.toServer, repeated, Xor(c, v), s.used);
    case AwaitChallenge(c) =>
      RestKeeps(s.toServer, repeated, c, s.used);
      if reply.Some? {
        QuietAppend(s.toClient, c, reply.value);
      }
  }

  lemma {:induction false} OwnStaysHeld(s: System, serverSalt: Salt)
    requires Invariant(s) && s.toServer != []
    ensures StaysHeld(s, Handle(s.players, s.me, s.toServer[0], serverSalt).0)
  {
    if Agreeing(s.phase).Some? && Holds(s.players, s.me, Agreeing(s.phase).value) {
      OwnKeepHolding(s.players, s.me, Agreeing(s.phase).value, s.toServer[0], serverSalt);
    }
  }

  lemma {:induction false} ServerReceivesKeeps(s: System, repeated: bool, serverSalt: Salt)
    requires Invariant(s) && Enabled(s, ServerReceives(repeated, serverSalt))
    ensures Invariant(Step(s, ServerReceives(repeated, serverSalt)))
  {
    var (players, reply) := Handle(s.players, s.me, s.toServer[0], serverSalt);
    var connected := s.connected + ConnectedPlayers(players);
    assert Step(s, ServerReceives(repeated, serverSalt)) ==
           s.(players := players, toServer := Rest(s.toServer, repeated), toClient := Posted(s.toClient, reply), connected := connected);
    HandleAnswers(s.players, s.me, s.toServer[0], serverSalt);
    OwnStaysHeld(s, serverSalt);
    ReplyKeeps(s, repeated, players, reply, connected);
  }

  lemma {:induction false} OthersSendKeeps(s: System, address: Address, m: Message, serverSalt: Salt)
    requires Invariant(s) && address != s.me
    ensures Invariant(Step(s, OthersSend(address, m, serverSalt)))
  {
    var players := Handle(s.players, address, m, serverSalt).0;
    assert Step(s, OthersSend(address, m, serverSalt)) ==
           s.(players := players, connected := s.connected + ConnectedPlayers(players));
    if Agreeing(s.phase).Some? && Holds(s.players, s.me, Agreeing(s.phase).value) {
      OthersKeepHolding(s.players, s.me, Agreeing(s.phase).value, address, m, serverSalt);
    }
  }

  lemma {:induction false} LoseToServerKeeps(s: System, i: nat)
    requires Invariant(s) && i < |s.toServer|
    ensures Invariant(Step(s, LoseToServer(i)))
  {
    match s.phase
    case AwaitChallenge(c) =>
      LoseKeeps(s.toServer, i, c, s.used);
      QuietLose(s.toServer, c, i);
    case AwaitAnswer(c, v) => LoseKeeps(s.toServer, i, Xor(c, v), s.used);
    case Established(c, v) => LoseKeeps(s.toServer, i, Xor(c, v), s.used);
    case Idle => LoseKeeps(s.toServer, i, NO_SALT, s.used);
  }

  lemma {:induction false} LoseToClientKeeps(s: System, i: nat)
    requires Invariant(s) && i < |s.toClient|
    ensures Invariant(Step(s, LoseToClient(i)))
  {
    match s.phase
    case AwaitChallenge(c) =>
      LoseKeeps(s.toClient, i, c, s.used);
      QuietLose(s.toClient, c, i);
    case AwaitAnswer(c, v) => LoseKeeps(s.toClient, i, Xor(c, v), s.used);
    case _ => LoseKeeps(s.toClient, i, NO_SALT, s.used);
  }

  lemma {:induction false} StepKeeps(s: System, a: Action)
    requires Invariant(s) && Enabled(s, a) && KeepsOrder(a) && (a.Begins? ==> a.clientSalt !in s.used)
    ensures Invariant(Step(s, a))
  {
    match a
    case Begins(c) => BeginKeeps(s, c);
    case ClientReceives(repeated) => ClientReceivesKeeps(s, repeated);
    case ClientFails(_) =>
    case ServerReceives(repeated, serverSalt) => ServerReceivesKeeps(s, repeated, serverSalt);
    case OthersSend(address, m, serverSalt) => OthersSendKeeps(s, address, m, serverSalt);
    case LoseToServer(i) => LoseToServerKeeps(s, i);
    case LoseToClient(i) => LoseToClientKeeps(s, i);
  }

  lemma {:induction false} RunKeeps(states: seq<System>, actions: seq<Action>, k: nat)
    requires IsRun(states, actions) && FreshSalts(states, actions) && OrderKept(actions) && k < |states|
    ensures Invariant(states[k])
  {
    if k == 0 {
    } else {
      RunKeeps(states, actions, k - 1);
      StepKeeps(states[k - 1], actions[k - 1]);
    }
  }

  /**
   Agreement: over every run in order, whatever other clients do and however many attempts
   failed before, while a client is CONNECTED with a connection salt the server holds it: the first
   player at its address is CONNECTED with that salt, and has been marked so since the start,
   although the last packet of the handshake carries no salt.
   */
  lemma {:induction false} ConnectedClientIsConnectedAtServer(states: seq<System>, actions: seq<Action>, k: nat)
    requires IsRun(states, actions) && FreshSalts(states, actions) && OrderKept(actions) && k < |states|
    requires states[k].phase.Established?
    ensures var s := states[k];
            var salt := Xor(s.phase.clientSalt, s.phase.serverSalt);
            Holds(s.players, s.me, salt) && (s.me, salt) in s.connected
  {
    RunKeeps(states, actions, k);
  }
}
