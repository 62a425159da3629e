/**
 The game-state message: its layout as functions on byte strings, the round trip, and the
 packet object that writes and reads it through a growing buffer and a cursor.
 */
module GamePackets {
  import opened Wrappers
  import opened Wire
  import opened Crc32Spec
  import opened Crc32
  import opened Packets

  /** Each key is a byte; zero means released. */
  datatype Keyboard = Keyboard(up: byte, down: byte, left: byte, right: byte, space: byte) {
    function ToByte(): byte {
      (if up != 0 then 0x01 else 0) | (if down != 0 then 0x02 else 0) | (if left != 0 then 0x04 else 0)
      | (if right != 0 then 0x08 else 0) | (if space != 0 then 0x10 else 0)
    }

    static function FromByte(b: byte): Keyboard {
      Keyboard(Flag(b & 0x01), Flag(b & 0x02), Flag(b & 0x04), Flag(b & 0x08), Flag(b & 0x10))
    }

    function Normalised(): Keyboard {
      Keyboard(if up == 0 then 0 else 1, if down == 0 then 0 else 1, if left == 0 then 0 else 1,
               if right == 0 then 0 else 1, if space == 0 then 0 else 1)
    }
  }

  function Flag(b: byte): byte { if b != 0 then 1 else 0 }

  /** Floats travel as their bit patterns (FloatInt). */
  datatype PlayerState = PlayerState(
    playerID: byte, posX: bv32, posY: bv32, velX: bv32, velY: bv32,
    speed: bv32, rotation: bv32, health: bv32, keyboard: Keyboard, deltaTime: real)
  {
    /** What the wire carries of a state: keys as 0 or 1, and no frame time. */
    function Carried(): PlayerState {
      this.(keyboard := keyboard.Normalised(), deltaTime := 0.0)
    }
  }

  datatype GameState = GameState(salt: bv64, seqNum: bv16, ack: bv16, ackBits: bv32, players: seq<PlayerState>)

  // ---------- layout ----------

  const PLAYER_SIZE := 30
  const HEADER_SIZE := 22

  function PutPlayer(p: PlayerState): (s: seq<byte>)
    ensures |s| == PLAYER_SIZE
  {
    [p.playerID] + (Put32(p.posX) + (Put32(p.posY) + (Put32(p.velX) + (Put32(p.velY)
    + (Put32(p.speed) + (Put32(p.rotation) + (Put32(p.health) + [p.keyboard.ToByte()])))))))
  }

  function GetPlayer(s: seq<byte>, o: nat): PlayerState
    requires o + PLAYER_SIZE <= |s|
  {
    PlayerState(s[o], Get32(s, o + 1), Get32(s, o + 5), Get32(s, o + 9), Get32(s, o + 13),
                Get32(s, o + 17), Get32(s, o + 21), Get32(s, o + 25), Keyboard.FromByte(s[o + 29]), 0.0)
  }

  function PutPlayers(ps: seq<PlayerState>): (s: seq<byte>)
    ensures |s| == PLAYER_SIZE * |ps|
  {
    if ps == [] then [] else PutPlayers(ps[..|ps| - 1]) + PutPlayer(ps[|ps| - 1])
  }

  function GetPlayers(s: seq<byte>, o: nat, n: nat): (ps: seq<PlayerState>)
    requires o + PLAYER_SIZE * n <= |s|
    ensures |ps| == n
  {
    if n == 0 then [] else GetPlayers(s, o, n - 1) + [GetPlayer(s, o + PLAYER_SIZE * (n - 1))]
  }

  function CarriedStates(ps: seq<PlayerState>): (r: seq<PlayerState>)
    ensures |r| == |ps|
  {
    seq(|ps|, i requires 0 <= i < |ps| => ps[i].Carried())
  }

  /** The player count is cast to a signed byte. */
  function CountByte(n: nat): byte { (n % 256) as byte }

  /** The reader's loop bound is that signed byte: a negative count reads nobody. */
  function CountOf(b: byte): nat { if b < 128 then b as nat else 0 }

  function Fields(g: GameState): (s: seq<byte>)
    ensures |s| == HEADER_SIZE - CRC_SIZE
  {
    [GAME_STATE] + (Put64(g.salt) + (Put16(g.seqNum) + (Put16(g.ack) + (Put32(g.ackBits) + [CountByte(|g.players|)]))))
  }

  function Header(g: GameState): (s: seq<byte>)
    ensures |s| == HEADER_SIZE
  {
    NO_CRC + Fields(g)
  }

  /** The bytes that leave the server. */
  function Frame(g: GameState): (s: seq<byte>)
    ensures |s| == HEADER_SIZE + PLAYER_SIZE * |g.players|
  {
    Stamp(Header(g) + PutPlayers(g.players))
  }

  /** Long enough for every read that its own count byte asks for. */
  predicate Complete(frame: seq<byte>) {
    |frame| >= HEADER_SIZE && |frame| >= HEADER_SIZE + PLAYER_SIZE * CountOf(frame[HEADER_SIZE - 1])
  }

  /** The client's reads, in order; None when the checksum or the packet type is wrong. */
  function Parse(frame: seq<byte>): Option<GameState>
    requires Complete(frame)
  {
    if !Validates(frame) || frame[4] != GAME_STATE then None
    else Some(GameState(Get64(frame, 5), Get16(frame, 13), Get16(frame, 15), Get32(frame, 17),
                        GetPlayers(frame, HEADER_SIZE, CountOf(frame[HEADER_SIZE - 1]))))
  }

  /** A packet is refused exactly if its field is not the checksum of the rest or its type is not 10. */
  lemma {:induction false} RefusedIff(frame: seq<byte>)
    requires Complete(frame)
    ensures Parse(frame).None? <==> !HoldsChecksum(frame, frame[4..]) || frame[4] != 10
  {
    ValidatesIffHoldsChecksum(frame);
  }

  // ---------- round trip ----------

  /** The keys of k are 1 where b has a one: up in bit 0, then down, left, right and space. */
  predicate KeysAreBits(k: Keyboard, b: byte) {
    && k.up == (if BitsOfByte(b)[0] then 1 else 0)
    && k.down == (if BitsOfByte(b)[1] then 1 else 0)
    && k.left == (if BitsOfByte(b)[2] then 1 else 0)
    && k.right == (if BitsOfByte(b)[3] then 1 else 0)
    && k.space == (if BitsOfByte(b)[4] then 1 else 0)
  }

  lemma {:induction false} KeysRead(b: byte)
    ensures KeysAreBits(Keyboard.FromByte(b), b)
  {
  }

  lemma {:induction false} KeysWritten(k: Keyboard)
    ensures BitsOfByte(k.ToByte()) ==
            [k.up != 0, k.down != 0, k.left != 0, k.right != 0, k.space != 0, false, false, false]
  {
  }

  /** Every key comes back as 1 if it was not zero, and as 0 if it was. */
  lemma {:induction false} KeyboardRoundTrip(k: Keyboard)
    ensures Keyboard.FromByte(k.ToByte()).up == if k.up == 0 then 0 else 1
    ensures Keyboard.FromByte(k.ToByte()).down == if k.down == 0 then 0 else 1
    ensures Keyboard.FromByte(k.ToByte()).left == if k.left == 0 then 0 else 1
    ensures Keyboard.FromByte(k.ToByte()).right == if k.right == 0 then 0 else 1
    ensures Keyboard.FromByte(k.ToByte()).space == if k.space == 0 then 0 else 1
  {
    KeysRead(k.ToByte());
    KeysWritten(k);
  }

  /** The four words at o, and what follows them. */
  lemma {:induction false} FourWords(s: seq<byte>, o: nat, a: bv32, b: bv32, c: bv32, d: bv32, rest: seq<byte>)
    requires At(s, o, Put32(a) + (Put32(b) + (Put32(c) + (Put32(d) + rest))))
    ensures At(s, o, Put32(a)) && At(s, o + 4, Put32(b)) && At(s, o + 8, Put32(c)) && At(s, o + 12, Put32(d))
    ensures At(s, o + 16, rest)
  {
    AtConcat(s, o, Put32(a), Put32(b) + (Put32(c) + (Put32(d) + rest)));
    AtConcat(s, o + 4, Put32(b), Put32(c) + (Put32(d) + rest));
    AtConcat(s, o + 8, Put32(c), Put32(d) + rest);
    AtConcat(s, o + 12, Put32(d), rest);
  }

  lemma {:induction false} ThreeWords(s: seq<byte>, o: nat, a: bv32, b: bv32, c: bv32, rest: seq<byte>)
    requires At(s, o, Put32(a) + (Put32(b) + (Put32(c) + rest)))
    ensures At(s, o, Put32(a)) && At(s, o + 4, Put32(b)) && At(s, o + 8, Put32(c))
    ensures At(s, o + 12, rest)
  {
    AtConcat(s, o, Put32(a), Put32(b) + (Put32(c) + rest));
    AtConcat(s, o + 4, Put32(b), Put32(c) + rest);
    AtConcat(s, o + 8, Put32(c), rest);
  }

  lemma {:induction false} OneByte(s: seq<byte>, o: nat, b: byte)
    requires At(s, o, [b])
    ensures s[o] == b
  {
    assert s[o + 0] == [b][0];
  }

  /** Where the fields of a state stand, from position o on. */
  lemma {:induction false} PlayerLayout(s: seq<byte>, o: nat, p: PlayerState)
    requires At(s, o, PutPlayer(p))
    ensures s[o] == p.playerID && s[o + 29] == p.keyboard.ToByte()
    ensures At(s, o + 1, Put32(p.posX)) && At(s, o + 5, Put32(p.posY))
    ensures At(s, o + 9, Put32(p.velX)) && At(s, o + 13, Put32(p.velY))
    ensures At(s, o + 17, Put32(p.speed)) && At(s, o + 21, Put32(p.rotation)) && At(s, o + 25, Put32(p.health))
  {
    var keys := [p.keyboard.ToByte()];
    var tail := Put32(p.speed) + (Put32(p.rotation) + (Put32(p.health) + keys));
    AtConcat(s, o, [p.playerID], Put32(p.posX) + (Put32(p.posY) + (Put32(p.velX) + (Put32(p.velY) + tail))));
    FourWords(s, o + 1, p.posX, p.posY, p.velX, p.velY, tail);
    ThreeWords(s, o + 17, p.speed, p.rotation, p.health, keys);
    OneByte(s, o, p.playerID);
    OneByte(s, o + 29, p.keyboard.ToByte());
  }

  lemma {:induction false} PlayerRoundTrip(s: seq<byte>, o: nat, p: PlayerState)
    requires At(s, o, PutPlayer(p))
    ensures GetPlayer(s, o) == p.Carried()
  {
    PlayerLayout(s, o, p);
    GetPut32(s, o + 1, p.posX);
    GetPut32(s, o + 5, p.posY);
    GetPut32(s, o + 9, p.velX);
    GetPut32(s, o + 13, p.velY);
    GetPut32(s, o + 17, p.speed);
    GetPut32(s, o + 21, p.rotation);
    GetPut32(s, o + 25, p.health);
    KeyboardRoundTrip(p.keyboard);
  }

  /** The state numbered i stands 30 * i bytes into the list. */
  lemma {:induction false} PlayerIsAt(s: seq<byte>, o: nat, ps: seq<PlayerState>, i: nat)
    requires At(s, o, PutPlayers(ps)) && i < |ps|
    ensures At(s, o + 30 * i, PutPlayer(ps[i]))
    decreases |ps|
  {
    var init, p := ps[..|ps| - 1], ps[|ps| - 1];
    AtConcat(s, o, PutPlayers(init), PutPlayer(p));
    if i < |init| {
      PlayerIsAt(s, o, init, i);
    }
  }

  lemma {:induction false} CarriedLast(ps: seq<PlayerState>, p: PlayerState)
    ensures CarriedStates(ps + [p]) == CarriedStates(ps) + [p.Carried()]
  {
  }

  lemma {:induction false} LastPlayerRoundTrip(s: seq<byte>, o: nat, init: seq<PlayerState>, p: PlayerState)
    requires At(s, o, PutPlayers(init) + PutPlayer(p))
    ensures At(s, o, PutPlayers(init)) && GetPlayer(s, o + PLAYER_SIZE * |init|) == p.Carried()
  {
    AtConcat(s, o, PutPlayers(init), PutPlayer(p));
    PlayerRoundTrip(s, o + PLAYER_SIZE * |init|, p);
  }

  lemma {:induction false} AllPlayersRoundTrip(s: seq<byte>, o: nat, ps: seq<PlayerState>)
    requires At(s, o, PutPlayers(ps))
    ensures GetPlayers(s, o, |ps|) == CarriedStates(ps)
    decreases |ps|
  {
    if ps == [] {
    } else {
      var init, p := ps[..|ps| - 1], ps[|ps| - 1];
      LastPlayerRoundTrip(s, o, init, p);
      AllPlayersRoundTrip(s, o, init);
      CarriedLast(init, p);
      assert init + [p] == ps;
    }
  }

  lemma {:induction false} FewerPlayers(s: seq<byte>, o: nat, n: nat, m: nat)
    requires n <= m && o + PLAYER_SIZE * m <= |s|
    ensures GetPlayers(s, o, n) == GetPlayers(s, o, m)[..n]
    decreases m
  {
    if n == m {
    } else {
      FewerPlayers(s, o, n, m - 1);
      assert GetPlayers(s, o, m)[..n] == GetPlayers(s, o, m - 1)[..n];
    }
  }

  /** Reading back the first n of the players that were written. */
  lemma {:induction false} PlayersRoundTrip(s: seq<byte>, o: nat, ps: seq<PlayerState>, n: nat)
    requires At(s, o, PutPlayers(ps)) && n <= |ps|
    ensures GetPlayers(s, o, n) == CarriedStates(ps)[..n]
  {
    AllPlayersRoundTrip(s, o, ps);
    FewerPlayers(s, o, n, |ps|);
  }

  /** Where the fields in front of the player list stand. */
  lemma {:induction false} FieldsLayout(g: GameState, f: seq<byte>)
    requires At(f, CRC_SIZE, Fields(g))
    ensures f[4] == 10 && f[21] == (|g.players| % 256) as byte
    ensures At(f, 5, Put64(g.salt)) && At(f, 13, Put16(g.seqNum))
    ensures At(f, 15, Put16(g.ack)) && At(f, 17, Put32(g.ackBits))
  {
    var r4 := [CountByte(|g.players|)];
    var r3 := Put32(g.ackBits) + r4;
    var r2 := Put16(g.ack) + r3;
    var r1 := Put16(g.seqNum) + r2;
    var r0 := Put64(g.salt) + r1;
    AtConcat(f, 4, [GAME_STATE], r0);
    AtConcat(f, 5, Put64(g.salt), r1);
    AtConcat(f, 13, Put16(g.seqNum), r2);
    AtConcat(f, 15, Put16(g.ack), r3);
    AtConcat(f, 17, Put32(g.ackBits), r4);
    OneByte(f, 4, GAME_STATE);
    OneByte(f, 21, CountByte(|g.players|));
  }

  lemma {:induction false} FieldsRoundTrip(g: GameState, f: seq<byte>)
    requires At(f, CRC_SIZE, Fields(g))
    ensures f[4] == GAME_STATE && f[21] == CountByte(|g.players|)
    ensures Get64(f, 5) == g.salt && Get16(f, 13) == g.seqNum
    ensures Get16(f, 15) == g.ack && Get32(f, 17) == g.ackBits
  {
    FieldsLayout(g, f);
    GetPut64(f, 5, g.salt);
    GetPut16(f, 13, g.seqNum);
    GetPut16(f, 15, g.ack);
    GetPut32(f, 17, g.ackBits);
    assert f[4 + 17] == Fields(g)[17];
  }

  lemma {:induction false} AfterField(field: seq<byte>, x: seq<byte>, y: seq<byte>)
    requires |field| == CRC_SIZE
    ensures ((field + x) + y)[CRC_SIZE..] == x + y
  {
  }

  lemma {:induction false} FrameParts(g: GameState)
    ensures At(Frame(g), CRC_SIZE, Fields(g))
    ensures At(Frame(g), HEADER_SIZE, PutPlayers(g.players))
    ensures Validates(Frame(g))
  {
    var f, fields, ps := Frame(g), Fields(g), PutPlayers(g.players);
    AfterField(NO_CRC, fields, ps);
    ValidatesIffStamped(Header(g) + ps);
    AtSuffix(f, CRC_SIZE, fields + ps);
    AtConcat(f, CRC_SIZE, fields, ps);
  }

  lemma {:induction false} PlayersLayout(f: seq<byte>, ps: seq<PlayerState>)
    requires At(f, 22, PutPlayers(ps))
    ensures forall i :: 0 <= i < |ps| ==> At(f, 22 + 30 * i, PutPlayer(ps[i]))
  {
    forall i | 0 <= i < |ps| ensures At(f, 22 + 30 * i, PutPlayer(ps[i])) {
      PlayerIsAt(f, 22, ps, i);
    }
  }

  /** The bytes that leave the server: checksum, packet type, header fields and count. */
  lemma {:induction false} FrameLayout(g: GameState)
    ensures HoldsChecksum(Frame(g), Frame(g)[4..])
    ensures Frame(g)[4] == 10 && Frame(g)[21] == (|g.players| % 256) as byte
    ensures At(Frame(g), 5, Put64(g.salt)) && At(Frame(g), 13, Put16(g.seqNum))
    ensures At(Frame(g), 15, Put16(g.ack)) && At(Frame(g), 17, Put32(g.ackBits))
  {
    FrameParts(g);
    ValidatesIffHoldsChecksum(Frame(g));
    FieldsLayout(g, Frame(g));
  }

  /** Behind them, every player in order. */
  lemma {:induction false} FramePlayers(g: GameState)
    ensures forall i :: 0 <= i < |g.players| ==> At(Frame(g), 22 + 30 * i, PutPlayer(g.players[i]))
  {
    FrameParts(g);
    PlayersLayout(Frame(g), g.players);
  }

  lemma {:induction false} AtSuffix(s: seq<byte>, o: nat, e: seq<byte>)
    requires o <= |s| && s[o..] == e
    ensures At(s, o, e)
  {
  }

  lemma {:induction false} CountOfByte(n: nat)
    requires n < 256
    ensures CountOf(n as byte) == if n < 128 then n else 0
  {
  }

  lemma {:induction false} CountSurvives(n: nat)
    ensures CountOf(CountByte(n)) == if n % 256 < 128 then n % 256 else 0
    ensures CountOf(CountByte(n)) == n <==> n <= 127
  {
    CountOfByte(n % 256);
  }

  /**
   What the client reads from the server's frame: every field, and the first players up to
   the count that survives the signed byte.
   */
  lemma {:induction false} GameStateRoundTrip(g: GameState)
    ensures Complete(Frame(g))
    ensures Parse(Frame(g)) ==
            Some(g.(players := CarriedStates(g.players)[..CountOf(CountByte(|g.players|))]))
  {
    var f, n := Frame(g), |g.players|;
    FrameParts(g);
    FieldsRoundTrip(g, f);
    CountSurvives(n);
    PlayersRoundTrip(f, HEADER_SIZE, g.players, CountOf(CountByte(n)));
  }

  lemma {:induction false} FrameCount(g: GameState)
    ensures Frame(g)[HEADER_SIZE - 1] == CountByte(|g.players|)
  {
    FrameParts(g);
    FieldsRoundTrip(g, Frame(g));
  }

  lemma {:induction false} CarriedAll(ps: seq<PlayerState>, n: nat)
    requires n <= |ps|
    ensures CarriedStates(ps)[..n] == CarriedStates(ps) <==> n == |ps|
  {
  }

  /** The count byte alone lets the player list through exactly when it has at most 127 entries. */
  lemma {:induction false} CountByteSufficesIff(g: GameState)
    ensures Complete(Frame(g))
    ensures Parse(Frame(g)) == Some(g.(players := CarriedStates(g.players))) <==> |g.players| <= 127
    ensures |g.players| <= 127 ==>
              HEADER_SIZE + PLAYER_SIZE * CountOf(Frame(g)[HEADER_SIZE - 1]) == |Frame(g)|
  {
    var n := |g.players|;
    GameStateRoundTrip(g);
    CountSurvives(n);
    FrameCount(g);
    CarriedAll(g.players, CountOf(CountByte(n)));
  }

  // ---------- the way through the socket ----------

  /** The size of the buffer that Receive reads into. */
  const RECEIVE_SIZE := 1024

  /** What a socket does with a datagram that is too long for the buffer. */
  datatype Socket = Truncates | Refuses

  function Received(socket: Socket, frame: seq<byte>): Option<seq<byte>> {
    if frame == [] then None
    else if |frame| <= RECEIVE_SIZE then Some(frame)
    else if socket.Truncates? then Some(frame[..RECEIVE_SIZE])
    else None
  }

  /**
   What the client gets out of a frame that was sent. If a cut frame passes the checksum by
   chance and its count then leads past its end, no list is got either.
   */
  function Delivered(socket: Socket, frame: seq<byte>): Option<GameState> {
    match Received(socket, frame)
    case None => None
    case Some(data) => if Complete(data) then Parse(data) else None
  }

  lemma {:induction false} CutFrameLosesPlayers(f: seq<byte>, n: nat)
    requires |f| == HEADER_SIZE + PLAYER_SIZE * n && n > 33 && f[HEADER_SIZE - 1] == CountByte(n)
    ensures var cut := f[..RECEIVE_SIZE];
            !Complete(cut) || Parse(cut).None? || |Parse(cut).value.players| != n
  {
    CountSurvives(n);
  }

  /**
   The player list arrives whole exactly when it has at most 33 entries, whatever the socket
   does with longer datagrams: one more does not fit the receive buffer.
   */
  lemma {:induction false} PlayersArriveIff(socket: Socket, g: GameState)
    ensures Delivered(socket, Frame(g)) == Some(g.(players := CarriedStates(g.players))) <==> |g.players| <= 33
  {
    if |g.players| <= 33 {
      CountByteSufficesIff(g);
    } else {
      FrameCount(g);
      CutFrameLosesPlayers(Frame(g), |g.players|);
    }
  }

  // ---------- the packet object ----------

  class GamePacket {
    var buffer: seq<byte>
    var offset: nat
    const crc: CRC32

    ghost predicate Valid()
      reads this, crc, crc.table
    {
      crc.Valid()
    }

    constructor ()
      ensures Valid() && fresh(crc) && fresh(crc.table)
      ensures buffer == NO_CRC && offset == 0
    {
      crc := new CRC32();
      buffer := NO_CRC;
      offset := 0;
    }

    constructor FromData(data: seq<byte>)
      ensures Valid() && fresh(crc) && fresh(crc.table)
      ensures buffer == data && offset == 0
    {
      crc := new CRC32();
      buffer := data;
      offset := 0;
    }

    method Clear()
      modifies this
      ensures buffer == NO_CRC && offset == 0
    {
      buffer := [];
      WriteInt32(0);
      ZeroWord();
      offset := 0;
    }

    method WriteInt8(v: byte)
      modifies this`buffer
      ensures buffer == old(buffer) + [v]
    {
      buffer := buffer + [v];
    }

    method WriteInt16(v: bv16)
      modifies this`buffer
      ensures buffer == old(buffer) + Put16(v)
    {
      buffer := buffer + Put16(v);
    }

    method WriteInt32(v: bv32)
      modifies this`buffer
      ensures buffer == old(buffer) + Put32(v)
    {
      buffer := buffer + Put32(v);
    }

    method WriteInt64(v: bv64)
      modifies this`buffer
      ensures buffer == old(buffer) + Put64(v)
    {
      buffer := buffer + Put64(v);
    }

    method ReadInt8() returns (v: byte)
      requires offset + 1 <= |buffer|
      modifies this`offset
      ensures v == buffer[old(offset)] && offset == old(offset) + 1
    {
      v := buffer[offset];
      offset := offset + 1;
    }

    method ReadInt16() returns (v: bv16)
      requires offset + 2 <= |buffer|
      modifies this`offset
      ensures v == Get16(buffer, old(offset)) && offset == old(offset) + 2
    {
      v := Get16(buffer, offset);
      offset := offset + 2;
    }

    method ReadInt32() returns (v: bv32)
      requires offset + 4 <= |buffer|
      modifies this`offset
      ensures v == Get32(buffer, old(offset)) && offset == old(offset) + 4
    {
      v := Get32(buffer, offset);
      offset := offset + 4;
    }

    method ReadUInt64() returns (v: bv64)
      requires offset + 8 <= |buffer|
      modifies this`offset
      ensures v == Get64(buffer, old(offset)) && offset == old(offset) + 8
    {
      v := Get64(buffer, offset);
      offset := offset + 8;
    }

    /** Overwrites the first four bytes with the checksum of the rest. */
    method CalculateCRC()
      requires Valid() && |buffer| >= CRC_SIZE
      modifies this`buffer, crc
      ensures Valid() && buffer == Stamp(old(buffer))
      ensures buffer[CRC_SIZE..] == old(buffer)[CRC_SIZE..] && HoldsChecksum(buffer, old(buffer)[CRC_SIZE..])
    {
      StampHoldsChecksum(buffer);
      crc.Reset();
      crc.Update([PROTOCOL_MAGIC_NUMBER]);
      crc.Update(buffer[CRC_SIZE..]);
      UpdateConcat(0xFFFF_FFFF, [PROTOCOL_MAGIC_NUMBER], buffer[CRC_SIZE..]);
      buffer := Put32(crc.Value()) + buffer[CRC_SIZE..];
    }

    /** Returns 1 for a damaged packet, 0 for a sound one; the cursor passes the field. */
    method ReadAndValidateCRC() returns (result: int)
      requires Valid() && |buffer| >= CRC_SIZE && offset == 0
      modifies this`offset, crc
      ensures Valid() && offset == CRC_SIZE
      ensures result == if Validates(buffer) then 0 else 1
      ensures result == 0 <==> HoldsChecksum(buffer, buffer[CRC_SIZE..])
    {
      ValidatesIffHoldsChecksum(buffer);
      var received := ReadInt32();
      crc.Reset();
      crc.Update([PROTOCOL_MAGIC_NUMBER]);
      crc.Update(buffer[CRC_SIZE..]);
      UpdateConcat(0xFFFF_FFFF, [PROTOCOL_MAGIC_NUMBER], buffer[CRC_SIZE..]);
      result := if received != crc.Value() then 1 else 0;
    }

    method SerializePlayerState(p: PlayerState)
      modifies this`buffer
      ensures buffer == old(buffer) + PutPlayer(p)
    {
      WriteInt8(p.playerID);
      WriteInt32(p.posX);
      WriteInt32(p.posY);
      WriteInt32(p.velX);
      WriteInt32(p.velY);
      WriteInt32(p.speed);
      WriteInt32(p.rotation);
      WriteInt32(p.health);
      WriteInt8(p.keyboard.ToByte());
      var keys := [p.keyboard.ToByte()];
      var b0 := old(buffer) + [p.playerID];
      var b1 := b0 + Put32(p.posX);
      var b2 := b1 + Put32(p.posY);
      var b3 := b2 + Put32(p.velX);
      var b4 := b3 + Put32(p.velY);
      var b5 := b4 + Put32(p.speed);
      var b6 := b5 + Put32(p.rotation);
      var r6 := Put32(p.health) + keys;
      var r5 := Put32(p.rotation) + r6;
      var r4 := Put32(p.speed) + r5;
      var r3 := Put32(p.velY) + r4;
      var r2 := Put32(p.velX) + r3;
      var r1 := Put32(p.posY) + r2;
      Rejoin(b6, Put32(p.health), keys);
      Rejoin(b5, Put32(p.rotation), r6);
      Rejoin(b4, Put32(p.speed), r5);
      Rejoin(b3, Put32(p.velY), r4);
      Rejoin(b2, Put32(p.velX), r3);
      Rejoin(b1, Put32(p.posY), r2);
      Rejoin(b0, Put32(p.posX), r1);
      Rejoin(old(buffer), [p.playerID], Put32(p.posX) + r1);
    }

    /** The fields in front of the player list, with the player count. */
    method WriteFields(g: GameState)
      modifies this`buffer
      ensures buffer == old(buffer) + Fields(g)
    {
      WriteInt8(GAME_STATE);
      WriteInt64(g.salt);
      WriteInt16(g.seqNum);
      WriteInt16(g.ack);
      WriteInt32(g.ackBits);
      WriteInt8(CountByte(|g.players|));
      var count := [CountByte(|g.players|)];
      var b0 := old(buffer) + [GAME_STATE];
      var b1 := b0 + Put64(g.salt);
      var b2 := b1 + Put16(g.seqNum);
      var b3 := b2 + Put16(g.ack);
      Rejoin(b3, Put32(g.ackBits), count);
      Rejoin(b2, Put16(g.ack), Put32(g.ackBits) + count);
      Rejoin(b1, Put16(g.seqNum), Put16(g.ack) + (Put32(g.ackBits) + count));
      Rejoin(b0, Put64(g.salt), Put16(g.seqNum) + (Put16(g.ack) + (Put32(g.ackBits) + count)));
      Rejoin(old(buffer), [GAME_STATE], Put64(g.salt) + (Put16(g.seqNum) + (Put16(g.ack) + (Put32(g.ackBits) + count))));
    }

    method WritePlayers(ps: seq<PlayerState>)
      modifies this`buffer
      ensures buffer == old(buffer) + PutPlayers(ps)
    {
      for i := 0 to |ps|
        invariant buffer == old(buffer) + PutPlayers(ps[..i])
      {
        SerializePlayerState(ps[i]);
        Rejoin(old(buffer), PutPlayers(ps[..i]), PutPlayer(ps[i]));
        assert ps[..i + 1][..i] == ps[..i];
      }
      assert ps[..|ps|] == ps;
    }

    /** Four words in a row: position and velocity. */
    method ReadVectors() returns (posX: bv32, posY: bv32, velX: bv32, velY: bv32)
      requires offset + 16 <= |buffer|
      modifies this`offset
      ensures posX == Get32(buffer, old(offset)) && posY == Get32(buffer, old(offset) + 4)
      ensures velX == Get32(buffer, old(offset) + 8) && velY == Get32(buffer, old(offset) + 12)
      ensures offset == old(offset) + 16
    {
      posX := ReadInt32();
      posY := ReadInt32();
      velX := ReadInt32();
      velY := ReadInt32();
    }

    /** Three words in a row: speed, rotation and health. */
    method ReadScalars() returns (speed: bv32, rotation: bv32, health: bv32)
      requires offset + 12 <= |buffer|
      modifies this`offset
      ensures speed == Get32(buffer, old(offset)) && rotation == Get32(buffer, old(offset) + 4)
      ensures health == Get32(buffer, old(offset) + 8) && offset == old(offset) + 12
    {
      speed := ReadInt32();
      rotation := ReadInt32();
      health := ReadInt32();
    }

    method DeserializePlayerState() returns (p: PlayerState)
      requires offset + PLAYER_SIZE <= |buffer|
      modifies this`offset
      ensures p == GetPlayer(buffer, old(offset)) && offset == old(offset) + PLAYER_SIZE
    {
      var id := ReadInt8();
      var posX, posY, velX, velY := ReadVectors();
      var speed, rotation, health := ReadScalars();
      var keys := ReadInt8();
      p := PlayerState(id, posX, posY, velX, velY, speed, rotation, health, Keyboard.FromByte(keys), 0.0);
    }

    /** The fields between the packet type and the player list. */
    method ReadFields() returns (salt: bv64, seqNum: bv16, ack: bv16, ackBits: bv32)
      requires offset + 16 <= |buffer|
      modifies this`offset
      ensures salt == Get64(buffer, old(offset)) && seqNum == Get16(buffer, old(offset) + 8)
      ensures ack == Get16(buffer, old(offset) + 10) && ackBits == Get32(buffer, old(offset) + 12)
      ensures offset == old(offset) + 16
    {
      salt := ReadUInt64();
      seqNum := ReadInt16();
      ack := ReadInt16();
      ackBits := ReadInt32();
    }

    method DeserializePlayerStates() returns (ps: seq<PlayerState>)
      requires offset + 1 <= |buffer|
      requires offset + 1 + PLAYER_SIZE * CountOf(buffer[offset]) <= |buffer|
      modifies this`offset
      ensures ps == GetPlayers(buffer, old(offset) + 1, CountOf(buffer[old(offset)]))
      ensures offset == old(offset) + 1 + PLAYER_SIZE * |ps|
    {
      ps := [];
      var b := ReadInt8();
      for i := 0 to CountOf(b)
        invariant offset == old(offset) + 1 + PLAYER_SIZE * i
        invariant ps == GetPlayers(buffer, old(offset) + 1, i)
      {
        var p := DeserializePlayerState();
        ps := ps + [p];
      }
    }
  }

  lemma {:induction false} Rejoin(x: seq<byte>, y: seq<byte>, z: seq<byte>)
    ensures x + y + z == x + (y + z)
  {
  }

  lemma ZeroWord()
    ensures Put32(0) == NO_CRC
  {
  }

  /** Server side: the header, then everyone, then the stamp that Network::Send adds. */
  method SendGameState(g: GameState) returns (packet: GamePacket)
    ensures fresh(packet) && packet.Valid() && packet.buffer == Frame(g) && packet.offset == 0
  {
    packet := new GamePacket();
    packet.WriteFields(g);
    packet.WritePlayers(g.players);
    packet.CalculateCRC();
  }

  /** Client side: validate, then read in order. */
  method ReceiveGameState(data: seq<byte>) returns (r: Option<GameState>, ghost cursor: nat)
    requires Complete(data)
    ensures r == Parse(data)
    ensures r.None? <==> !HoldsChecksum(data, data[4..]) || data[4] != 10
    ensures r.Some? ==> cursor == HEADER_SIZE + PLAYER_SIZE * |r.value.players|
  {
    RefusedIff(data);
    var packet := new GamePacket.FromData(data);
    cursor := 0;
    var result := packet.ReadAndValidateCRC();
    if result != 0 {
      return None, cursor;
    }
    var packetType := packet.ReadInt8();
    if packetType != GAME_STATE {
      return None, cursor;
    }
    var salt, seqNum, ack, ackBits := packet.ReadFields();
    var players := packet.DeserializePlayerStates();
    r := Some(GameState(salt, seqNum, ack, ackBits, players));
    cursor := packet.offset;
  }
}
