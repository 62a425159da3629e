/**
 The checksum in front of every packet: stamping, validating, and what damage is noticed.
 The buffer itself, with its cursor, is the class GamePacket.
 */
module Packets {
  import opened Bits
  import opened Wire
  import opened Crc32Spec
  import opened Crc32

  const PROTOCOL_MAGIC_NUMBER: byte := 0xFE
  const CRC_SIZE := 4
  const GAME_STATE: byte := 10
  const NO_CRC: seq<byte> := [0, 0, 0, 0]

  // ---------- stamping and validating ----------

  function FrameChecksum(frame: seq<byte>): bv32
    requires |frame| >= CRC_SIZE
  {
    Checksum([PROTOCOL_MAGIC_NUMBER] + frame[CRC_SIZE..])
  }

  function Stamp(frame: seq<byte>): (s: seq<byte>)
    requires |frame| >= CRC_SIZE
    ensures |s| == |frame| && s[CRC_SIZE..] == frame[CRC_SIZE..]
  {
    Put32(FrameChecksum(frame)) + frame[CRC_SIZE..]
  }

  predicate Validates(frame: seq<byte>)
    requires |frame| >= CRC_SIZE
  {
    Get32(frame, 0) == FrameChecksum(frame)
  }

  lemma LastByte(w: bv32)
    ensures Low8(Low16(w)) as bv32 == LowByte(w)
  {
  }

  lemma ThirdByte(w: bv32)
    ensures High8(Low16(w)) as bv32 == LowByte(DropByte(w))
  {
  }

  lemma SecondByte(w: bv32)
    ensures Low8(High16(w)) as bv32 == LowByte(DropByte(DropByte(w)))
  {
  }

  lemma FirstByte(w: bv32)
    ensures High8(High16(w)) as bv32 == LowByte(DropByte(DropByte(DropByte(w))))
  {
  }

  lemma {:induction false} LastByteBit(b: byte, w: bv32, j: nat)
    requires j < 8 && b as bv32 == LowByte(w)
    ensures BitsOfByte(b)[j] <==> Bit(w, j)
  {
    ByteBit(b, j);
    LowByteBit(w, j);
  }

  lemma {:induction false} ThirdByteBit(b: byte, w: bv32, j: nat)
    requires j < 8 && b as bv32 == LowByte(DropByte(w))
    ensures BitsOfByte(b)[j] <==> Bit(w, j + 8)
  {
    LastByteBit(b, DropByte(w), j);
    DropByteBit(w, j);
  }

  lemma {:induction false} SecondByteBit(b: byte, w: bv32, j: nat)
    requires j < 8 && b as bv32 == LowByte(DropByte(DropByte(w)))
    ensures BitsOfByte(b)[j] <==> Bit(w, j + 16)
  {
    ThirdByteBit(b, DropByte(w), j);
    DropByteBit(w, j + 8);
  }

  lemma {:induction false} FirstByteBit(b: byte, w: bv32, j: nat)
    requires j < 8 && b as bv32 == LowByte(DropByte(DropByte(DropByte(w))))
    ensures BitsOfByte(b)[j] <==> Bit(w, j + 24)
  {
    SecondByteBit(b, DropByte(w), j);
    DropByteBit(w, j + 16);
  }

  lemma {:induction false} LowHalfBits(w: bv32, j: nat)
    requires j < 8
    ensures BitsOfByte(Low8(Low16(w)))[j] <==> Bit(w, j)
    ensures BitsOfByte(High8(Low16(w)))[j] <==> Bit(w, j + 8)
  {
    LastByte(w);
    LastByteBit(Low8(Low16(w)), w, j);
    ThirdByte(w);
    ThirdByteBit(High8(Low16(w)), w, j);
  }

  lemma {:induction false} HighHalfBits(w: bv32, j: nat)
    requires j < 8
    ensures BitsOfByte(Low8(High16(w)))[j] <==> Bit(w, j + 16)
    ensures BitsOfByte(High8(High16(w)))[j] <==> Bit(w, j + 24)
  {
    SecondByte(w);
    SecondByteBit(Low8(High16(w)), w, j);
    FirstByte(w);
    FirstByteBit(High8(High16(w)), w, j);
  }

  lemma {:induction false} PickByte(s: seq<byte>, w: bv32, k: nat, j: nat)
    requires k < 4 && j < 8 && |s| == 4
    requires BitsOfByte(s[0])[j] <==> Bit(w, j + 24)
    requires BitsOfByte(s[1])[j] <==> Bit(w, j + 16)
    requires BitsOfByte(s[2])[j] <==> Bit(w, j + 8)
    requires BitsOfByte(s[3])[j] <==> Bit(w, j)
    ensures BitsOfByte(s[k])[j] <==> Bit(w, 8 * (3 - k) + j)
  {
    assert k == 0 || k == 1 || k == 2 || k == 3;
  }

  /** Bit j of byte k of a word on the wire, most significant byte first. */
  lemma {:induction false} FieldBit(w: bv32, k: nat, j: nat)
    requires k < 4 && j < 8
    ensures BitsOfByte(Put32(w)[k])[j] <==> Bit(w, 8 * (3 - k) + j)
  {
    HighHalfBits(w, j);
    LowHalfBits(w, j);
    PickByte(Put32(w), w, k, j);
  }

  /**
   The first four bytes hold the checksum of section 8 of RFC 1952 of the byte 0xFE and the
   payload, most significant byte first: the complement of the register that was fed them.
   */
  ghost predicate HoldsChecksum(frame: seq<byte>, payload: seq<byte>) {
    |frame| >= 4 &&
    forall k: nat, j: nat :: k < 4 && j < 8 ==>
      (BitsOfByte(frame[k])[j] <==> !FeedBits(Ones(), BitsOf([0xFE] + payload))[8 * (3 - k) + j])
  }

  lemma {:induction false} StampBit(frame: seq<byte>, k: nat, j: nat)
    requires |frame| >= CRC_SIZE && k < 4 && j < 8
    ensures BitsOfByte(Stamp(frame)[k])[j] <==> !FeedBits(Ones(), BitsOf([0xFE] + frame[4..]))[8 * (3 - k) + j]
  {
    FieldBit(FrameChecksum(frame), k, j);
    ChecksumBit([PROTOCOL_MAGIC_NUMBER] + frame[CRC_SIZE..], 8 * (3 - k) + j);
  }

  lemma {:induction false} StampHoldsChecksum(frame: seq<byte>)
    requires |frame| >= CRC_SIZE
    ensures HoldsChecksum(Stamp(frame), frame[4..])
  {
    forall k: nat, j: nat | k < 4 && j < 8
      ensures BitsOfByte(Stamp(frame)[k])[j] <==>
              !FeedBits(Ones(), BitsOf([0xFE] + frame[4..]))[8 * (3 - k) + j]
    {
      StampBit(frame, k, j);
    }
  }

  lemma {:induction false} SameByte(a: byte, b: byte)
    requires forall j :: 0 <= j < 8 ==> (BitsOfByte(a)[j] <==> BitsOfByte(b)[j])
    ensures a == b
  {
    if a != b {
      ByteBitsDiffer(a, b);
    }
  }

  lemma {:induction false} SameField(x: seq<byte>, y: seq<byte>, payload: seq<byte>)
    requires HoldsChecksum(x, payload) && HoldsChecksum(y, payload)
    ensures x[..4] == y[..4]
  {
    forall k | 0 <= k < 4 ensures x[k] == y[k] {
      SameByte(x[k], y[k]);
    }
  }

  /** The frames that validate are exactly the stamped ones. */
  lemma {:induction false} ValidatesIffStamped(frame: seq<byte>)
    requires |frame| >= CRC_SIZE
    ensures Validates(frame) <==> frame == Stamp(frame)
    ensures Validates(Stamp(frame))
  {
    var s := Stamp(frame);
    assert At(s, 0, Put32(FrameChecksum(frame)));
    GetPut32(s, 0, FrameChecksum(frame));
    var field := frame[..4];
    assert frame == field + frame[4..];
    PutGet32(field);
    assert Get32(field, 0) == Get32(frame, 0);
  }

  /** A frame validates exactly if its field holds the checksum of its payload. */
  lemma {:induction false} ValidatesIffHoldsChecksum(frame: seq<byte>)
    requires |frame| >= CRC_SIZE
    ensures Validates(frame) <==> HoldsChecksum(frame, frame[4..])
  {
    var s := Stamp(frame);
    StampHoldsChecksum(frame);
    ValidatesIffStamped(frame);
    if HoldsChecksum(frame, frame[4..]) {
      SameField(frame, s, frame[4..]);
      assert frame == frame[..4] + frame[4..] && s == s[..4] + s[4..];
    }
  }

  /** Damage confined to the checksum field is always noticed. */
  lemma {:induction false} FieldDamageDetected(frame: seq<byte>, damaged: seq<byte>)
    requires |frame| == |damaged| && |frame| >= CRC_SIZE && Validates(frame)
    requires frame[CRC_SIZE..] == damaged[CRC_SIZE..] && frame != damaged
    ensures !Validates(damaged)
  {
    ValidatesIffStamped(frame);
    ValidatesIffStamped(damaged);
  }

  /**
   Damage to the payload, of any length, confined to 32 consecutive bits in transmission
   order is always noticed.
   */
  lemma {:induction false} BurstDamageDetected(frame: seq<byte>, damaged: seq<byte>, from: nat, to: nat)
    requires |frame| == |damaged| && |frame| >= CRC_SIZE && Validates(frame)
    requires frame[..CRC_SIZE] == damaged[..CRC_SIZE] && frame != damaged
    requires from <= to <= 8 * (|frame| - CRC_SIZE) && to - from <= 32
    requires BitsOf(frame[CRC_SIZE..])[..from] == BitsOf(damaged[CRC_SIZE..])[..from]
    requires BitsOf(frame[CRC_SIZE..])[to..] == BitsOf(damaged[CRC_SIZE..])[to..]
    ensures !Validates(damaged)
  {
    assert frame == frame[..4] + frame[4..] && damaged == damaged[..4] + damaged[4..];
    ChecksumDetectsBurst([PROTOCOL_MAGIC_NUMBER], frame[4..], damaged[4..], from, to);
    assert Get32(frame, 0) == Get32(frame[..4], 0) == Get32(damaged[..4], 0) == Get32(damaged, 0);
  }

  lemma {:induction false} BitsConcat(x: seq<byte>, y: seq<byte>)
    ensures BitsOf(x + y) == BitsOf(x) + BitsOf(y)
  {
    if x == [] {
      assert x + y == y;
    } else {
      assert (x + y)[1..] == x[1..] + y;
      BitsConcat(x[1..], y);
    }
  }

  lemma {:induction false} BitsAround(before: seq<byte>, x: seq<byte>, after: seq<byte>)
    ensures BitsOf(before + (x + after))[..8 * |before|] == BitsOf(before)
    ensures BitsOf(before + (x + after))[8 * |before + x|..] == BitsOf(after)
  {
    BitsConcat(before, x + after);
    BitsConcat(x, after);
    Around(BitsOf(before), BitsOf(x), BitsOf(after));
  }

  lemma {:induction false} Around<T>(p: seq<T>, q: seq<T>, r: seq<T>)
    ensures (p + (q + r))[..|p|] == p && (p + (q + r))[|p| + |q|..] == r
  {
  }

  /** In bytes: any change confined to at most four consecutive payload bytes is noticed. */
  lemma {:induction false} FourByteDamageDetected(field: seq<byte>, before: seq<byte>, x: seq<byte>, y: seq<byte>,
                                                  after: seq<byte>)
    requires |field| == CRC_SIZE && |x| == |y| <= 4 && x != y
    requires Validates(field + (before + (x + after)))
    ensures !Validates(field + (before + (y + after)))
  {
    var p, q := before + (x + after), before + (y + after);
    assert (field + p)[4..] == p && (field + q)[4..] == q;
    assert (field + p)[..4] == field == (field + q)[..4];
    assert p != q by {
      assert p[|before|..][..|x|] == x && q[|before|..][..|y|] == y;
    }
    BitsAround(before, x, after);
    BitsAround(before, y, after);
    BurstDamageDetected(field + p, field + q, 8 * |before|, 8 * |before + x|);
  }
}
