/**
 The CRC32 class: the lookup table filled by nested loops and the byte-at-a-time update,
 proved against the bit-at-a-time register of Crc32Spec.
 */
module Crc32 {
  import opened Bits
  import opened Crc32Spec

  // ---------- the program's steps, on machine words ----------

  /** The body of the innermost loop of generate_table. */
  function ShiftWord(c: bv32): bv32 {
    if c & 1 != 0 then POLYNOMIAL ^ (c >> 1) else c >> 1
  }

  function ShiftWordTimes(c: bv32, n: nat): bv32 {
    if n == 0 then c else ShiftWord(ShiftWordTimes(c, n - 1))
  }

  /** The body of the loop of update; the table holds ShiftWordTimes(i, 8) at index i. */
  function UpdateWord(c: bv32, b: bv8): bv32 {
    ShiftWordTimes(LowByte(AddByte(c, b)), 8) ^ DropByte(c)
  }

  function AddByte(c: bv32, b: bv8): bv32 {
    c ^ (b as bv32)
  }

  function LowByte(x: bv32): bv32 {
    x & 0xFF
  }

  function DropByte(x: bv32): bv32 {
    x >> 8
  }

  function UpdateWords(c: bv32, data: seq<bv8>): bv32 {
    if data == [] then c else UpdateWord(UpdateWords(c, data[..|data| - 1]), data[|data| - 1])
  }

  function Final(c: bv32): bv32 {
    c ^ 0xFFFF_FFFF
  }

  function Checksum(data: seq<bv8>): bv32 {
    Final(UpdateWords(0xFFFF_FFFF, data))
  }

  // ---------- what the checksum is ----------

  lemma {:induction false} OneBit(b: nat)
    requires b < 32
    ensures Bit(0xFFFF_FFFF, b)
  {
    Position(b);
    OneBitAt(b as bv32);
  }

  lemma OneBitAt(b: bv32)
    requires b < 32
    ensures BitAt(0xFFFF_FFFF, b)
  {
  }

  /** The last step inverts every bit. */
  lemma {:induction false} FinalBit(c: bv32, b: nat)
    requires b < 32
    ensures Bit(Final(c), b) <==> !Bit(c, b)
  {
    XorBit(c, 0xFFFF_FFFF, b);
    OneBit(b);
  }

  lemma OnesWord()
    ensures RegisterOf(0xFFFF_FFFF) == Ones()
  {
    forall b: nat | b < 32 ensures RegisterOf(0xFFFF_FFFF)[b] == Ones()[b] {
      OneBit(b);
    }
  }

  /**
   The checksum of section 8 of RFC 1952: all message bits are fed into a register of ones,
   and each bit of the result is inverted.
   */
  lemma {:induction false} ChecksumBit(data: seq<bv8>, b: nat)
    requires b < 32
    ensures Bit(Checksum(data), b) <==> !FeedBits(Ones(), BitsOf(data))[b]
  {
    OnesWord();
    UpdateIsBitwise(0xFFFF_FFFF, data);
    FinalBit(UpdateWords(0xFFFF_FFFF, data), b);
  }

  // ---------- words and registers agree ----------

  lemma RegistersXor(w: bv32, x: bv32, y: bv32)
    requires forall b: nat :: b < 32 ==> Bit(w, b) == (Bit(x, b) != Bit(y, b))
    ensures RegisterOf(w) == Xor(RegisterOf(x), RegisterOf(y))
  {
  }

  lemma XorWords(x: bv32, y: bv32)
    ensures RegisterOf(x ^ y) == Xor(RegisterOf(x), RegisterOf(y))
  {
    forall b: nat | b < 32 ensures Bit(x ^ y, b) == (Bit(x, b) != Bit(y, b)) {
      XorBit(x, y, b);
    }
    RegistersXor(x ^ y, x, y);
  }

  lemma HalfWord(x: bv32)
    ensures RegisterOf(x >> 1) == Half(RegisterOf(x))
  {
    forall i | 0 <= i < 32 ensures RegisterOf(x >> 1)[i] == Half(RegisterOf(x))[i] {
      HalfBit(x, i);
    }
  }

  lemma LowBit(x: bv32)
    ensures x & 1 != 0 <==> Bit(x, 0)
  {
  }

  lemma ShiftWordIsShift(c: bv32)
    ensures RegisterOf(ShiftWord(c)) == Shift(RegisterOf(c))
  {
    HalfWord(c);
    LowBit(c);
    XorWords(POLYNOMIAL, c >> 1);
  }

  lemma {:induction false} ShiftLast(c: Register, n: nat)
    ensures ShiftTimes(c, n + 1) == Shift(ShiftTimes(c, n))
    decreases n
  {
    if n == 0 {
    } else {
      var next := Shift(c);
      assert ShiftTimes(c, n + 1) == ShiftTimes(next, n) && ShiftTimes(c, n) == ShiftTimes(next, n - 1);
      ShiftLast(next, n - 1);
    }
  }

  lemma {:induction false} ShiftWordTimesIsShiftTimes(c: bv32, n: nat)
    ensures RegisterOf(ShiftWordTimes(c, n)) == ShiftTimes(RegisterOf(c), n)
  {
    if n == 0 {
    } else {
      var w := ShiftWordTimes(c, n - 1);
      ShiftWordTimesIsShiftTimes(c, n - 1);
      ShiftWordIsShift(w);
      ShiftLast(RegisterOf(c), n - 1);
      assert ShiftWordTimes(c, n) == ShiftWord(w);
    }
  }

  lemma {:induction false} LowByteBit(x: bv32, b: nat)
    requires b < 32
    ensures Bit(LowByte(x), b) == (b < 8 && Bit(x, b))
  {
    Position(b);
    LowByteBitAt(x, b as bv32);
  }

  lemma LowByteBitAt(x: bv32, b: bv32)
    requires b < 32
    ensures BitAt(LowByte(x), b) == (b < 8 && BitAt(x, b))
  {
  }

  lemma {:induction false} DropByteBit(x: bv32, b: nat)
    requires b < 32
    ensures Bit(DropByte(x), b) == (b < 24 && Bit(x, b + 8))
  {
    Position(b);
    if b < 24 {
      NextBytePosition(b);
      DropByteBitAt(x, b as bv32);
    } else {
      DropLastByteBitAt(x, b as bv32);
    }
  }

  lemma DropByteBitAt(x: bv32, b: bv32)
    requires b < 24
    ensures BitAt(DropByte(x), b) == BitAt(x, b + 8)
  {
  }

  lemma DropLastByteBitAt(x: bv32, b: bv32)
    requires 24 <= b < 32
    ensures !BitAt(DropByte(x), b)
  {
  }

  lemma ByteRegister(b: bv8)
    ensures RegisterOf(b as bv32) == Pad(BitsOfByte(b))
  {
    forall i | 0 <= i < 32 ensures RegisterOf(b as bv32)[i] == Pad(BitsOfByte(b))[i] {
      ByteBit(b, i);
    }
  }

  lemma {:induction false} ByteBit(b: bv8, i: nat)
    requires i < 32
    ensures Bit(b as bv32, i) == (i < 8 && BitsOfByte(b)[i])
  {
    if i >= 8 {
      WideByte(b);
      LowByteBit(b as bv32, i);
    } else if i < 4 {
      LowByteBits(b);
      assert i == 0 || i == 1 || i == 2 || i == 3;
    } else {
      HighByteBits(b);
      assert i == 4 || i == 5 || i == 6 || i == 7;
    }
  }

  lemma WideByte(b: bv8)
    ensures (b as bv32) & 0xFF == b as bv32
  {
  }

  lemma LowByteBits(b: bv8)
    ensures Bit(b as bv32, 0) == (b & 1 != 0) && Bit(b as bv32, 1) == (b & 2 != 0)
    ensures Bit(b as bv32, 2) == (b & 4 != 0) && Bit(b as bv32, 3) == (b & 8 != 0)
  {
  }

  lemma HighByteBits(b: bv8)
    ensures Bit(b as bv32, 4) == (b & 16 != 0) && Bit(b as bv32, 5) == (b & 32 != 0)
    ensures Bit(b as bv32, 6) == (b & 64 != 0) && Bit(b as bv32, 7) == (b & 128 != 0)
  {
  }

  lemma SameHighBytes(c: bv32, b: bv8)
    ensures DropByte(AddByte(c, b)) == DropByte(c)
  {
  }

  /** Splitting off the low byte: eight bit times act on it alone, the rest just moves down. */
  lemma TableSplit(x: bv32)
    ensures ShiftTimes(RegisterOf(x), 8) == Xor(ShiftTimes(RegisterOf(LowByte(x)), 8), RegisterOf(DropByte(x)))
  {
    var high: Register := Zeros(8) + RegisterOf(x)[8..];
    SplitByte(x);
    ShiftTimesLinear(RegisterOf(LowByte(x)), high, 8);
    assert high[..8] == Zeros(8);
    ShiftOutZeros(high, 8);
  }

  lemma SplitByte(x: bv32)
    ensures var high: Register := Zeros(8) + RegisterOf(x)[8..];
            && RegisterOf(x) == Xor(RegisterOf(LowByte(x)), high)
            && RegisterOf(DropByte(x)) == high[8..] + Zeros(8)
  {
    var r, low, drop := RegisterOf(x), RegisterOf(LowByte(x)), RegisterOf(DropByte(x));
    var high: Register := Zeros(8) + r[8..];
    forall i | 0 <= i < 32 ensures r[i] == Xor(low, high)[i] && drop[i] == (high[8..] + Zeros(8))[i] {
      LowByteBit(x, i);
      DropByteBit(x, i);
    }
  }

  lemma AddByteRegister(c: bv32, b: bv8)
    ensures RegisterOf(AddByte(c, b)) == Xor(RegisterOf(c), Pad(BitsOfByte(b)))
  {
    ByteRegister(b);
    XorWords(c, b as bv32);
  }

  /** One table step is eight bit times of the reference register. */
  lemma UpdateWordIsFeed(c: bv32, b: bv8)
    ensures RegisterOf(UpdateWord(c, b)) == FeedBits(RegisterOf(c), BitsOfByte(b))
  {
    var x := AddByte(c, b);
    FeedAtOnce(RegisterOf(c), BitsOfByte(b));
    AddByteRegister(c, b);
    TableSplit(x);
    SameHighBytes(c, b);
    ShiftWordTimesIsShiftTimes(LowByte(x), 8);
    XorWords(ShiftWordTimes(LowByte(x), 8), DropByte(c));
  }

  lemma {:induction false} BitsOfLast(data: seq<bv8>)
    requires data != []
    ensures BitsOf(data) == BitsOf(data[..|data| - 1]) + BitsOfByte(data[|data| - 1])
  {
    var last := |data| - 1;
    var init := data[..last];
    if last == 0 {
      assert data[1..] == [] && init == [];
    } else {
      BitsOfLast(data[1..]);
      assert data[1..][..last - 1] == init[1..];
      Regroup(BitsOfByte(data[0]), BitsOf(init[1..]), BitsOfByte(data[last]));
    }
  }

  lemma {:induction false} Regroup<T>(a: seq<T>, b: seq<T>, c: seq<T>)
    ensures a + (b + c) == (a + b) + c
  {
  }

  /** The table-driven update of any byte string is the bit-at-a-time result. */
  lemma {:induction false} UpdateIsBitwise(c: bv32, data: seq<bv8>)
    ensures RegisterOf(UpdateWords(c, data)) == FeedBits(RegisterOf(c), BitsOf(data))
  {
    if data == [] {
    } else {
      var init, last := data[..|data| - 1], data[|data| - 1];
      UpdateIsBitwise(c, init);
      UpdateWordIsFeed(UpdateWords(c, init), last);
      BitsOfLast(data);
      FeedConcat(RegisterOf(c), BitsOf(init), BitsOfByte(last));
    }
  }

  /** Updating with x and then with y is updating with x + y. */
  lemma {:induction false} UpdateConcat(c: bv32, x: seq<bv8>, y: seq<bv8>)
    ensures UpdateWords(c, x + y) == UpdateWords(UpdateWords(c, x), y)
  {
    if y == [] {
      assert x + y == x;
    } else {
      var init := y[..|y| - 1];
      assert (x + y)[..|x + y| - 1] == x + init;
      UpdateConcat(c, x, init);
    }
  }

  /**
   Two byte strings of equal length whose bits, in transmission order, differ only inside
   a window of at most 32 never have the same checksum.
   */
  lemma {:induction false} ChecksumDetectsBurst(prefix: seq<bv8>, x: seq<bv8>, y: seq<bv8>, from: nat, to: nat)
    requires |x| == |y| && x != y
    requires from <= to <= 8 * |x| && to - from <= 32
    requires BitsOf(x)[..from] == BitsOf(y)[..from] && BitsOf(x)[to..] == BitsOf(y)[to..]
    ensures Checksum(prefix + x) != Checksum(prefix + y)
  {
    var c := UpdateWords(0xFFFF_FFFF, prefix);
    UpdateConcat(0xFFFF_FFFF, prefix, x);
    UpdateConcat(0xFFFF_FFFF, prefix, y);
    UpdateIsBitwise(c, x);
    UpdateIsBitwise(c, y);
    BitsDiffer(x, y);
    BurstDetected(RegisterOf(c), BitsOf(x), BitsOf(y), from, to);
    FinalInjective(UpdateWords(c, x), UpdateWords(c, y));
  }

  lemma FinalInjective(a: bv32, b: bv32)
    requires a != b
    ensures Final(a) != Final(b)
  {
    FinalTwice(a);
    FinalTwice(b);
  }

  lemma FinalTwice(a: bv32)
    ensures Final(Final(a)) == a
  {
  }

  lemma {:induction false} BitsDiffer(x: seq<bv8>, y: seq<bv8>)
    requires |x| == |y| && x != y
    ensures BitsOf(x) != BitsOf(y)
  {
    var fx, fy := BitsOfByte(x[0]), BitsOfByte(y[0]);
    assert BitsOf(x)[..8] == fx && BitsOf(y)[..8] == fy;
    assert BitsOf(x)[8..] == BitsOf(x[1..]) && BitsOf(y)[8..] == BitsOf(y[1..]);
    if x[0] == y[0] {
      assert x == [x[0]] + x[1..] && y == [y[0]] + y[1..];
      BitsDiffer(x[1..], y[1..]);
    } else {
      ByteBitsDiffer(x[0], y[0]);
    }
  }

  lemma ByteBitsDiffer(a: bv8, b: bv8)
    requires a != b
    ensures BitsOfByte(a) != BitsOfByte(b)
  {
  }

  // ---------- the class ----------

  /**
   The checksum object. The lookup table, static in the program, is held by the object:
   it is filled once and never written again.
   */
  class CRC32 {
    var crc: bv32
    const table: array<bv32>

    ghost predicate Valid()
      reads this, table
    {
      TableReady(table[..])
    }

    constructor ()
      ensures Valid() && fresh(table) && crc == 0xFFFF_FFFF
    {
      table := new bv32[256];
      crc := 0xFFFF_FFFF;
      new;
      GenerateTable(table);
    }

    method Reset()
      modifies this`crc
      ensures crc == 0xFFFF_FFFF
    {
      crc := 0xFFFF_FFFF;
    }

    /** Byte by byte through the table; the register ends where the bit-at-a-time one does. */
    method Update(data: seq<bv8>)
      requires Valid()
      modifies this`crc
      ensures crc == UpdateWords(old(crc), data)
      ensures RegisterOf(crc) == FeedBits(RegisterOf(old(crc)), BitsOf(data))
    {
      for i := 0 to |data|
        invariant crc == UpdateWords(old(crc), data[..i])
      {
        assert data[..i + 1][..i] == data[..i];
        var index := LowByte(AddByte(crc, data[i]));
        LowByteIndex(AddByte(crc, data[i]));
        crc := table[index as int] ^ DropByte(crc);
      }
      assert data[..|data|] == data;
      UpdateIsBitwise(old(crc), data);
    }

    function Value(): (v: bv32)
      reads this
    {
      Final(crc)
    }
  }

  ghost predicate TableReady(table: seq<bv32>) {
    |table| == 256 && forall i :: 0 <= i < 256 ==> table[i] == ShiftWordTimes(i as bv32, 8)
  }

  lemma LowByteIndex(x: bv32)
    ensures 0 <= LowByte(x) as int < 256
    ensures (LowByte(x) as int) as bv32 == LowByte(x)
  {
  }

  /** The nested loops of generate_table. */
  method GenerateTable(table: array<bv32>)
    requires table.Length == 256
    modifies table
    ensures TableReady(table[..])
  {
    for i := 0 to 256
      invariant forall k :: 0 <= k < i ==> table[k] == ShiftWordTimes(k as bv32, 8)
    {
      var c := i as bv32;
      for j := 0 to 8
        invariant c == ShiftWordTimes(i as bv32, j)
      {
        if c & 1 != 0 {
          c := POLYNOMIAL ^ (c >> 1);
        } else {
          c := c >> 1;
        }
      }
      table[i] := c;
    }
  }

  method Calculate(data: seq<bv8>) returns (v: bv32)
    ensures v == Checksum(data)
    ensures forall b: nat :: b < 32 ==> (Bit(v, b) <==> !FeedBits(Ones(), BitsOf(data))[b])
  {
    forall b: nat | b < 32 ensures Bit(Checksum(data), b) <==> !FeedBits(Ones(), BitsOf(data))[b] {
      ChecksumBit(data, b);
    }
    var c := new CRC32();
    c.Update(data);
    v := c.Value();
  }
}
