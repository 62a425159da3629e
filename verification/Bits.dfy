/**
 The individual bits of a 32-bit word. Words are machine bit-vectors, as in the program;
 positions are numbers, so that loops over "bit" and statements about "every bit" are
 ordinary arithmetic.
 */
module Bits {

  /** Bit b of w, counting from the least significant. */
  predicate Bit(w: bv32, b: nat)
    requires b < 32
  {
    Position(b);
    BitAt(w, b as bv32)
  }

  /** All 32 bits of w, least significant first. */
  function Flags(w: bv32): (f: seq<bool>)
    ensures |f| == 32 && forall b: nat :: b < 32 ==> f[b] == Bit(w, b)
  {
    seq(32, b requires 0 <= b < 32 => Bit(w, b))
  }

  /** 1u << b */
  function Mask(b: nat): bv32
    requires b < 32
  {
    Position(b);
    1 << (b as bv32)
  }

  /** w | (1u << b) */
  function WithBit(w: bv32, b: nat): bv32
    requires b < 32
  {
    w | Mask(b)
  }

  predicate BitAt(w: bv32, b: bv32)
    requires b < 32
  {
    (w >> b) & 1 == 1
  }

  /** Positions below 32 survive the trip into a word. */
  lemma {:induction false} Cast(b: nat)
    requires b < 32
    ensures (b as bv32) as int == b
  {
    assert b == 0 || b == 1 || b == 2 || b == 3 || b == 4 || b == 5 || b == 6 || b == 7
        || b == 8 || b == 9 || b == 10 || b == 11 || b == 12 || b == 13 || b == 14 || b == 15
        || b == 16 || b == 17 || b == 18 || b == 19 || b == 20 || b == 21 || b == 22 || b == 23
        || b == 24 || b == 25 || b == 26 || b == 27 || b == 28 || b == 29 || b == 30 || b == 31;
  }

  lemma CastBack(x: bv32, y: bv32)
    requires x as int == y as int
    ensures x == y
  {
    assert (x as int) as bv32 == x;
    assert (y as int) as bv32 == y;
  }

  lemma Bounds(x: bv32)
    ensures x as int < 32 <==> x < 32
    ensures x as int < 31 <==> x < 31
    ensures x as int < 24 <==> x < 24
    ensures x as int < 8 <==> x < 8
  {
  }

  lemma Plus(x: bv32)
    requires x < 31
    ensures (x + 1) as int == x as int + 1
    ensures (x + 8) as int == x as int + 8
  {
  }

  lemma NextWord(x: bv32, y: bv32)
    requires x as int < 31 && y as int == x as int + 1
    ensures y == x + 1
  {
    Bounds(x);
    Plus(x);
    CastBack(y, x + 1);
  }

  lemma NextByteWord(x: bv32, y: bv32)
    requires x as int < 31 && y as int == x as int + 8
    ensures y == x + 8
  {
    Bounds(x);
    Plus(x);
    CastBack(y, x + 8);
  }

  lemma {:induction false} Position(b: nat)
    requires b < 32
    ensures (b as bv32) < 32
    ensures b < 31 <==> (b as bv32) < 31
    ensures b < 24 <==> (b as bv32) < 24
    ensures b < 8 <==> (b as bv32) < 8
  {
    Cast(b);
    Bounds(b as bv32);
  }

  lemma {:induction false} Apart(b: nat, c: nat)
    requires b < 32 && c < 32
    ensures (b as bv32) == (c as bv32) <==> b == c
  {
    Cast(b);
    Cast(c);
  }

  lemma {:induction false} NextPosition(b: nat)
    requires b < 31
    ensures (b + 1) as bv32 == (b as bv32) + 1
  {
    Cast(b);
    Cast(b + 1);
    NextWord(b as bv32, (b + 1) as bv32);
  }

  lemma {:induction false} NextBytePosition(b: nat)
    requires b < 24
    ensures (b + 8) as bv32 == (b as bv32) + 8
  {
    Cast(b);
    Cast(b + 8);
    NextByteWord(b as bv32, (b + 8) as bv32);
  }

  lemma PositionOf(b: bv32) returns (i: nat)
    requires b < 32
    ensures i < 32 && i as bv32 == b
  {
    i := b as nat;
  }

  lemma SetBitAt(w: bv32, b: bv32, c: bv32)
    requires b < 32 && c < 32
    ensures BitAt(w | (1 << b), c) <==> (c == b || BitAt(w, c))
  {
  }

  /** w |= 1u << b sets bit b and nothing else. */
  lemma {:induction false} SetBit(w: bv32, b: nat, c: nat)
    requires b < 32 && c < 32
    ensures Bit(WithBit(w, b), c) <==> (c == b || Bit(w, c))
  {
    Position(b);
    Position(c);
    Apart(b, c);
    SetBitAt(w, b as bv32, c as bv32);
  }

  lemma {:induction false} NoBit(b: nat)
    requires b < 32
    ensures !Bit(0, b)
  {
  }

  lemma {:induction false} XorBit(x: bv32, y: bv32, b: nat)
    requires b < 32
    ensures Bit(x ^ y, b) == (Bit(x, b) != Bit(y, b))
  {
    Position(b);
    XorBitAt(x, y, b as bv32);
  }

  lemma XorBitAt(x: bv32, y: bv32, b: bv32)
    requires b < 32
    ensures BitAt(x ^ y, b) == (BitAt(x, b) != BitAt(y, b))
  {
  }

  lemma {:induction false} HalfBit(x: bv32, b: nat)
    requires b < 32
    ensures Bit(x >> 1, b) == (b < 31 && Bit(x, b + 1))
  {
    if b < 31 {
      Position(b);
      NextPosition(b);
      HalfBitAt(x, b as bv32);
    } else {
      LastHalfBit(x);
    }
  }

  lemma HalfBitAt(x: bv32, b: bv32)
    requires b < 31
    ensures BitAt(x >> 1, b) == BitAt(x, b + 1)
  {
  }

  lemma LastHalfBit(x: bv32)
    ensures !BitAt(x >> 1, 31)
  {
  }

  lemma DifferingBitAt(x: bv32, y: bv32) returns (b: bv32)
    requires x != y
    ensures b < 32 && BitAt(x, b) != BitAt(y, b)
  {
    var d := x ^ y;
    b := if d & 0xFFFF == 0 then 16 else 0;
    b := b + if (d >> b) & 0xFF == 0 then 8 else 0;
    b := b + if (d >> b) & 0xF == 0 then 4 else 0;
    b := b + if (d >> b) & 3 == 0 then 2 else 0;
    b := b + if (d >> b) & 1 == 0 then 1 else 0;
  }

  lemma DifferingBit(x: bv32, y: bv32) returns (i: nat)
    requires x != y
    ensures i < 32 && Bit(x, i) != Bit(y, i)
  {
    var b := DifferingBitAt(x, y);
    i := PositionOf(b);
  }

  /** A word is its 32 bits. */
  lemma SameBits(x: bv32, y: bv32)
    requires forall b: nat :: b < 32 ==> (Bit(x, b) <==> Bit(y, b))
    ensures x == y
  {
    if x != y {
      var i := DifferingBit(x, y);
    }
  }

  lemma TestBitAt(w: bv32, b: bv32)
    requires b < 32
    ensures w & (1 << b) != 0 <==> BitAt(w, b)
  {
  }

  lemma {:induction false} TestBit(w: bv32, b: nat)
    requires b < 32
    ensures w & Mask(b) != 0 <==> Bit(w, b)
  {
    Position(b);
    TestBitAt(w, b as bv32);
  }

  /** (w & (1u << b)) != 0 asks for bit b. */
  predicate HasBit(w: bv32, b: nat): (yes: bool)
    requires b < 32
    ensures yes == Bit(w, b)
  {
    TestBit(w, b);
    w & Mask(b) != 0
  }
}
