/**
 The checksum as mathematics. The reference is the shift register of RFC 1952 (section 8):
 32 flip-flops into which the message is fed one bit at a time. The algebra of that
 register makes the program's table step equal to eight bit times, and makes every burst
 of at most 32 changed bits visible in the final value.
 */
module Crc32Spec {
  import opened Bits

  const POLYNOMIAL: bv32 := 0xEDB88320

  /** The contents of the shift register, least significant flip-flop first. */
  type Register = r: seq<bool> | |r| == 32 witness Zeros(32)

  function Zeros(n: nat): (z: seq<bool>)
    ensures |z| == n
  {
    seq(n, _ => false)
  }

  /** The register that holds a machine word. */
  function RegisterOf(w: bv32): (r: Register)
    ensures forall i :: 0 <= i < 32 ==> r[i] == Bit(w, i)
  {
    Flags(w)
  }

  function Xor(a: Register, b: Register): (r: Register)
    ensures forall i :: 0 <= i < 32 ==> r[i] == (a[i] != b[i])
  {
    seq(32, i requires 0 <= i < 32 => a[i] != b[i])
  }

  function Half(c: Register): Register {
    c[1..] + [false]
  }

  /** One bit time: shift down, folding the polynomial in when a one falls out. */
  function Shift(c: Register): Register {
    if c[0] then Xor(RegisterOf(POLYNOMIAL), Half(c)) else Half(c)
  }

  function ShiftTimes(c: Register, n: nat): Register
    decreases n
  {
    if n == 0 then c else ShiftTimes(Shift(c), n - 1)
  }

  /** Message bits, extended with zeros to a whole register. */
  function Pad(bits: seq<bool>): Register
    requires |bits| <= 32
  {
    bits + Zeros(32 - |bits|)
  }

  /** The reference: every message bit is added to the register and clocked in. */
  function FeedBits(c: Register, bits: seq<bool>): Register
    decreases |bits|
  {
    if bits == [] then c else FeedBits(Shift(Xor(c, Pad([bits[0]]))), bits[1..])
  }

  /** The bits of a byte in transmission order, least significant first. */
  function BitsOfByte(b: bv8): (bits: seq<bool>)
    ensures |bits| == 8
  {
    [b & 1 != 0, b & 2 != 0, b & 4 != 0, b & 8 != 0, b & 16 != 0, b & 32 != 0, b & 64 != 0, b & 128 != 0]
  }

  function BitsOf(data: seq<bv8>): (bits: seq<bool>)
    ensures |bits| == 8 * |data|
  {
    if data == [] then [] else BitsOfByte(data[0]) + BitsOf(data[1..])
  }

  /** The register at the start: all ones. */
  function Ones(): Register {
    seq(32, _ => true)
  }

  /** The term x^e of a polynomial of degree 32, with the highest power in the lowest bit. */
  function Term(e: bv32): bv32
    requires e < 32
  {
    0x8000_0000 >> e
  }

  /** The constant is the polynomial of section 8 of RFC 1952, but for its leading term x^32. */
  lemma PolynomialIs()
    ensures POLYNOMIAL == Term(26) | Term(23) | Term(22) | Term(16) | Term(12) | Term(11) | Term(10)
                          | Term(8) | Term(7) | Term(5) | Term(4) | Term(2) | Term(1) | Term(0)
  {
  }

  // ---------- algebra of the register ----------

  lemma {:induction false} XorCancel(a: Register, b: Register, c: Register)
    requires Xor(a, b) == Xor(a, c)
    ensures b == c
  {
  }

  lemma {:induction false} HalfLinear(a: Register, b: Register)
    ensures Half(Xor(a, b)) == Xor(Half(a), Half(b))
  {
  }

  lemma {:induction false} ShiftLinear(a: Register, b: Register)
    ensures Shift(Xor(a, b)) == Xor(Shift(a), Shift(b))
  {
    HalfLinear(a, b);
    var p, x, y := RegisterOf(POLYNOMIAL), Half(a), Half(b);
    assert Xor(Xor(p, x), Xor(p, y)) == Xor(x, y);
    assert Xor(Xor(p, x), y) == Xor(p, Xor(x, y));
    assert Xor(x, Xor(p, y)) == Xor(p, Xor(x, y));
  }

  /** The polynomial's top bit tells which branch was taken, so a bit time loses nothing. */
  lemma {:induction false} ShiftInjective(a: Register, b: Register)
    requires Shift(a) == Shift(b)
    ensures a == b
  {
    var p := RegisterOf(POLYNOMIAL);
    TopOfPolynomial();
    assert Shift(a)[31] == a[0] && Shift(b)[31] == b[0];
    if a[0] {
      XorCancel(p, Half(a), Half(b));
    }
    assert Half(a) == Half(b);
    forall i | 0 <= i < 32 ensures a[i] == b[i] {
      if i > 0 {
        assert Half(a)[i - 1] == a[i] && Half(b)[i - 1] == b[i];
      }
    }
  }

  lemma TopOfPolynomial()
    ensures Bit(POLYNOMIAL, 31)
  {
  }

  lemma {:induction false} ShiftTimesLinear(a: Register, b: Register, n: nat)
    ensures ShiftTimes(Xor(a, b), n) == Xor(ShiftTimes(a, n), ShiftTimes(b, n))
    decreases n
  {
    if n == 0 {
    } else {
      ShiftLinear(a, b);
      ShiftTimesLinear(Shift(a), Shift(b), n - 1);
    }
  }

  lemma {:induction false} ShiftTimesInjective(a: Register, b: Register, n: nat)
    requires ShiftTimes(a, n) == ShiftTimes(b, n)
    ensures a == b
    decreases n
  {
    if n == 0 {
    } else {
      ShiftTimesInjective(Shift(a), Shift(b), n - 1);
      ShiftInjective(a, b);
    }
  }

  /** Low zeros simply fall out. */
  lemma {:induction false} ShiftOutZeros(c: Register, n: nat)
    requires n <= 32 && c[..n] == Zeros(n)
    ensures ShiftTimes(c, n) == c[n..] + Zeros(n)
    decreases n
  {
    if n == 0 {
    } else {
      assert !c[..n][0];
      var h := Half(c);
      assert h[..n - 1] == c[1..n] == Zeros(n)[1..] == Zeros(n - 1);
      ShiftOutZeros(h, n - 1);
      assert h[n - 1..] == c[n..] + [false];
      assert [false] + Zeros(n - 1) == Zeros(n);
    }
  }

  /** Up to 32 bits may be added all at once, before the shifting. */
  lemma {:induction false} FeedAtOnce(c: Register, bits: seq<bool>)
    requires |bits| <= 32
    ensures FeedBits(c, bits) == ShiftTimes(Xor(c, Pad(bits)), |bits|)
    decreases |bits|
  {
    if bits == [] {
      assert Xor(c, Pad(bits)) == c;
    } else {
      var first, rest := Pad([bits[0]]), bits[1..];
      var late: Register := [false] + Pad(rest)[..31];
      assert Half(late) == Pad(rest);
      assert Xor(c, Pad(bits)) == Xor(Xor(c, first), late);
      ShiftLinear(Xor(c, first), late);
      FeedAtOnce(Shift(Xor(c, first)), rest);
    }
  }

  lemma {:induction false} FeedConcat(c: Register, x: seq<bool>, y: seq<bool>)
    ensures FeedBits(c, x + y) == FeedBits(FeedBits(c, x), y)
    decreases |x|
  {
    if x == [] {
      assert x + y == y;
    } else {
      assert (x + y)[1..] == x[1..] + y;
      FeedConcat(Shift(Xor(c, Pad([x[0]]))), x[1..], y);
    }
  }

  /** Feeding a fixed message never merges two register states. */
  lemma {:induction false} FeedInjective(a: Register, b: Register, bits: seq<bool>)
    requires FeedBits(a, bits) == FeedBits(b, bits)
    ensures a == b
    decreases |bits|
  {
    if bits == [] {
    } else {
      var d := Pad([bits[0]]);
      FeedInjective(Shift(Xor(a, d)), Shift(Xor(b, d)), bits[1..]);
      ShiftInjective(Xor(a, d), Xor(b, d));
      assert Xor(a, d) == Xor(d, a) && Xor(b, d) == Xor(d, b);
      XorCancel(d, a, b);
    }
  }

  /** From one state, different messages of at most 32 bits lead to different states. */
  lemma {:induction false} WindowInjective(c: Register, x: seq<bool>, y: seq<bool>)
    requires |x| == |y| <= 32 && FeedBits(c, x) == FeedBits(c, y)
    ensures x == y
  {
    FeedAtOnce(c, x);
    FeedAtOnce(c, y);
    ShiftTimesInjective(Xor(c, Pad(x)), Xor(c, Pad(y)), |x|);
    XorCancel(c, Pad(x), Pad(y));
    assert x == Pad(x)[..|x|] && y == Pad(y)[..|y|];
  }

  /**
   Burst detection: two messages of any length that differ only inside a window of at
   most 32 consecutive bits, and do differ, leave the register in different states.
   */
  lemma {:induction false} BurstDetected(c: Register, x: seq<bool>, y: seq<bool>, from: nat, to: nat)
    requires |x| == |y| && x != y
    requires from <= to <= |x| && to - from <= 32
    requires x[..from] == y[..from] && x[to..] == y[to..]
    ensures FeedBits(c, x) != FeedBits(c, y)
  {
    assert x == x[..from] + (x[from..to] + x[to..]);
    assert y == y[..from] + (y[from..to] + y[to..]);
    var s := FeedBits(c, x[..from]);
    FeedConcat(c, x[..from], x[from..to] + x[to..]);
    FeedConcat(c, y[..from], y[from..to] + y[to..]);
    FeedConcat(s, x[from..to], x[to..]);
    FeedConcat(s, y[from..to], y[to..]);
    if FeedBits(c, x) == FeedBits(c, y) {
      FeedInjective(FeedBits(s, x[from..to]), FeedBits(s, y[from..to]), x[to..]);
      WindowInjective(s, x[from..to], y[from..to]);
    }
  }
}
