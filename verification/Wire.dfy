/**
 Integers on the wire: network byte order, as htons, htonl and htonll produce it. Values
 are bit patterns; the signedness of the C++ readers and writers does not change them.
 */
module Wire {

  type byte = bv8

  function High8(v: bv16): byte { ((v >> 8) & 0xFF) as byte }
  function Low8(v: bv16): byte { (v & 0xFF) as byte }
  function Join16(h: byte, l: byte): bv16 { ((h as bv16) << 8) | (l as bv16) }

  function High16(v: bv32): bv16 { ((v >> 16) & 0xFFFF) as bv16 }
  function Low16(v: bv32): bv16 { (v & 0xFFFF) as bv16 }
  function Join32(h: bv16, l: bv16): bv32 { ((h as bv32) << 16) | (l as bv32) }

  function High32(v: bv64): bv32 { ((v >> 32) & 0xFFFF_FFFF) as bv32 }
  function Low32(v: bv64): bv32 { (v & 0xFFFF_FFFF) as bv32 }
  function Join64(h: bv32, l: bv32): bv64 { ((h as bv64) << 32) | (l as bv64) }

  lemma Halves16(v: bv16)
    ensures Join16(High8(v), Low8(v)) == v
  {
  }

  lemma Halves32(v: bv32)
    ensures Join32(High16(v), Low16(v)) == v
  {
  }

  lemma Halves64(v: bv64)
    ensures Join64(High32(v), Low32(v)) == v
  {
  }

  function Put16(v: bv16): (s: seq<byte>)
    ensures |s| == 2
  {
    [High8(v), Low8(v)]
  }

  function Put32(v: bv32): (s: seq<byte>)
    ensures |s| == 4
  {
    Put16(High16(v)) + Put16(Low16(v))
  }

  function Put64(v: bv64): (s: seq<byte>)
    ensures |s| == 8
  {
    Put32(High32(v)) + Put32(Low32(v))
  }

  /** Network byte order: the most significant byte first. */
  lemma BigEndian16(v: bv16)
    ensures Put16(v)[0] as bv16 == v >> 8 && Put16(v)[1] as bv16 == v & 0xFF
  {
  }

  lemma BigEndian32(v: bv32)
    ensures Put32(v)[0] as bv32 == v >> 24 && Put32(v)[1] as bv32 == (v >> 16) & 0xFF
    ensures Put32(v)[2] as bv32 == (v >> 8) & 0xFF && Put32(v)[3] as bv32 == v & 0xFF
  {
  }

  lemma BigEndian64(v: bv64)
    ensures Put64(v)[0] as bv64 == v >> 56 && Put64(v)[1] as bv64 == (v >> 48) & 0xFF
    ensures Put64(v)[2] as bv64 == (v >> 40) & 0xFF && Put64(v)[3] as bv64 == (v >> 32) & 0xFF
    ensures Put64(v)[4] as bv64 == (v >> 24) & 0xFF && Put64(v)[5] as bv64 == (v >> 16) & 0xFF
    ensures Put64(v)[6] as bv64 == (v >> 8) & 0xFF && Put64(v)[7] as bv64 == v & 0xFF
  {
  }

  function Get16(s: seq<byte>, o: nat): bv16
    requires o + 2 <= |s|
  {
    Join16(s[o], s[o + 1])
  }

  function Get32(s: seq<byte>, o: nat): bv32
    requires o + 4 <= |s|
  {
    Join32(Get16(s, o), Get16(s, o + 2))
  }

  function Get64(s: seq<byte>, o: nat): bv64
    requires o + 8 <= |s|
  {
    Join64(Get32(s, o), Get32(s, o + 4))
  }

  /** The bytes e stand in s from position o on. */
  ghost predicate At(s: seq<byte>, o: nat, e: seq<byte>) {
    o + |e| <= |s| && forall i :: 0 <= i < |e| ==> s[o + i] == e[i]
  }

  lemma {:induction false} AtConcat(s: seq<byte>, o: nat, x: seq<byte>, y: seq<byte>)
    requires At(s, o, x + y)
    ensures At(s, o, x) && At(s, o + |x|, y)
  {
    forall i | 0 <= i < |x| ensures s[o + i] == x[i] {
      assert (x + y)[i] == x[i];
    }
    forall i | 0 <= i < |y| ensures s[o + |x| + i] == y[i] {
      assert s[o + (|x| + i)] == (x + y)[|x| + i] == y[i];
    }
  }

  /** Reading where a value was written gives the value back, whatever surrounds it. */
  lemma {:induction false} GetPut16(s: seq<byte>, o: nat, v: bv16)
    requires At(s, o, Put16(v))
    ensures Get16(s, o) == v
  {
    assert s[o + 0] == Put16(v)[0] && s[o + 1] == Put16(v)[1];
    Halves16(v);
  }

  lemma {:induction false} GetPut32(s: seq<byte>, o: nat, v: bv32)
    requires At(s, o, Put32(v))
    ensures Get32(s, o) == v
  {
    AtConcat(s, o, Put16(High16(v)), Put16(Low16(v)));
    GetPut16(s, o, High16(v));
    GetPut16(s, o + 2, Low16(v));
    Halves32(v);
  }

  lemma {:induction false} GetPut64(s: seq<byte>, o: nat, v: bv64)
    requires At(s, o, Put64(v))
    ensures Get64(s, o) == v
  {
    AtConcat(s, o, Put32(High32(v)), Put32(Low32(v)));
    GetPut32(s, o, High32(v));
    GetPut32(s, o + 4, Low32(v));
    Halves64(v);
  }

  /** Every four bytes are the encoding of the number they are read as. */
  lemma {:induction false} PutGet32(s: seq<byte>)
    requires |s| == 4
    ensures Put32(Get32(s, 0)) == s
  {
  }
}
