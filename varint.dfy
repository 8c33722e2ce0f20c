/**
 * Unsigned base-128 varints as written by Go's binary.PutUvarint and read back by
 * binary.ReadUvarint (the LEB128 encoding of DWARF section 7.6, also the Protocol
 * Buffers varint): seven bits per byte, least significant group first, the high bit
 * of every byte but the last set as a continuation flag.
 */
module Varint {
  import opened Wire

  /** binary.MaxVarintLen64: no 64-bit value needs more than ten bytes. */
  const MaxVarintLen64: nat := 10

  /** The bytes PutUvarint writes for x. */
  function Uvarint(x: nat): (bs: seq<Byte>)
    decreases x
  {
    if x < 0x80 then [x] else [x % 0x80 + 0x80] + Uvarint(x / 0x80)
  }

  /**
   * One past the largest value the groups from index i on may still carry: the
   * tenth group (index 9) may only hold 0 or 1, and each earlier group adds 7 bits.
   */
  function Cap(i: nat): nat
    requires i <= 9
    decreases 9 - i
  {
    if i == 9 then 2 else 0x80 * Cap(i + 1)
  }

  lemma CapZero()
    ensures Cap(0) == TwoTo64
  {
    assert Cap(9) == 2;
    assert Cap(8) == 0x100;
    assert Cap(7) == 0x8000;
    assert Cap(6) == 0x40_0000;
    assert Cap(5) == 0x2000_0000;
    assert Cap(4) == 0x10_0000_0000;
    assert Cap(3) == 0x800_0000_0000;
    assert Cap(2) == 0x4_0000_0000_0000;
    assert Cap(1) == 0x200_0000_0000_0000;
  }

  /**
   * The outcome of reading one varint: its value and the index just past the last
   * byte consumed, or the error and the index just past the last byte consumed.
   */
  datatype VarintRead = VarOk(value: nat, end: nat) | VarErr(err: ReadError, end: nat)

  /** Puts the groups read so far (low, worth `scale` per unit of what follows) under a later result. */
  function Shift(low: nat, scale: nat, r: VarintRead): VarintRead
  {
    match r
    case VarOk(v, e) => VarOk(low + scale * v, e)
    case VarErr(_, _) => r
  }

  /**
   * What ReadUvarint does from its i-th byte on, the value counted from group i:
   * a missing first byte is io.EOF, a missing later byte io.ErrUnexpectedEOF, a
   * tenth byte above 1 or an eleventh byte is an overflow.
   */
  function UvarintFrom(s: seq<Byte>, i: nat): VarintRead
    requires i <= MaxVarintLen64
    decreases MaxVarintLen64 - i
  {
    if i == MaxVarintLen64 then VarErr(Overflow, i)
    else if |s| <= i then VarErr(if i > 0 then UnexpectedEOF else EOF, i)
    else if s[i] < 0x80 then
      if i == MaxVarintLen64 - 1 && s[i] > 1 then VarErr(Overflow, i + 1) else VarOk(s[i], i + 1)
    else Shift(s[i] - 0x80, 0x80, UvarintFrom(s, i + 1))
  }

  lemma {:induction false} CapAtLeast(i: nat)
    requires i <= 9
    ensures Cap(i) >= 2
    ensures i < 9 ==> Cap(i) >= 0x100
    decreases 9 - i
  {
    if i < 9 {
      CapAtLeast(i + 1);
    }
  }

  lemma {:induction false} UvarintFromBounds(s: seq<Byte>, i: nat)
    requires i <= MaxVarintLen64 && i <= |s|
    ensures var r := UvarintFrom(s, i); i <= r.end <= |s| && r.end <= MaxVarintLen64
    ensures i < |s| && i < MaxVarintLen64 ==> UvarintFrom(s, i).end > i
    ensures i <= 9 && UvarintFrom(s, i).VarOk? ==> UvarintFrom(s, i).value < Cap(i)
    decreases MaxVarintLen64 - i
  {
    if i <= 9 {
      CapAtLeast(i);
    }
    if i < MaxVarintLen64 && i < |s| && s[i] >= 0x80 {
      UvarintFromBounds(s, i + 1);
      var r := UvarintFrom(s, i + 1);
      if r.VarOk? && i < 9 {
        assert r.value < Cap(i + 1);
        assert (s[i] - 0x80) + 0x80 * r.value < 0x80 + 0x80 * r.value;
        assert 0x80 * r.value + 0x80 <= 0x80 * Cap(i + 1);
      }
    }
  }

  /** The varint at the start of s, as binary.ReadUvarint reads it. */
  function DecodeUvarint(s: seq<Byte>): (r: VarintRead)
    ensures r.end <= |s| && r.end <= MaxVarintLen64
    ensures |s| > 0 <==> r.end > 0
    ensures r.VarOk? ==> r.value < TwoTo64
    ensures |s| == 0 ==> r == VarErr(EOF, 0)
  {
    UvarintFromBounds(s, 0);
    CapZero();
    UvarintFrom(s, 0)
  }

  lemma ShiftShift(x: nat, scale: nat, low: nat, r: VarintRead)
    ensures Shift(x, scale, Shift(low, 0x80, r)) == Shift(x + scale * low, scale * 0x80, r)
  {
    if r.VarOk? {
      calc {
        x + scale * (low + 0x80 * r.value);
        x + scale * low + scale * (0x80 * r.value);
        { assert scale * (0x80 * r.value) == (scale * 0x80) * r.value; }
        x + scale * low + (scale * 0x80) * r.value;
      }
    }
  }

  /** One continuation byte read: its group moves from the pending result into the accumulator. */
  lemma ReadStep(s: seq<Byte>, x: nat, scale: nat, i: nat)
    requires i < MaxVarintLen64 && i < |s| && s[i] >= 0x80
    requires UvarintFrom(s, 0) == Shift(x, scale, UvarintFrom(s, i))
    ensures UvarintFrom(s, 0) == Shift(x + scale * (s[i] - 0x80), scale * 0x80, UvarintFrom(s, i + 1))
  {
    var rest := UvarintFrom(s, i + 1);
    assert UvarintFrom(s, i) == Shift(s[i] - 0x80, 0x80, rest);
    ShiftShift(x, scale, s[i] - 0x80, rest);
  }

  /**
   * binary.ReadUvarint over the bytes the reader holds: reads byte after byte,
   * ORing each 7-bit group in at its place (the groups never overlap, so OR is +).
   */
  method ReadUvarint(s: seq<Byte>) returns (r: VarintRead)
    ensures r == DecodeUvarint(s)
  {
    // Go's loop returns from inside; here the loop runs over the continuation bytes
    // and the three ways out of it (no byte, a last byte, ten bytes) follow it.
    var x: nat, scale: nat, i := 0, 1, 0;
    while i < MaxVarintLen64 && i < |s| && s[i] >= 0x80
      invariant 0 <= i <= MaxVarintLen64
      invariant UvarintFrom(s, 0) == Shift(x, scale, UvarintFrom(s, i))
    {
      ReadStep(s, x, scale, i);
      x, scale, i := x + scale * (s[i] - 0x80), scale * 0x80, i + 1;
    }
    if i == MaxVarintLen64 {
      return VarErr(Overflow, i);
    }
    if |s| <= i {
      return VarErr(if i > 0 then UnexpectedEOF else EOF, i);
    }
    var b := s[i];
    if i == MaxVarintLen64 - 1 && b > 1 {
      return VarErr(Overflow, i + 1);
    }
    return VarOk(x + scale * b, i + 1);
  }

  /**
   * The shape of an encoding: never empty, one byte exactly for values below 0x80,
   * every byte but the last with the continuation bit set and the last without it.
   */
  lemma {:induction false} UvarintShape(x: nat)
    ensures |Uvarint(x)| >= 1 && (|Uvarint(x)| == 1 <==> x < 0x80)
    ensures Uvarint(x)[|Uvarint(x)| - 1] < 0x80
    ensures forall k :: 0 <= k < |Uvarint(x)| - 1 ==> Uvarint(x)[k] >= 0x80
    decreases x
  {
    if x >= 0x80 {
      UvarintShape(x / 0x80);
    }
  }

  /** An encoding of a value below Cap(i) placed at index i is read back whole. */
  lemma {:induction false} UvarintFromEncoded(s: seq<Byte>, i: nat, x: nat)
    requires i <= 9 && x < Cap(i)
    requires i + |Uvarint(x)| <= |s| && s[i .. i + |Uvarint(x)|] == Uvarint(x)
    ensures i + |Uvarint(x)| <= MaxVarintLen64
    ensures UvarintFrom(s, i) == VarOk(x, i + |Uvarint(x)|)
    decreases x
  {
    assert s[i] == s[i .. i + |Uvarint(x)|][0] == Uvarint(x)[0];
    if x >= 0x80 {
      var y := x / 0x80;
      assert i < 9;
      assert y < Cap(i + 1);
      assert Uvarint(x) == [x % 0x80 + 0x80] + Uvarint(y);
      assert s[i + 1 .. i + 1 + |Uvarint(y)|] == s[i .. i + |Uvarint(x)|][1..];
      UvarintFromEncoded(s, i + 1, y);
    }
  }

  /** Round trip: ReadUvarint gives back what PutUvarint wrote, consuming exactly that. */
  lemma UvarintRoundTrip(x: Uint64, rest: seq<Byte>)
    ensures 1 <= |Uvarint(x)| <= MaxVarintLen64
    ensures DecodeUvarint(Uvarint(x) + rest) == VarOk(x, |Uvarint(x)|)
  {
    CapZero();
    UvarintShape(x);
    var s := Uvarint(x) + rest;
    assert s[0 .. |Uvarint(x)|] == Uvarint(x);
    UvarintFromEncoded(s, 0, x);
  }

  /**
   * binary.PutUvarint: while x needs more than seven bits, write its low group with
   * the continuation bit and shift x right by seven; then write the last group.
   */
  method PutUvarint(x: Uint64) returns (bs: seq<Byte>)
    ensures bs == Uvarint(x)
    ensures 1 <= |bs| <= MaxVarintLen64
    ensures DecodeUvarint(bs) == VarOk(x, |bs|)
  {
    bs := [];
    var y: nat := x;
    while y >= 0x80
      invariant bs + Uvarint(y) == Uvarint(x)
      decreases y
    {
      bs := bs + [y % 0x80 + 0x80];
      y := y / 0x80;
    }
    bs := bs + [y];
    UvarintRoundTrip(x, []);
    assert bs + [] == bs;
  }
}
