/** Bytes, big-endian integers, two's complement, and packed struct layouts. */
module Bytes {

  type byte = x: int | 0 <= x < 256

  function Pow256(n: nat): (p: nat)
    ensures p >= 1
  {
    if n == 0 then 1 else 256 * Pow256(n - 1)
  }

  /** The value a big-endian field holds (`ntohs`, `ntohl`, `be64toh`). */
  function BigEndian(s: seq<byte>): (v: nat)
    ensures v < Pow256(|s|)
  {
    if s == [] then 0 else 256 * BigEndian(s[..|s| - 1]) + s[|s| - 1]
  }

  function ToBigEndian(v: nat, width: nat): (s: seq<byte>)
    ensures |s| == width
  {
    if width == 0 then [] else ToBigEndian(v / 256, width - 1) + [v % 256]
  }

  lemma {:induction false} BigEndianRoundTrip(v: nat, width: nat)
    requires v < Pow256(width)
    ensures BigEndian(ToBigEndian(v, width)) == v
  {
    if width == 0 {
    } else {
      BigEndianRoundTrip(v / 256, width - 1);
      var s := ToBigEndian(v, width);
      assert s[..|s| - 1] == ToBigEndian(v / 256, width - 1);
    }
  }

  lemma ShiftIn(x: int, p: int, y: int, z: int)
    ensures 256 * (x * p + y) + z == x * (256 * p) + (256 * y + z)
  {}

  lemma OneByte(x: byte)
    ensures BigEndian([x]) == x
  {
    assert [x][..0] == [];
  }

  /** The most significant byte comes first. */
  lemma {:induction false} HighBytesFirst(a: seq<byte>, b: seq<byte>)
    ensures BigEndian(a + b) == BigEndian(a) * Pow256(|b|) + BigEndian(b)
  {
    if b == [] {
      assert a + b == a;
    } else {
      var init := b[..|b| - 1];
      assert (a + b)[..|a + b| - 1] == a + init;
      HighBytesFirst(a, init);
      assert (a + b)[|a + b| - 1] == b[|b| - 1];
      ShiftIn(BigEndian(a), Pow256(|init|), BigEndian(init), b[|b| - 1]);
    }
  }

  /** Two's-complement reading of an unsigned field of `width` bytes. */
  function Signed(u: nat, width: nat): int {
    if 2 * u >= Pow256(width) then u - Pow256(width) else u
  }

  /** The reading is the one number of the signed range that agrees with the field modulo its size. */
  lemma SignedIs(u: nat, width: nat, v: int)
    requires u < Pow256(width)
    ensures Signed(u, width) == v
       <==> 0 <= 2 * v + Pow256(width) < 2 * Pow256(width) && (v == u || v == u - Pow256(width))
  {}

  predicate FitsSigned(v: int, width: nat) {
    0 <= 2 * v + Pow256(width) < 2 * Pow256(width)
  }

  function SignedField(v: int, width: nat): (s: seq<byte>)
    requires FitsSigned(v, width)
    ensures |s| == width
  {
    ToBigEndian(if v < 0 then v + Pow256(width) else v, width)
  }

  lemma SignedRoundTrip(v: int, width: nat)
    requires FitsSigned(v, width)
    ensures Signed(BigEndian(SignedField(v, width)), width) == v
  {
    BigEndianRoundTrip(if v < 0 then v + Pow256(width) else v, width);
  }

  lemma Widths()
    ensures Pow256(1) == 0x100 && Pow256(2) == 0x1_0000
    ensures Pow256(4) == 0x1_0000_0000 && Pow256(8) == 0x1_0000_0000_0000_0000
  {}

  // ---- Packed structs: a layout is the list of field widths ----

  function Size(layout: seq<nat>): nat {
    if layout == [] then 0 else layout[0] + Size(layout[1..])
  }

  /** The fields a packed struct of this layout lays over the front of `s`. */
  function Split(s: seq<byte>, layout: seq<nat>): (fields: seq<seq<byte>>)
    requires |s| >= Size(layout)
    ensures |fields| == |layout|
    ensures forall i :: 0 <= i < |layout| ==> |fields[i]| == layout[i]
  {
    if layout == [] then []
    else [s[..layout[0]]] + Split(s[layout[0]..], layout[1..])
  }

  function Join(fields: seq<seq<byte>>): seq<byte> {
    if fields == [] then [] else fields[0] + Join(fields[1..])
  }

  function Layout(fields: seq<seq<byte>>): (layout: seq<nat>)
    ensures |layout| == |fields|
  {
    seq(|fields|, i requires 0 <= i < |fields| => |fields[i]|)
  }

  lemma {:induction false} JoinSize(fields: seq<seq<byte>>)
    ensures |Join(fields)| == Size(Layout(fields))
  {
    if fields == [] {
    } else {
      assert Layout(fields)[1..] == Layout(fields[1..]);
      JoinSize(fields[1..]);
    }
  }

  lemma {:induction false} SplitJoin(fields: seq<seq<byte>>, rest: seq<byte>)
    ensures |Join(fields) + rest| >= Size(Layout(fields))
    ensures Split(Join(fields) + rest, Layout(fields)) == fields
  {
    JoinSize(fields);
    if fields == [] {
    } else {
      var s := Join(fields) + rest;
      assert Layout(fields)[1..] == Layout(fields[1..]);
      assert s == fields[0] + (Join(fields[1..]) + rest);
      assert s[|fields[0]|..] == Join(fields[1..]) + rest;
      SplitJoin(fields[1..], rest);
    }
  }
}
