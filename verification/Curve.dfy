/** Points of secp256k1 and their compressed form (section 2.3.3 of SEC 1). */
module Curve {
  import opened Basics
  import opened Numbers

  /** The field prime. */
  const PRIME := 0xFFFF_FFFF_FFFF_FFFF_FFFF_FFFF_FFFF_FFFF_FFFF_FFFF_FFFF_FFFF_FFFF_FFFE_FFFF_FC2F

  datatype Point = Point(x: nat, y: nat)

  /** Multiplication by repeated addition: it means `a * b` without handing the solver a product. */
  function Times(a: nat, b: nat): nat
  {
    if a == 0 then 0 else b + Times(a - 1, b)
  }

  lemma {:induction false} TimesMultiplies(a: nat, b: nat)
    ensures Times(a, b) == a * b
  {
    if a != 0 {
      TimesMultiplies(a - 1, b);
    }
  }

  /** y^2 = x^3 + 7 over the field, coordinates reduced. */
  predicate OnCurve(p: Point)
  {
    && p.x < PRIME
    && p.y < PRIME
    && Times(p.y, p.y) % PRIME == (Times(p.x, Times(p.x, p.x)) + 7) % PRIME
  }

  /** The engine's point type admits points of the curve only; one of them has x = 1. */
  type CurvePoint = p: Point | OnCurve(p) witness SomePoint()

  const ROOT := 0x4218_F20A_E6C6_46B3_63DB_6860_5822_FB14_264C_A8D2_587F_DD6F_BC75_0D58_7E76_A7EE

  lemma RootOfEight(y: nat)
    requires y == ROOT
    ensures Times(y, y) % PRIME == 8 && Times(1, Times(1, 1)) == 1
  {
    TimesMultiplies(y, y);
  }

  function SomePoint(): (p: Point)
    ensures OnCurve(p)
  {
    RootOfEight(ROOT);
    Point(1, ROOT)
  }

  const GENERATOR_X := 0x79BE_667E_F9DC_BBAC_55A0_6295_CE87_0B07_029B_FCDB_2DCE_28D9_59F2_815B_16F8_1798
  const GENERATOR_Y := 0x483A_DA77_26A3_C465_5DA4_FBFC_0E11_08A8_FD17_B448_A685_5419_9C47_D08F_FB10_D4B8

  /** The generator of secp256k1 is on the curve, and the same x with the next y is not. */
  lemma GeneratorOnCurve(x: nat, y: nat)
    requires x == GENERATOR_X && y == GENERATOR_Y
    ensures OnCurve(Point(x, y)) && !OnCurve(Point(x, y + 1))
  {
    TimesMultiplies(x, x);
    TimesMultiplies(x, x * x);
    TimesMultiplies(y, y);
    TimesMultiplies(y + 1, y + 1);
  }

  /** The origin, which a record without a key reads as, is not on the curve. */
  lemma OriginOffCurve()
    ensures !OnCurve(Point(0, 0))
  {
  }

  /** Coordinates that are not reduced are refused. */
  lemma UnreducedOffCurve(p: Point)
    requires p.x >= PRIME || p.y >= PRIME
    ensures !OnCurve(p)
  {
  }

  /** 02 or 03 by the parity of y, then x in 32 bytes. */
  function Compress(p: Point): (b: seq<byte>)
    ensures |b| == 33
  {
    [2 + p.y % 2] + FixedBytes(p.x, 32)
  }

  function CompressedHex(p: Point): (s: Text)
    ensures |s| == 66
  {
    HexEncodeShape(Compress(p));
    HexEncode(Compress(p))
  }

  lemma FieldFits(x: nat)
    requires x < PRIME
    ensures x < Pow256(32)
  {
    assert Pow256(8) == 0x1_0000_0000_0000_0000;
    assert Pow256(16) == 0x1_0000_0000_0000_0000_0000_0000_0000_0000;
    assert Pow256(24) == 0x1_0000_0000_0000_0000_0000_0000_0000_0000_0000_0000_0000_0000;
    assert Pow256(32) == 0x1_0000_0000_0000_0000_0000_0000_0000_0000_0000_0000_0000_0000_0000_0000_0000_0000;
  }

  predicate IsLowerHex(c: byte)
  {
    IsDigit(c) || 'a' as int <= c <= 'f' as int
  }

  /**
    SEC 1 as a text says it: 66 lower-case digits for 33 bytes, the first 02 for an even y and 03 for an odd one, the
    others the x coordinate, most significant byte first, in the 256 bits there are.
   */
  ghost predicate IsCompressed(s: Text, x: nat, y: nat)
  {
    && |s| == 66 && (forall c :: c in s ==> IsLowerHex(c))
    && var b := HexDecode(s);
    && |b| == 33
    && b[0] == (if y % 2 == 0 then 2 else 3)
    && FromBytes(b[1..]) == x % Pow256(32)
    && (x < PRIME ==> FromBytes(b[1..]) == x)
  }

  lemma CompressedMeans(p: Point)
    ensures IsCompressed(CompressedHex(p), p.x, p.y)
  {
    var b := Compress(p);
    HexEncodeShape(b);
    HexDecodeEncode(b);
    FromFixedBytes(p.x, 32);
    assert b[1..] == FixedBytes(p.x, 32);
    if p.x < PRIME {
      FieldFits(p.x);
    }
  }

  /** The compressed form names the x coordinate and the parity of y, and nothing else. */
  lemma CompressedHexIdentifies(p: Point, q: Point)
    requires p.x < PRIME && q.x < PRIME
    ensures CompressedHex(p) == CompressedHex(q) <==> p.x == q.x && p.y % 2 == q.y % 2
  {
    if CompressedHex(p) == CompressedHex(q) {
      HexEncodeInjective(Compress(p), Compress(q));
      assert FixedBytes(p.x, 32) == Compress(p)[1..];
      assert FixedBytes(q.x, 32) == Compress(q)[1..];
      FieldFits(p.x);
      FieldFits(q.x);
      FromFixedBytes(p.x, 32);
      FromFixedBytes(q.x, 32);
      assert Compress(p)[0] == Compress(q)[0];
    }
  }
}
