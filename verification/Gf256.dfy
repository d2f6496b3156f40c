/**
 Arithmetic in the field GF(2^8) and the two byte tables of the AES code, with the
 facts that tie both to their definitions in FIPS 197.
 */
module Gf256 {

  // -------------------------------------------------------------- multiplication

  /** Multiplication by x, {02}: shift, and reduce by 0x11b when a bit falls out. */
  function Xtime(x: bv8): bv8 {
    (x << 1) ^ (((x >> 7) & 1) * 0x1b)
  }

  /** Addition in GF(2^8), section 4.1 of FIPS 197. */
  function Add(x: bv8, y: bv8): bv8 {
    x ^ y
  }

  /** One term of the code's product: x times the low bit of y, as integers. */
  function Gate(y: bv8, x: bv8): bv8 {
    (y & 1) * x
  }

  /** The code's product, which looks at the five low bits of y only. */
  function Multiply(x: bv8, y: bv8): bv8 {
    Gate(y, x) ^
    Gate(y >> 1, Xtime(x)) ^
    Gate(y >> 2, Xtime(Xtime(x))) ^
    Gate(y >> 3, Xtime(Xtime(Xtime(x)))) ^
    Gate(y >> 4, Xtime(Xtime(Xtime(Xtime(x)))))
  }

  /** x when the low bit is set, zero otherwise. */
  function Select(bit: bv8, x: bv8): bv8 {
    if bit & 1 == 1 then x else 0
  }

  /** Product in GF(2^8), section 4.2.1 of FIPS 197: the sum of x * {02}^i over the bits i of y. */
  function GfMul(x: bv8, y: bv8): bv8 {
    var x1 := Xtime(x);
    var x2 := Xtime(x1);
    var x3 := Xtime(x2);
    var x4 := Xtime(x3);
    var x5 := Xtime(x4);
    var x6 := Xtime(x5);
    var x7 := Xtime(x6);
    Select(y, x) ^ Select(y >> 1, x1) ^ Select(y >> 2, x2) ^ Select(y >> 3, x3) ^
    Select(y >> 4, x4) ^ Select(y >> 5, x5) ^ Select(y >> 6, x6) ^ Select(y >> 7, x7)
  }

  // -------------------------------------------------------------- tables

  /** Entry i of a sixteen-entry row. */
  function Pick(i: bv8, v0: bv8, v1: bv8, v2: bv8, v3: bv8, v4: bv8, v5: bv8, v6: bv8, v7: bv8, v8: bv8, v9: bv8, vA: bv8, vB: bv8, vC: bv8, vD: bv8, vE: bv8, vF: bv8): bv8 {
    if i < 0x8 then 
    (if i < 0x4 then (if i < 0x2 then (if i < 0x1 then v0 else v1) else (if i < 0x3 then v2 else v3)) else (if i < 0x6 then (if i < 0x5 then v4 else v5) else (if i < 0x7 then v6 else v7))) else 
    (if i < 0xC then (if i < 0xA then (if i < 0x9 then v8 else v9) else (if i < 0xB then vA else vB)) else (if i < 0xE then (if i < 0xD then vC else vD) else (if i < 0xF then vE else vF)))
  }

  /** The substitution table, one row of the source table per line. */
  function SboxValue(x: bv8): bv8 {
    var l := x & 0xf;
    Pick(x >> 4,
      Pick(l, 0x63, 0x7c, 0x77, 0x7b, 0xf2, 0x6b, 0x6f, 0xc5, 0x30, 0x01, 0x67, 0x2b, 0xfe, 0xd7, 0xab, 0x76),
      Pick(l, 0xca, 0x82, 0xc9, 0x7d, 0xfa, 0x59, 0x47, 0xf0, 0xad, 0xd4, 0xa2, 0xaf, 0x9c, 0xa4, 0x72, 0xc0),
      Pick(l, 0xb7, 0xfd, 0x93, 0x26, 0x36, 0x3f, 0xf7, 0xcc, 0x34, 0xa5, 0xe5, 0xf1, 0x71, 0xd8, 0x31, 0x15),
      Pick(l, 0x04, 0xc7, 0x23, 0xc3, 0x18, 0x96, 0x05, 0x9a, 0x07, 0x12, 0x80, 0xe2, 0xeb, 0x27, 0xb2, 0x75),
      Pick(l, 0x09, 0x83, 0x2c, 0x1a, 0x1b, 0x6e, 0x5a, 0xa0, 0x52, 0x3b, 0xd6, 0xb3, 0x29, 0xe3, 0x2f, 0x84),
      Pick(l, 0x53, 0xd1, 0x00, 0xed, 0x20, 0xfc, 0xb1, 0x5b, 0x6a, 0xcb, 0xbe, 0x39, 0x4a, 0x4c, 0x58, 0xcf),
      Pick(l, 0xd0, 0xef, 0xaa, 0xfb, 0x43, 0x4d, 0x33, 0x85, 0x45, 0xf9, 0x02, 0x7f, 0x50, 0x3c, 0x9f, 0xa8),
      Pick(l, 0x51, 0xa3, 0x40, 0x8f, 0x92, 0x9d, 0x38, 0xf5, 0xbc, 0xb6, 0xda, 0x21, 0x10, 0xff, 0xf3, 0xd2),
      Pick(l, 0xcd, 0x0c, 0x13, 0xec, 0x5f, 0x97, 0x44, 0x17, 0xc4, 0xa7, 0x7e, 0x3d, 0x64, 0x5d, 0x19, 0x73),
      Pick(l, 0x60, 0x81, 0x4f, 0xdc, 0x22, 0x2a, 0x90, 0x88, 0x46, 0xee, 0xb8, 0x14, 0xde, 0x5e, 0x0b, 0xdb),
      Pick(l, 0xe0, 0x32, 0x3a, 0x0a, 0x49, 0x06, 0x24, 0x5c, 0xc2, 0xd3, 0xac, 0x62, 0x91, 0x95, 0xe4, 0x79),
      Pick(l, 0xe7, 0xc8, 0x37, 0x6d, 0x8d, 0xd5, 0x4e, 0xa9, 0x6c, 0x56, 0xf4, 0xea, 0x65, 0x7a, 0xae, 0x08),
      Pick(l, 0xba, 0x78, 0x25, 0x2e, 0x1c, 0xa6, 0xb4, 0xc6, 0xe8, 0xdd, 0x74, 0x1f, 0x4b, 0xbd, 0x8b, 0x8a),
      Pick(l, 0x70, 0x3e, 0xb5, 0x66, 0x48, 0x03, 0xf6, 0x0e, 0x61, 0x35, 0x57, 0xb9, 0x86, 0xc1, 0x1d, 0x9e),
      Pick(l, 0xe1, 0xf8, 0x98, 0x11, 0x69, 0xd9, 0x8e, 0x94, 0x9b, 0x1e, 0x87, 0xe9, 0xce, 0x55, 0x28, 0xdf),
      Pick(l, 0x8c, 0xa1, 0x89, 0x0d, 0xbf, 0xe6, 0x42, 0x68, 0x41, 0x99, 0x2d, 0x0f, 0xb0, 0x54, 0xbb, 0x16))
  }

  /** The inverse substitution table. */
  function SboxInvert(x: bv8): bv8 {
    var l := x & 0xf;
    Pick(x >> 4,
      Pick(l, 0x52, 0x09, 0x6a, 0xd5, 0x30, 0x36, 0xa5, 0x38, 0xbf, 0x40, 0xa3, 0x9e, 0x81, 0xf3, 0xd7, 0xfb),
      Pick(l, 0x7c, 0xe3, 0x39, 0x82, 0x9b, 0x2f, 0xff, 0x87, 0x34, 0x8e, 0x43, 0x44, 0xc4, 0xde, 0xe9, 0xcb),
      Pick(l, 0x54, 0x7b, 0x94, 0x32, 0xa6, 0xc2, 0x23, 0x3d, 0xee, 0x4c, 0x95, 0x0b, 0x42, 0xfa, 0xc3, 0x4e),
      Pick(l, 0x08, 0x2e, 0xa1, 0x66, 0x28, 0xd9, 0x24, 0xb2, 0x76, 0x5b, 0xa2, 0x49, 0x6d, 0x8b, 0xd1, 0x25),
      Pick(l, 0x72, 0xf8, 0xf6, 0x64, 0x86, 0x68, 0x98, 0x16, 0xd4, 0xa4, 0x5c, 0xcc, 0x5d, 0x65, 0xb6, 0x92),
      Pick(l, 0x6c, 0x70, 0x48, 0x50, 0xfd, 0xed, 0xb9, 0xda, 0x5e, 0x15, 0x46, 0x57, 0xa7, 0x8d, 0x9d, 0x84),
      Pick(l, 0x90, 0xd8, 0xab, 0x00, 0x8c, 0xbc, 0xd3, 0x0a, 0xf7, 0xe4, 0x58, 0x05, 0xb8, 0xb3, 0x45, 0x06),
      Pick(l, 0xd0, 0x2c, 0x1e, 0x8f, 0xca, 0x3f, 0x0f, 0x02, 0xc1, 0xaf, 0xbd, 0x03, 0x01, 0x13, 0x8a, 0x6b),
      Pick(l, 0x3a, 0x91, 0x11, 0x41, 0x4f, 0x67, 0xdc, 0xea, 0x97, 0xf2, 0xcf, 0xce, 0xf0, 0xb4, 0xe6, 0x73),
      Pick(l, 0x96, 0xac, 0x74, 0x22, 0xe7, 0xad, 0x35, 0x85, 0xe2, 0xf9, 0x37, 0xe8, 0x1c, 0x75, 0xdf, 0x6e),
      Pick(l, 0x47, 0xf1, 0x1a, 0x71, 0x1d, 0x29, 0xc5, 0x89, 0x6f, 0xb7, 0x62, 0x0e, 0xaa, 0x18, 0xbe, 0x1b),
      Pick(l, 0xfc, 0x56, 0x3e, 0x4b, 0xc6, 0xd2, 0x79, 0x20, 0x9a, 0xdb, 0xc0, 0xfe, 0x78, 0xcd, 0x5a, 0xf4),
      Pick(l, 0x1f, 0xdd, 0xa8, 0x33, 0x88, 0x07, 0xc7, 0x31, 0xb1, 0x12, 0x10, 0x59, 0x27, 0x80, 0xec, 0x5f),
      Pick(l, 0x60, 0x51, 0x7f, 0xa9, 0x19, 0xb5, 0x4a, 0x0d, 0x2d, 0xe5, 0x7a, 0x9f, 0x93, 0xc9, 0x9c, 0xef),
      Pick(l, 0xa0, 0xe0, 0x3b, 0x4d, 0xae, 0x2a, 0xf5, 0xb0, 0xc8, 0xeb, 0xbb, 0x3c, 0x83, 0x53, 0x99, 0x61),
      Pick(l, 0x17, 0x2b, 0x04, 0x7e, 0xba, 0x77, 0xd6, 0x26, 0xe1, 0x69, 0x14, 0x63, 0x55, 0x21, 0x0c, 0x7d))
  }

  /** The affine map over GF(2) of section 5.1.1 of FIPS 197. */
  function Affine(b: bv8): bv8 {
    b ^ b.RotateLeft(1) ^ b.RotateLeft(2) ^ b.RotateLeft(3) ^ b.RotateLeft(4) ^ 0x63
  }

  /** The inverse affine map, section 5.3.2 of FIPS 197. */
  function InvAffine(b: bv8): bv8 {
    b.RotateLeft(1) ^ b.RotateLeft(3) ^ b.RotateLeft(6) ^ 0x05
  }

  // -------------------------------------------------------------- facts about the tables

  // The tables are gone through by quarters; deciding the low bits first keeps the search for each short.

  lemma SboxInverseFirst(x: bv8, s: bv8)
    requires x >> 6 == 0 && s == SboxValue(x)
    ensures SboxInvert(s) == x
  {
    if x & 1 == 0 {
    }
    if x & 2 == 0 {
    }
  }

  lemma SboxInverseSecond(x: bv8, s: bv8)
    requires x >> 6 == 1 && s == SboxValue(x)
    ensures SboxInvert(s) == x
  {
    if x & 1 == 0 {
    }
    if x & 2 == 0 {
    }
  }

  lemma SboxInverseThird(x: bv8, s: bv8)
    requires x >> 6 == 2 && s == SboxValue(x)
    ensures SboxInvert(s) == x
  {
    if x & 1 == 0 {
    }
    if x & 2 == 0 {
    }
  }

  lemma SboxInverseFourth(x: bv8, s: bv8)
    requires x >> 6 == 3 && s == SboxValue(x)
    ensures SboxInvert(s) == x
  {
    if x & 1 == 0 {
    }
    if x & 2 == 0 {
    }
  }

  lemma SboxInvertFirst(x: bv8, s: bv8)
    requires x >> 6 == 0 && s == SboxInvert(x)
    ensures SboxValue(s) == x
  {
    if x & 1 == 0 {
    }
    if x & 2 == 0 {
    }
  }

  lemma SboxInvertSecond(x: bv8, s: bv8)
    requires x >> 6 == 1 && s == SboxInvert(x)
    ensures SboxValue(s) == x
  {
    if x & 1 == 0 {
    }
    if x & 2 == 0 {
    }
  }

  lemma SboxInvertThird(x: bv8, s: bv8)
    requires x >> 6 == 2 && s == SboxInvert(x)
    ensures SboxValue(s) == x
  {
    if x & 1 == 0 {
    }
    if x & 2 == 0 {
    }
  }

  lemma SboxInvertFourth(x: bv8, s: bv8)
    requires x >> 6 == 3 && s == SboxInvert(x)
    ensures SboxValue(s) == x
  {
    if x & 1 == 0 {
    }
    if x & 2 == 0 {
    }
  }

  /** The two tables are inverse permutations of the 256 bytes. */
  lemma SboxInverse(x: bv8)
    ensures SboxInvert(SboxValue(x)) == x
    ensures SboxValue(SboxInvert(x)) == x
  {
    hide SboxValue, SboxInvert;
    Quarters(x);
    if x >> 6 == 0 {
      SboxInverseFirst(x, SboxValue(x));
    } else if x >> 6 == 1 {
      SboxInverseSecond(x, SboxValue(x));
    } else if x >> 6 == 2 {
      SboxInverseThird(x, SboxValue(x));
    } else {
      SboxInverseFourth(x, SboxValue(x));
    }
    if x >> 6 == 0 {
      SboxInvertFirst(x, SboxInvert(x));
    } else if x >> 6 == 1 {
      SboxInvertSecond(x, SboxInvert(x));
    } else if x >> 6 == 2 {
      SboxInvertThird(x, SboxInvert(x));
    } else {
      SboxInvertFourth(x, SboxInvert(x));
    }
  }

  lemma Quarters(x: bv8)
    ensures x >> 6 == 0 || x >> 6 == 1 || x >> 6 == 2 || x >> 6 == 3
  {
  }

  lemma SboxFieldInverseFirst(x: bv8, s: bv8)
    requires x >> 6 == 0 && s == SboxValue(x) && x != 0
    ensures GfMul(x, InvAffine(s)) == 1
  {
    if x & 1 == 0 {
    }
    if x & 2 == 0 {
    }
  }

  lemma SboxFieldInverseSecond(x: bv8, s: bv8)
    requires x >> 6 == 1 && s == SboxValue(x)
    ensures GfMul(x, InvAffine(s)) == 1
  {
    if x & 1 == 0 {
    }
    if x & 2 == 0 {
    }
  }

  lemma SboxFieldInverseThird(x: bv8, s: bv8)
    requires x >> 6 == 2 && s == SboxValue(x)
    ensures GfMul(x, InvAffine(s)) == 1
  {
    if x & 1 == 0 {
    }
    if x & 2 == 0 {
    }
  }

  lemma SboxFieldInverseFourth(x: bv8, s: bv8)
    requires x >> 6 == 3 && s == SboxValue(x)
    ensures GfMul(x, InvAffine(s)) == 1
  {
    if x & 1 == 0 {
    }
    if x & 2 == 0 {
    }
  }

  lemma SboxZero()
    ensures InvAffine(SboxValue(0)) == 0
  {
  }

  lemma AffineInverse(b: bv8)
    ensures InvAffine(Affine(b)) == b
    ensures Affine(InvAffine(b)) == b
  {
  }

  /**
   The substitution table is the one of section 5.1.1 of FIPS 197: the affine image of the
   multiplicative inverse in GF(2^8), with zero standing for its own inverse.
   */
  lemma SboxIsAffineInverse(x: bv8)
    ensures var y := InvAffine(SboxValue(x));
            SboxValue(x) == Affine(y) && (if x == 0 then y == 0 else GfMul(x, y) == 1)
  {
    hide Affine, GfMul, InvAffine, SboxValue;
    AffineInverse(SboxValue(x));
    Quarters(x);
    if x == 0 {
      SboxZero();
    } else if x >> 6 == 0 {
      SboxFieldInverseFirst(x, SboxValue(x));
    } else if x >> 6 == 1 {
      SboxFieldInverseSecond(x, SboxValue(x));
    } else if x >> 6 == 2 {
      SboxFieldInverseThird(x, SboxValue(x));
    } else {
      SboxFieldInverseFourth(x, SboxValue(x));
    }
  }

  // -------------------------------------------------------------- facts about products

  lemma GateIsSelect(y: bv8, x: bv8)
    ensures Gate(y, x) == Select(y, x)
  {
  }

  lemma SelectNone(y: bv8, x: bv8)
    requires y < 0x20
    ensures Select(y >> 5, x) == 0 && Select(y >> 6, x) == 0 && Select(y >> 7, x) == 0
  {
  }

  /** The code's product is the field product for every multiplier below {20}. */
  lemma MultiplyIsGfMul(x: bv8, y: bv8)
    requires y < 0x20
    ensures Multiply(x, y) == GfMul(x, y)
  {
    hide Xtime, Select, Gate;
    var x1 := Xtime(x);
    var x2 := Xtime(x1);
    var x3 := Xtime(x2);
    var x4 := Xtime(x3);
    GateIsSelect(y, x);
    GateIsSelect(y >> 1, x1);
    GateIsSelect(y >> 2, x2);
    GateIsSelect(y >> 3, x3);
    GateIsSelect(y >> 4, x4);
    SelectNone(y, Xtime(x4));
    SelectNone(y, Xtime(Xtime(x4)));
    SelectNone(y, Xtime(Xtime(Xtime(x4))));
  }

  lemma AddTwice(x: bv8, k: bv8)
    ensures Add(Add(x, k), k) == x
  {
  }

  lemma XtimeAdd(x: bv8, y: bv8)
    ensures Xtime(Add(x, y)) == Add(Xtime(x), Xtime(y))
  {
  }

  lemma Product23(x: bv8)
    ensures GfMul(x, 0x02) == Xtime(x)
    ensures GfMul(x, 0x03) == Add(x, Xtime(x))
  {
  }

  // Sums named so that proofs can treat them as opaque terms.

  function Sum3(p: bv8, q: bv8, r: bv8): bv8 {
    p ^ q ^ r
  }

  function Sum4(p: bv8, q: bv8, r: bv8, s: bv8): bv8 {
    p ^ q ^ r ^ s
  }

  function Sum5(p: bv8, q: bv8, r: bv8, s: bv8, t: bv8): bv8 {
    p ^ q ^ r ^ s ^ t
  }

  lemma Product9(x: bv8)
    ensures GfMul(x, 0x09) == Add(x, Xtime(Xtime(Xtime(x))))
  {
  }

  lemma ProductB(x: bv8)
    ensures GfMul(x, 0x0b) == Sum3(x, Xtime(x), Xtime(Xtime(Xtime(x))))
  {
  }

  lemma ProductD(x: bv8)
    ensures GfMul(x, 0x0d) == Sum3(x, Xtime(Xtime(x)), Xtime(Xtime(Xtime(x))))
  {
  }

  lemma ProductE(x: bv8)
    ensures GfMul(x, 0x0e) == Sum3(Xtime(x), Xtime(Xtime(x)), Xtime(Xtime(Xtime(x))))
  {
  }

  // -------------------------------------------------------------- the column mix

  /** One output byte of MixColumns, equation (5.6) of FIPS 197; a is the byte of the output's row. */
  function MixByte(a: bv8, b: bv8, c: bv8, d: bv8): bv8 {
    Add(Add(Add(GfMul(a, 0x02), GfMul(b, 0x03)), c), d)
  }

  /** One output byte of InvMixColumns, equation (5.10) of FIPS 197. */
  function UnmixByte(a: bv8, b: bv8, c: bv8, d: bv8): bv8 {
    Sum4(GfMul(a, 0x0e), GfMul(b, 0x0b), GfMul(c, 0x0d), GfMul(d, 0x09))
  }

  lemma XtimeMix(a: bv8, b: bv8, c: bv8, d: bv8)
    ensures Xtime(MixByte(a, b, c, d)) == MixByte(Xtime(a), Xtime(b), Xtime(c), Xtime(d))
  {
    hide Add, Xtime, GfMul;
    XtimeAdd(Add(Add(GfMul(a, 0x02), GfMul(b, 0x03)), c), d);
    XtimeAdd(Add(GfMul(a, 0x02), GfMul(b, 0x03)), c);
    XtimeAdd(GfMul(a, 0x02), GfMul(b, 0x03));
    XtimeAdd(b, Xtime(b));
    Product23(a);
    Product23(b);
    Product23(Xtime(a));
    Product23(Xtime(b));
  }

  lemma MixByteSum(a: bv8, b: bv8, c: bv8, d: bv8)
    ensures MixByte(a, b, c, d) == Sum5(Xtime(a), b, Xtime(b), c, d)
  {
    hide GfMul, Xtime, Add, Sum5;
    Product23(a);
    Product23(b);
    FiveSum(Xtime(a), b, Xtime(b), c, d);
  }

  lemma FiveSum(p: bv8, q: bv8, r: bv8, s: bv8, t: bv8)
    ensures Add(Add(Add(p, Add(q, r)), s), t) == Sum5(p, q, r, s, t)
  {
  }

  /** The code's update of one byte x: y is the byte below it, and tmp the sum of the column. */
  function Shortcut(x: bv8, y: bv8, tmp: bv8): bv8 {
    var tm := Xtime(x ^ y);
    x ^ (tm ^ tmp)
  }

  lemma ShortcutSum(a: bv8, a1: bv8, b: bv8, b1: bv8, c: bv8, d: bv8, x: bv8)
    requires x == Add(a1, b1)
    ensures a ^ (x ^ Sum4(a, b, c, d)) == Sum5(a1, b, b1, c, d)
  {
  }

  lemma ShortcutUnfold(a: bv8, b: bv8, x: bv8, tmp: bv8)
    requires x == Xtime(Add(a, b))
    ensures Shortcut(a, b, tmp) == a ^ (x ^ tmp)
  {
    hide Xtime;
  }

  /** The shortcut computes the output byte of MixColumns. */
  lemma MixShortcut(a: bv8, b: bv8, c: bv8, d: bv8)
    ensures Shortcut(a, b, Sum4(a, b, c, d)) == MixByte(a, b, c, d)
  {
    hide Xtime, GfMul, Add, Sum4, Sum5, MixByte, Shortcut;
    MixByteSum(a, b, c, d);
    XtimeAdd(a, b);
    ShortcutUnfold(a, b, Xtime(Add(a, b)), Sum4(a, b, c, d));
    ShortcutSum(a, Xtime(a), b, Xtime(b), c, d, Xtime(Add(a, b)));
  }

  lemma SumRotate(a: bv8, b: bv8, c: bv8, d: bv8)
    ensures Sum4(a, b, c, d) == Sum4(b, c, d, a)
  {
  }

  // The next lemmas are exclusive-or cancellations over independent bytes.

  lemma CancelCubes(a3: bv8, a4: bv8, b3: bv8, b4: bv8, c3: bv8, c4: bv8, d3: bv8, d4: bv8,
                    m0: bv8, m1: bv8, m2: bv8, m3: bv8)
    requires m0 == Sum5(a4, b3, b4, c3, d3)
    requires m1 == Sum5(b4, c3, c4, d3, a3)
    requires m2 == Sum5(c4, d3, d4, a3, b3)
    requires m3 == Sum5(d4, a3, a4, b3, c3)
    ensures Sum4(m0, m1, m2, m3) == Sum4(a3, b3, c3, d3)
  {
  }

  lemma CancelSquares(a2: bv8, a3: bv8, b2: bv8, b3: bv8, c2: bv8, c3: bv8, d2: bv8, d3: bv8, m0: bv8, m2: bv8)
    requires m0 == Sum5(a3, b2, b3, c2, d2)
    requires m2 == Sum5(c3, d2, d3, a2, b2)
    ensures Add(m0, m2) == Sum3(Sum4(a3, b3, c3, d3), a2, c2)
  {
  }

  lemma CancelDoubles(a1: bv8, a2: bv8, b1: bv8, b2: bv8, c1: bv8, c2: bv8, d1: bv8, m0: bv8, m1: bv8)
    requires m0 == Sum5(a2, b1, b2, c1, d1)
    requires m1 == Sum5(b2, c1, c2, d1, a1)
    ensures Add(m0, m1) == Sum4(a2, c2, a1, b1)
  {
  }

  lemma CancelSingles(a: bv8, a1: bv8, b: bv8, b1: bv8, c: bv8, c1: bv8, d: bv8, d1: bv8,
                      m1: bv8, m2: bv8, m3: bv8)
    requires m1 == Sum5(b1, c, c1, d, a)
    requires m2 == Sum5(c1, d, d1, a, b)
    requires m3 == Sum5(d1, a, a1, b, c)
    ensures Sum3(m1, m2, m3) == Sum3(a, a1, b1)
  {
  }

  lemma RegroupLeft(m1: bv8, x0: bv8, x1: bv8, xx0: bv8, xxx0: bv8, xxx1: bv8, p: bv8, q: bv8, g1: bv8, t: bv8)
    requires p == Sum3(x0, xx0, xxx0)
    requires q == Sum3(m1, x1, xxx1)
    requires g1 == Add(x0, x1)
    requires t == Add(xxx0, xxx1)
    ensures Add(p, q) == Sum4(g1, xx0, t, m1)
  {
  }

  lemma RegroupRight(m2: bv8, m3: bv8, xx2: bv8, xxx2: bv8, xxx3: bv8, r: bv8, s: bv8, u: bv8, v: bv8)
    requires r == Sum3(m2, xx2, xxx2)
    requires s == Add(m3, xxx3)
    requires u == Add(xxx2, xxx3)
    requires v == Add(m2, m3)
    ensures Add(r, s) == Sum3(xx2, u, v)
  {
  }

  lemma RegroupHalves(m1: bv8, xx0: bv8, xx2: bv8, g1: bv8, g2: bv8, t: bv8, u: bv8, v: bv8, left: bv8, right: bv8)
    requires left == Sum4(g1, xx0, t, m1)
    requires right == Sum3(xx2, u, v)
    requires g2 == Add(xx0, xx2)
    ensures Add(left, right) == Sum4(Add(t, u), g2, g1, Add(m1, v))
  {
  }

  lemma SumHalves(p: bv8, q: bv8, r: bv8, s: bv8)
    ensures Sum4(p, q, r, s) == Add(Add(p, q), Add(r, s))
    ensures Sum3(p, q, r) == Add(p, Add(q, r))
  {
  }

  lemma CancelGroups(a: bv8, a1: bv8, a2: bv8, a3: bv8, b1: bv8, b3: bv8, c2: bv8, c3: bv8, d3: bv8,
                     g0: bv8, g1: bv8, g2: bv8, g3: bv8)
    requires g3 == Sum4(a3, b3, c3, d3)
    requires g2 == Sum3(g3, a2, c2)
    requires g1 == Sum4(a2, c2, a1, b1)
    requires g0 == Sum3(a, a1, b1)
    ensures Sum4(g3, g2, g1, g0) == a
  {
  }

  /** The matrix of InvMixColumns times the matrix of MixColumns is the identity. */
  lemma UnmixMix(a: bv8, b: bv8, c: bv8, d: bv8)
    ensures UnmixByte(MixByte(a, b, c, d), MixByte(b, c, d, a), MixByte(c, d, a, b), MixByte(d, a, b, c)) == a
  {
    hide Add, Sum3, Sum4, Sum5, GfMul, Xtime, MixByte;
    var a1, b1, c1, d1 := Xtime(a), Xtime(b), Xtime(c), Xtime(d);
    var a2, b2, c2, d2 := Xtime(a1), Xtime(b1), Xtime(c1), Xtime(d1);
    var a3, b3, c3, d3 := Xtime(a2), Xtime(b2), Xtime(c2), Xtime(d2);
    var m0, m1 := MixByte(a, b, c, d), MixByte(b, c, d, a);
    var m2, m3 := MixByte(c, d, a, b), MixByte(d, a, b, c);
    MixPowers(a, b, c, d);
    MixPowers(b, c, d, a);
    MixPowers(c, d, a, b);
    MixPowers(d, a, b, c);
    var x0, x1, xx0, xx2 := Xtime(m0), Xtime(m1), Xtime(Xtime(m0)), Xtime(Xtime(m2));
    var xxx0, xxx1 := Xtime(xx0), Xtime(Xtime(x1));
    var xxx2, xxx3 := Xtime(xx2), Xtime(Xtime(Xtime(m3)));
    CancelSingles(a, a1, b, b1, c, c1, d, d1, m1, m2, m3);
    CancelDoubles(a1, a2, b1, b2, c1, c2, d1, x0, x1);
    CancelSquares(a2, a3, b2, b3, c2, c3, d2, d3, xx0, xx2);
    CancelCubes(a3, Xtime(a3), b3, Xtime(b3), c3, Xtime(c3), d3, Xtime(d3), xxx0, xxx1, xxx2, xxx3);
    ProductE(m0);
    ProductB(m1);
    ProductD(m2);
    Product9(m3);
    var g0, g1, g2, g3 := Sum3(m1, m2, m3), Add(x0, x1), Add(xx0, xx2), Sum4(xxx0, xxx1, xxx2, xxx3);
    var p, q, r, s := GfMul(m0, 0x0e), GfMul(m1, 0x0b), GfMul(m2, 0x0d), GfMul(m3, 0x09);
    var t, u, v := Add(xxx0, xxx1), Add(xxx2, xxx3), Add(m2, m3);
    RegroupLeft(m1, x0, x1, xx0, xxx0, xxx1, p, q, g1, t);
    RegroupRight(m2, m3, xx2, xxx2, xxx3, r, s, u, v);
    RegroupHalves(m1, xx0, xx2, g1, g2, t, u, v, Add(p, q), Add(r, s));
    SumHalves(p, q, r, s);
    SumHalves(xxx0, xxx1, xxx2, xxx3);
    SumHalves(m1, m2, m3, m3);
    CancelGroups(a, a1, a2, a3, b1, b3, c2, c3, d3, g0, g1, g2, g3);
  }

  /** {02}, {02}^2 and {02}^3 times a mixed byte, as sums of multiples of the column's bytes. */
  lemma MixPowers(a: bv8, b: bv8, c: bv8, d: bv8)
    ensures var m := MixByte(a, b, c, d);
            var a1, b1, c1, d1 := Xtime(a), Xtime(b), Xtime(c), Xtime(d);
            var a2, b2, c2, d2 := Xtime(a1), Xtime(b1), Xtime(c1), Xtime(d1);
            var a3, b3, c3, d3 := Xtime(a2), Xtime(b2), Xtime(c2), Xtime(d2);
            && m == Sum5(a1, b, b1, c, d)
            && Xtime(m) == Sum5(a2, b1, b2, c1, d1)
            && Xtime(Xtime(m)) == Sum5(a3, b2, b3, c2, d2)
            && Xtime(Xtime(Xtime(m))) == Sum5(Xtime(a3), b3, Xtime(b3), c3, d3)
  {
    hide Add, Sum3, Sum4, Sum5, GfMul, Xtime, MixByte;
    var a1, b1, c1, d1 := Xtime(a), Xtime(b), Xtime(c), Xtime(d);
    var a2, b2, c2, d2 := Xtime(a1), Xtime(b1), Xtime(c1), Xtime(d1);
    XtimeMix(a, b, c, d);
    XtimeMix(a1, b1, c1, d1);
    XtimeMix(a2, b2, c2, d2);
    MixByteSum(a, b, c, d);
    MixByteSum(a1, b1, c1, d1);
    MixByteSum(a2, b2, c2, d2);
    MixByteSum(Xtime(a2), Xtime(b2), Xtime(c2), Xtime(d2));
  }

  // -------------------------------------------------------------- mixing four times

  lemma JoinGroups(x0: bv8, m1: bv8, x1: bv8, m2: bv8, m3: bv8, g1: bv8, g0: bv8)
    requires g1 == Add(x0, x1) && g0 == Sum3(m1, m2, m3)
    ensures Sum5(x0, m1, x1, m2, m3) == Add(g1, g0)
  {
  }

  lemma CancelTwice(a: bv8, a1: bv8, a2: bv8, b1: bv8, c2: bv8, g1: bv8, g0: bv8)
    requires g1 == Sum4(a2, c2, a1, b1) && g0 == Sum3(a, a1, b1)
    ensures Add(g1, g0) == Sum3(a, a2, c2)
  {
  }

  /** The square of the matrix of MixColumns has the rows {05}, {00}, {04}, {00}. */
  lemma MixTwice(a: bv8, b: bv8, c: bv8, d: bv8)
    ensures MixByte(MixByte(a, b, c, d), MixByte(b, c, d, a), MixByte(c, d, a, b), MixByte(d, a, b, c))
         == Sum3(a, Xtime(Xtime(a)), Xtime(Xtime(c)))
  {
    hide Add, Sum3, Sum4, Sum5, GfMul, Xtime, MixByte;
    var a1, b1, c1, d1 := Xtime(a), Xtime(b), Xtime(c), Xtime(d);
    var a2, b2, c2 := Xtime(a1), Xtime(b1), Xtime(c1);
    var m0, m1 := MixByte(a, b, c, d), MixByte(b, c, d, a);
    var m2, m3 := MixByte(c, d, a, b), MixByte(d, a, b, c);
    MixPowers(a, b, c, d);
    MixPowers(b, c, d, a);
    MixPowers(c, d, a, b);
    MixPowers(d, a, b, c);
    MixByteSum(m0, m1, m2, m3);
    CancelSingles(a, a1, b, b1, c, c1, d, d1, m1, m2, m3);
    CancelDoubles(a1, a2, b1, b2, c1, c2, d1, Xtime(m0), Xtime(m1));
    JoinGroups(Xtime(m0), m1, Xtime(m1), m2, m3, Add(Xtime(m0), Xtime(m1)), Sum3(m1, m2, m3));
    CancelTwice(a, a1, a2, b1, c2, Add(Xtime(m0), Xtime(m1)), Sum3(m1, m2, m3));
  }

  lemma XtimeSum3(a: bv8, b: bv8, c: bv8)
    ensures Xtime(Sum3(a, b, c)) == Sum3(Xtime(a), Xtime(b), Xtime(c))
  {
    hide Xtime, Add, Sum3;
    SumHalves(a, b, c, c);
    SumHalves(Xtime(a), Xtime(b), Xtime(c), Xtime(c));
    XtimeAdd(a, Add(b, c));
    XtimeAdd(b, c);
  }

  lemma CancelFour(a: bv8, a2: bv8, a4: bv8, c: bv8, c2: bv8, c4: bv8)
    ensures Sum3(Sum3(a, a2, c2), Sum3(a2, a4, c4), Sum3(c2, c4, a4)) == a
  {
  }

  /** The fourth power is the identity. */
  lemma MixFourTimes(a: bv8, c: bv8)
    ensures var y, z := Sum3(a, Xtime(Xtime(a)), Xtime(Xtime(c))), Sum3(c, Xtime(Xtime(c)), Xtime(Xtime(a)));
            Sum3(y, Xtime(Xtime(y)), Xtime(Xtime(z))) == a
  {
    hide Xtime, Add, Sum3;
    var a2, c2 := Xtime(Xtime(a)), Xtime(Xtime(c));
    XtimeSum3(a, a2, c2);
    XtimeSum3(Xtime(a), Xtime(a2), Xtime(c2));
    XtimeSum3(c, c2, a2);
    XtimeSum3(Xtime(c), Xtime(c2), Xtime(a2));
    CancelFour(a, a2, Xtime(Xtime(a2)), c, c2, Xtime(Xtime(c2)));
  }
}
