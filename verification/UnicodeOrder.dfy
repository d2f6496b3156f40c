/**
 Both encodings keep the order of the code points. Since each has as many sequences as there are code points, there is only one
 way to number the sequences of the table of RFC 3629, or the pairs of surrogates, that does.
 */
module UnicodeOrder {
  import opened Unicode

  // The comparisons have names, so that they can be reasoned about without their bits.

  predicate Lower(x: bv32, y: bv32) {
    x < y
  }

  predicate Lower8(x: bv8, y: bv8) {
    x < y
  }

  predicate Lower16(x: bv16, y: bv16) {
    x < y
  }

  /** Lexicographic order of byte strings. */
  predicate Before(a: seq<bv8>, b: seq<bv8>) {
    b != [] && (a == [] || Lower8(a[0], b[0]) || (!Lower8(b[0], a[0]) && Before(a[1..], b[1..])))
  }

  lemma BeforeNext(x: bv8, a: seq<bv8>, y: bv8, b: seq<bv8>)
    ensures Before([x] + a, [y] + b) <==> Lower8(x, y) || (!Lower8(y, x) && Before(a, b))
  {
    hide Lower8;
    assert ([x] + a)[1..] == a && ([y] + b)[1..] == b;
  }

  lemma Asymmetric(c: bv32, d: bv32)
    ensures Lower(c, d) ==> !Lower(d, c)
  {
  }

  // -------------------------------------------------------------- six bits at a time

  lemma FrontWeak(c: bv32, d: bv32)
    ensures Lower(Front(d), Front(c)) ==> Lower(d, c)
  {
  }

  lemma LastWeak(c: bv32, d: bv32)
    requires !(Front(c) < Front(d)) && c & 0x3F > d & 0x3F
    ensures c > d
  {
  }

  lemma LastStrict(c: bv32, d: bv32)
    requires !(Front(c) < Front(d)) && c < d
    ensures c & 0x3F < d & 0x3F
  {
  }

  lemma LastBits(x: bv32, y: bv32)
    requires x < 0x40 && y < 0x40
    ensures Lower8((x | 0x80) as bv8, (y | 0x80) as bv8) <==> x < y
  {
  }

  lemma LastIs(c: bv32, d: bv32)
    ensures Lower8(Last(c), Last(d)) <==> c & 0x3F < d & 0x3F
  {
    SixBits(c);
    SixBits(d);
    LastBits(c & 0x3F, d & 0x3F);
  }

  lemma SixBits(c: bv32)
    ensures c & 0x3F < 0x40
  {
  }

  /** The last six bits decide where the others do not. */
  lemma FrontOrdered(c: bv32, d: bv32)
    requires !Lower(d, c)
    ensures !Lower(Front(d), Front(c))
    ensures Lower(Front(c), Front(d)) || !Lower8(Last(d), Last(c))
    ensures Lower(c, d) ==> Lower(Front(c), Front(d)) || Lower8(Last(c), Last(d))
  {
    FrontWeak(c, d);
    if !(Front(c) < Front(d)) {
      LastIs(c, d);
      LastIs(d, c);
      if c & 0x3F > d & 0x3F {
        LastWeak(c, d);
      }
      if c < d {
        LastStrict(c, d);
      }
    }
    hide Front, Last, Lower8;
  }

  lemma Lead2Strict(x: bv32, y: bv32)
    requires x < 0x20 && y < 0x20
    ensures Lower8(Lead2(x), Lead2(y)) <==> Lower(x, y)
  {
  }

  lemma Lead3Strict(x: bv32, y: bv32)
    requires x < 0x10 && y < 0x10
    ensures Lower8(Lead3(x), Lead3(y)) <==> Lower(x, y)
  {
  }

  lemma Lead4Strict(x: bv32, y: bv32)
    requires x < 8 && y < 8
    ensures Lower8(Lead4(x), Lead4(y)) <==> Lower(x, y)
  {
  }

  lemma Lead2Is(c: bv32, d: bv32)
    requires c < 0x800 && d < 0x800
    ensures Lower8(Lead2(Front(c)), Lead2(Front(d))) <==> Lower(Front(c), Front(d))
  {
    Lead2Strict(Front(c), Front(d));
    hide Lead2, Lower, Lower8;
  }

  lemma Lead3Is(c: bv32, d: bv32)
    requires c < 0x1_0000 && d < 0x1_0000
    ensures Lower8(Lead3(Front(Front(c))), Lead3(Front(Front(d)))) <==> Lower(Front(Front(c)), Front(Front(d)))
  {
    Lead3Strict(Front(Front(c)), Front(Front(d)));
    hide Lead3, Lower, Lower8;
  }

  lemma Lead4Is(c: bv32, d: bv32)
    requires c <= 0x10_FFFF && d <= 0x10_FFFF
    ensures Lower8(Lead4(Front(Front(Front(c)))), Lead4(Front(Front(Front(d))))) <==> Lower(Front(Front(Front(c))), Front(Front(Front(d))))
  {
    Lead4Strict(Front(Front(Front(c))), Front(Front(Front(d))));
    hide Lead4, Lower, Lower8;
  }

  // -------------------------------------------------------------- UTF-8

  function Tail1(c: bv32): seq<bv8> {
    [Last(c)] + []
  }

  function Tail2(c: bv32): seq<bv8> {
    [Last(Front(c))] + Tail1(c)
  }

  function Tail3(c: bv32): seq<bv8> {
    [Last(Front(Front(c)))] + Tail2(c)
  }

  /** The bytes of an encoding but for the first, where the bits of that do not decide. */
  lemma TailsOrdered(c: bv32, d: bv32)
    requires Lower(c, d)
    ensures Lower(Front(c), Front(d)) || Before(Tail1(c), Tail1(d))
    ensures Lower(Front(Front(c)), Front(Front(d))) || Before(Tail2(c), Tail2(d))
    ensures Lower(Front(Front(Front(c))), Front(Front(Front(d)))) || Before(Tail3(c), Tail3(d))
    ensures !Lower(Front(d), Front(c)) && !Lower(Front(Front(d)), Front(Front(c))) && !Lower(Front(Front(Front(d))), Front(Front(Front(c))))
  {
    hide Lower, Lower8, Front, Last, Before;
    Asymmetric(c, d);
    FrontOrdered(c, d);
    FrontOrdered(Front(c), Front(d));
    FrontOrdered(Front(Front(c)), Front(Front(d)));
    BeforeNext(Last(c), [], Last(d), []);
    BeforeNext(Last(Front(c)), Tail1(c), Last(Front(d)), Tail1(d));
    BeforeNext(Last(Front(Front(c))), Tail2(c), Last(Front(Front(d))), Tail2(d));
  }

  /** The first byte tells how long the encoding is, longer ones coming later. */
  lemma LongerLater(c: bv32, d: bv32)
    ensures c < d < 0x80 ==> Lower8(c as bv8, d as bv8)
    ensures c < 0x80 <= d < 0x800 ==> Lower8(c as bv8, Lead2(Front(d)))
    ensures c < 0x80 && 0x800 <= d < 0x1_0000 ==> Lower8(c as bv8, Lead3(Front(Front(d))))
    ensures c < 0x80 && 0x1_0000 <= d <= 0x10_FFFF ==> Lower8(c as bv8, Lead4(Front(Front(Front(d)))))
    ensures 0x80 <= c < 0x800 <= d < 0x1_0000 ==> Lower8(Lead2(Front(c)), Lead3(Front(Front(d))))
    ensures 0x80 <= c < 0x800 && 0x1_0000 <= d <= 0x10_FFFF ==> Lower8(Lead2(Front(c)), Lead4(Front(Front(Front(d)))))
    ensures 0x800 <= c < 0x1_0000 <= d <= 0x10_FFFF ==> Lower8(Lead3(Front(Front(c))), Lead4(Front(Front(Front(d)))))
  {
  }

  lemma EncodingIs(c: bv32)
    requires Scalar(c)
    ensures c < 0x80 ==> Encode(c) == [c as bv8] + []
    ensures 0x80 <= c < 0x800 ==> Encode(c) == [Lead2(Front(c))] + Tail1(c)
    ensures 0x800 <= c < 0x1_0000 ==> Encode(c) == [Lead3(Front(Front(c)))] + Tail2(c)
    ensures 0x1_0000 <= c ==> Encode(c) == [Lead4(Front(Front(Front(c))))] + Tail3(c)
  {
    hide Front, Last, Lead2, Lead3, Lead4;
  }

  lemma TwoOrdered(c: bv32, d: bv32)
    requires Lower(c, d) && c < 0x800 && d < 0x800
    ensures Before([Lead2(Front(c))] + Tail1(c), [Lead2(Front(d))] + Tail1(d))
  {
    hide Lower, Lower8, Front, Last, Before, Lead2, Tail1;
    TailsOrdered(c, d);
    Lead2Is(c, d);
    Lead2Is(d, c);
    BeforeNext(Lead2(Front(c)), Tail1(c), Lead2(Front(d)), Tail1(d));
  }

  lemma ThreeOrdered(c: bv32, d: bv32)
    requires Lower(c, d) && c < 0x1_0000 && d < 0x1_0000
    ensures Before([Lead3(Front(Front(c)))] + Tail2(c), [Lead3(Front(Front(d)))] + Tail2(d))
  {
    hide Lower, Lower8, Front, Last, Before, Lead3, Tail2;
    TailsOrdered(c, d);
    Lead3Is(c, d);
    Lead3Is(d, c);
    BeforeNext(Lead3(Front(Front(c))), Tail2(c), Lead3(Front(Front(d))), Tail2(d));
  }

  lemma FourOrdered(c: bv32, d: bv32)
    requires Lower(c, d) && c <= 0x10_FFFF && d <= 0x10_FFFF
    ensures Before([Lead4(Front(Front(Front(c))))] + Tail3(c), [Lead4(Front(Front(Front(d))))] + Tail3(d))
  {
    hide Lower, Lower8, Front, Last, Before, Lead4, Tail3;
    TailsOrdered(c, d);
    Lead4Is(c, d);
    Lead4Is(d, c);
    BeforeNext(Lead4(Front(Front(Front(c)))), Tail3(c), Lead4(Front(Front(Front(d)))), Tail3(d));
  }

  lemma LongerBefore(c: bv32, d: bv32)
    requires Scalar(c) && Scalar(d) && c < d
    requires c < 0x80 || (c < 0x800 <= d) || (c < 0x1_0000 <= d)
    ensures Before(Encode(c), Encode(d))
  {
    hide Front, Last, Lead2, Lead3, Lead4, Lower8, Encode;
    LongerLater(c, d);
    EncodingIs(c);
    EncodingIs(d);
  }

  /** Byte strings are ordered as the code points that they encode (section 1 of RFC 3629). */
  lemma EncodeOrdered(c: bv32, d: bv32)
    requires Scalar(c) && Scalar(d) && c < d
    ensures Before(Encode(c), Encode(d))
  {
    hide Front, Last, Lead2, Lead3, Lead4, Tail1, Tail2, Tail3, Before, Encode;
    if c < 0x80 || (c < 0x800 <= d) || (c < 0x1_0000 <= d) {
      LongerBefore(c, d);
      return;
    }
    EncodingIs(c);
    EncodingIs(d);
    if d < 0x800 {
      TwoOrdered(c, d);
    } else if d < 0x1_0000 {
      ThreeOrdered(c, d);
    } else {
      FourOrdered(c, d);
    }
  }

  // -------------------------------------------------------------- UTF-16

  lemma HighWeak(c: bv32, d: bv32)
    ensures Lower(High(d), High(c)) ==> Lower(d, c)
  {
  }

  lemma LowStrict(c: bv32, d: bv32)
    ensures Lower(c, d) ==> Lower(High(c), High(d)) || Lower(Low(c), Low(d))
  {
  }

  lemma LeadStrict(x: bv32, y: bv32)
    requires x < 0x400 && y < 0x400
    ensures Lower16(LeadUnit(x), LeadUnit(y)) <==> Lower(x, y)
  {
  }

  lemma TrailStrict(x: bv32, y: bv32)
    requires x < 0x400 && y < 0x400
    ensures Lower16(TrailUnit(x), TrailUnit(y)) <==> Lower(x, y)
  {
  }

  lemma OffsetsOrdered(c: bv32, d: bv32)
    requires c >= 0x1_0000 && c < d && d <= 0x10_FFFF
    ensures Lower(Offset(c), Offset(d)) && Offset(d) < 0x10_0000 && Offset(c) < 0x10_0000
  {
  }

  /** Pairs of surrogates are ordered too; a unit alone is the code point itself. */
  lemma Encode16Ordered(c: bv32, d: bv32)
    requires Scalar(c) && Scalar(d) && c < d
    ensures c < 0x1_0000 ==> |Encode16(c)| == 1 && Encode16(c)[0] as bv32 == c
    ensures c >= 0x1_0000 && d >= 0x1_0000 ==> var a, b := Encode16(c), Encode16(d);
      |a| == |b| == 2 && (Lower16(a[0], b[0]) || (!Lower16(b[0], a[0]) && Lower16(a[1], b[1])))
  {
    hide LeadOf, TrailOf, Lower16;
    if c < 0x1_0000 {
      Narrowed(c);
    } else if d >= 0x1_0000 {
      PairsOrdered(c, d);
    }
  }

  lemma Narrowed(c: bv32)
    requires c < 0x1_0000
    ensures (c as bv16) as bv32 == c
  {
  }

  lemma HighOrdered(c: bv32, d: bv32)
    requires Lower(c, d)
    ensures !Lower(High(d), High(c)) && (Lower(High(c), High(d)) || Lower(Low(c), Low(d)))
  {
    hide High, Low, Lower;
    HighWeak(c, d);
    LowStrict(c, d);
    Asymmetric(c, d);
  }

  lemma PairsOrdered(c: bv32, d: bv32)
    requires c >= 0x1_0000 && c < d && d <= 0x10_FFFF && c <= 0x10_FFFF && d >= 0x1_0000
    ensures Lower16(LeadOf(c), LeadOf(d)) || (!Lower16(LeadOf(d), LeadOf(c)) && Lower16(TrailOf(c), TrailOf(d)))
  {
    hide Offset, High, Low, LeadUnit, TrailUnit, Lower, Lower16;
    OffsetsOrdered(c, d);
    HighOrdered(Offset(c), Offset(d));
    Halves(Offset(c));
    Halves(Offset(d));
    LeadStrict(High(Offset(c)), High(Offset(d)));
    LeadStrict(High(Offset(d)), High(Offset(c)));
    TrailStrict(Low(Offset(c)), Low(Offset(d)));
  }
}
