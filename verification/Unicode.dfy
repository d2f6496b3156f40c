/** UTF-8 and UTF-16 as RFC 3629 and RFC 2781 define them, on values. */
module Unicode {

  const INVALID: bv32 := 0xFFFF_FFFF

  /** Code points that can be encoded: no surrogates, nothing above 10FFFF. */
  predicate Scalar(c: bv32) {
    c < 0xD800 || 0xDFFF < c <= 0x10_FFFF
  }

  // -------------------------------------------------------------- RFC 3629, section 4: well-formed sequences

  predicate Tail(b: bv8) {
    0x80 <= b <= 0xBF
  }

  predicate Utf8Two(a: bv8, b: bv8) {
    0xC2 <= a <= 0xDF && Tail(b)
  }

  predicate Utf8Three(a: bv8, b: bv8, c: bv8) {
    && Tail(c)
    && ((a == 0xE0 && 0xA0 <= b <= 0xBF) || (0xE1 <= a <= 0xEC && Tail(b)) || (a == 0xED && 0x80 <= b <= 0x9F) || (0xEE <= a <= 0xEF && Tail(b)))
  }

  predicate Utf8Four(a: bv8, b: bv8, c: bv8, d: bv8) {
    && Tail(c) && Tail(d)
    && ((a == 0xF0 && 0x90 <= b <= 0xBF) || (0xF1 <= a <= 0xF3 && Tail(b)) || (a == 0xF4 && 0x80 <= b <= 0x8F))
  }

  // -------------------------------------------------------------- RFC 3629, section 3: code points and bytes

  /** A code point without its last six bits, and with six more bits. */
  function Front(c: bv32): bv32 {
    c >> 6
  }

  function More(c: bv32, next: bv8): bv32 {
    (c << 6) | ((next as bv32) & 0x3F)
  }

  /** A byte with the last six bits of a code point. */
  function Last(c: bv32): bv8 {
    ((c & 0x3F) | 0x80) as bv8
  }

  predicate IsTail(b: bv8) {
    (b & 0xC0) == 0x80
  }

  predicate IsLead2(a: bv8) {
    (a & 0xE0) == 0xC0
  }

  predicate IsLead3(a: bv8) {
    (a & 0xF0) == 0xE0
  }

  predicate IsLead4(a: bv8) {
    (a & 0xF8) == 0xF0
  }

  function Bits5(a: bv8): bv32 {
    (a as bv32) & 0x1F
  }

  function Bits4(a: bv8): bv32 {
    (a as bv32) & 0x0F
  }

  function Bits3(a: bv8): bv32 {
    (a as bv32) & 0x07
  }

  function Lead2(x: bv32): bv8 {
    ((x & 0x1F) | 0xC0) as bv8
  }

  function Lead3(x: bv32): bv8 {
    ((x & 0x0F) | 0xE0) as bv8
  }

  function Lead4(x: bv32): bv8 {
    ((x & 0x07) | 0xF0) as bv8
  }

  function Two(a: bv8, b: bv8): bv32 {
    More(Bits5(a), b)
  }

  function Three(a: bv8, b: bv8, c: bv8): bv32 {
    More(More(Bits4(a), b), c)
  }

  function Four(a: bv8, b: bv8, c: bv8, d: bv8): bv32 {
    More(More(More(Bits3(a), b), c), d)
  }

  function Encode(c: bv32): seq<bv8>
    requires Scalar(c)
  {
    if c < 0x80 then [c as bv8]
    else if c < 0x800 then [Lead2(Front(c)), Last(c)]
    else if c < 0x1_0000 then [Lead3(Front(Front(c))), Last(Front(c)), Last(c)]
    else [Lead4(Front(Front(Front(c)))), Last(Front(Front(c))), Last(Front(c)), Last(c)]
  }

  // -------------------------------------------------------------- the checks of the decoder are the table of section 4

  lemma TwoAccepted(a: bv8, b: bv8)
    requires IsLead2(a)
    ensures Utf8Two(a, b) <==> IsTail(b) && Two(a, b) >= 0x80
    ensures Two(a, b) < 0x800
  {
  }

  lemma ThreeAccepted(a: bv8, b: bv8, c: bv8)
    requires IsLead3(a)
    ensures Utf8Three(a, b, c) <==> IsTail(b) && IsTail(c) && Three(a, b, c) >= 0x800 && Scalar(Three(a, b, c))
    ensures Three(a, b, c) < 0x1_0000
  {
  }

  lemma FourAccepted(a: bv8, b: bv8, c: bv8, d: bv8)
    requires IsLead4(a)
    ensures Utf8Four(a, b, c, d) <==>
      IsTail(b) && IsTail(c) && IsTail(d) && Four(a, b, c, d) >= 0x1_0000 && Four(a, b, c, d) <= 0x10_FFFF
  {
  }

  lemma Accepted(a: bv8, b: bv8, c: bv8, d: bv8)
    ensures Utf8Two(a, b) ==> IsLead2(a)
    ensures Utf8Three(a, b, c) ==> IsLead3(a)
    ensures Utf8Four(a, b, c, d) ==> IsLead4(a)
  {
  }

  // -------------------------------------------------------------- six bits at a time

  lemma LastIsTail(c: bv32)
    ensures IsTail(Last(c))
  {
  }

  lemma MoreLast(c: bv32)
    ensures More(Front(c), Last(c)) == c
  {
    LastBits(c);
    JoinSix(c);
    hide Last;
  }

  lemma LastBits(c: bv32)
    ensures (Last(c) as bv32) & 0x3F == c & 0x3F
  {
  }

  lemma JoinSix(c: bv32)
    ensures ((c >> 6) << 6) | (c & 0x3F) == c
  {
  }

  lemma LastMore(x: bv32, b: bv8)
    requires IsTail(b) && x < 0x400_0000
    ensures Last(More(x, b)) == b && Front(More(x, b)) == x
  {
  }

  lemma Limits(x: bv32, b: bv8)
    ensures x < 0x20 ==> More(x, b) < 0x800
    ensures x < 0x400 ==> More(x, b) < 0x1_0000
    ensures x < 0x8000 ==> More(x, b) < 0x20_0000
  {
  }

  lemma Fronts(c: bv32)
    ensures c < 0x800 ==> Front(c) < 0x20
    ensures c < 0x1_0000 ==> Front(c) < 0x400
    ensures c < 0x20_0000 ==> Front(c) < 0x8000
  {
  }

  lemma Fronts4(c: bv32)
    ensures c < 0x400 ==> Front(c) < 0x10
    ensures c < 0x8000 ==> Front(c) < 0x200
    ensures c < 0x200 ==> Front(c) < 0x08
  {
  }

  lemma LeadBits(x: bv32)
    ensures IsLead2(Lead2(x)) && (x < 0x20 ==> Bits5(Lead2(x)) == x)
    ensures IsLead3(Lead3(x)) && (x < 0x10 ==> Bits4(Lead3(x)) == x)
    ensures IsLead4(Lead4(x)) && (x < 0x08 ==> Bits3(Lead4(x)) == x)
  {
  }

  lemma BitsLead(a: bv8)
    ensures IsLead2(a) ==> Lead2(Bits5(a)) == a
    ensures IsLead3(a) ==> Lead3(Bits4(a)) == a
    ensures IsLead4(a) ==> Lead4(Bits3(a)) == a
    ensures Bits5(a) < 0x20 && Bits4(a) < 0x10 && Bits3(a) < 0x08
  {
  }

  /** The encoding of a code point is one of the sequences of section 4, and stands for it. */
  lemma EncodedTwo(c: bv32)
    requires 0x80 <= c < 0x800
    ensures Utf8Two(Lead2(Front(c)), Last(c)) && Two(Lead2(Front(c)), Last(c)) == c
  {
    hide More, Last, Front, Lead2, Bits5, Utf8Two, IsLead2, IsTail, Lead3, Lead4, Bits4, Bits3, IsLead3, IsLead4;
    Fronts(c);
    LeadBits(Front(c));
    LastIsTail(c);
    MoreLast(c);
    TwoAccepted(Lead2(Front(c)), Last(c));
  }

  lemma EncodedThree(c: bv32)
    requires 0x800 <= c < 0x1_0000 && Scalar(c)
    ensures Utf8Three(Lead3(Front(Front(c))), Last(Front(c)), Last(c))
    ensures Three(Lead3(Front(Front(c))), Last(Front(c)), Last(c)) == c
  {
    hide More, Last, Front, Lead2, Bits5, Utf8Three, IsLead2, IsTail, Lead3, Lead4, Bits4, Bits3, IsLead3, IsLead4;
    Fronts(c);
    Fronts4(Front(c));
    LeadBits(Front(Front(c)));
    LastIsTail(c);
    LastIsTail(Front(c));
    MoreLast(c);
    MoreLast(Front(c));
    ThreeAccepted(Lead3(Front(Front(c))), Last(Front(c)), Last(c));
  }

  lemma EncodedFour(c: bv32)
    requires 0x1_0000 <= c <= 0x10_FFFF
    ensures Utf8Four(Lead4(Front(Front(Front(c)))), Last(Front(Front(c))), Last(Front(c)), Last(c))
    ensures Four(Lead4(Front(Front(Front(c)))), Last(Front(Front(c))), Last(Front(c)), Last(c)) == c
  {
    hide More, Last, Front, Lead2, Bits5, Utf8Four, IsLead2, IsTail, Lead3, Lead4, Bits4, Bits3, IsLead3, IsLead4;
    Fronts(c);
    Fronts4(Front(c));
    Fronts4(Front(Front(c)));
    LeadBits(Front(Front(Front(c))));
    LastIsTail(c);
    LastIsTail(Front(c));
    LastIsTail(Front(Front(c)));
    MoreLast(c);
    MoreLast(Front(c));
    MoreLast(Front(Front(c)));
    FourAccepted(Lead4(Front(Front(Front(c)))), Last(Front(Front(c))), Last(Front(c)), Last(c));
  }

  /** A sequence of section 4 is the encoding of what it stands for. */
  lemma DecodedTwo(a: bv8, b: bv8)
    requires Utf8Two(a, b)
    ensures var v := Two(a, b); 0x80 <= v < 0x800 && Lead2(Front(v)) == a && Last(v) == b
  {
    hide More, Last, Front, Lead2, Bits5, Utf8Two, IsLead2, IsTail, Lead3, Lead4, Bits4, Bits3, IsLead3, IsLead4;
    Accepted(a, b, b, b);
    TwoAccepted(a, b);
    BitsLead(a);
    LastMore(Bits5(a), b);
  }

  lemma DecodedThree(a: bv8, b: bv8, c: bv8)
    requires Utf8Three(a, b, c)
    ensures var v := Three(a, b, c);
      0x800 <= v < 0x1_0000 && Scalar(v) && Lead3(Front(Front(v))) == a && Last(Front(v)) == b && Last(v) == c
  {
    hide More, Last, Front, Lead2, Bits5, Utf8Three, IsLead2, IsTail, Lead3, Lead4, Bits4, Bits3, IsLead3, IsLead4;
    Accepted(a, b, c, c);
    ThreeAccepted(a, b, c);
    BitsLead(a);
    Limits(Bits4(a), b);
    LastMore(Bits4(a), b);
    LastMore(More(Bits4(a), b), c);
  }

  lemma DecodedFour(a: bv8, b: bv8, c: bv8, d: bv8)
    requires Utf8Four(a, b, c, d)
    ensures var v := Four(a, b, c, d);
      && 0x1_0000 <= v <= 0x10_FFFF && Lead4(Front(Front(Front(v)))) == a && Last(Front(Front(v))) == b
      && Last(Front(v)) == c && Last(v) == d
  {
    hide More, Last, Front, Lead2, Bits5, Utf8Four, IsLead2, IsTail, Lead3, Lead4, Bits4, Bits3, IsLead3, IsLead4;
    Accepted(a, b, c, d);
    FourAccepted(a, b, c, d);
    BitsLead(a);
    Limits(Bits3(a), b);
    Limits(More(Bits3(a), b), c);
    LastMore(Bits3(a), b);
    LastMore(More(Bits3(a), b), c);
    LastMore(More(More(Bits3(a), b), c), d);
  }

  // -------------------------------------------------------------- RFC 2781: UTF-16

  predicate Lead16(u: bv16) {
    0xD800 <= u <= 0xDBFF
  }

  predicate Trail16(u: bv16) {
    0xDC00 <= u <= 0xDFFF
  }

  /** The twenty bits of a code point above FFFF. */
  function Offset(c: bv32): bv32 {
    c - 0x1_0000
  }

  function High(d: bv32): bv32 {
    d >> 10
  }

  function Low(d: bv32): bv32 {
    d & 0x3FF
  }

  function LeadUnit(h: bv32): bv16
    requires h < 0x400
  {
    (0xD800 + h) as bv16
  }

  function TrailUnit(l: bv32): bv16
    requires l < 0x400
  {
    (0xDC00 + l) as bv16
  }

  lemma Halves(d: bv32)
    ensures d < 0x10_0000 ==> High(d) < 0x400
    ensures Low(d) < 0x400 && JoinHalves(High(d), Low(d)) == d
  {
  }

  lemma OffsetOf(c: bv32)
    requires 0x1_0000 <= c <= 0x10_FFFF
    ensures Offset(c) < 0x10_0000 && Above(Offset(c)) == c
  {
  }

  function LeadOf(c: bv32): bv16
    requires 0x1_0000 <= c <= 0x10_FFFF
  {
    OffsetOf(c);
    Halves(Offset(c));
    LeadUnit(High(Offset(c)))
  }

  function TrailOf(c: bv32): bv16 {
    Halves(Offset(c));
    TrailUnit(Low(Offset(c)))
  }

  /** Section 2.1. */
  function Encode16(c: bv32): seq<bv16>
    requires Scalar(c)
  {
    if c < 0x1_0000 then [c as bv16] else [LeadOf(c), TrailOf(c)]
  }

  function HighOf(u: bv16): bv32 {
    (u as bv32) - 0xD800
  }

  function LowOf(v: bv16): bv32 {
    (v as bv32) - 0xDC00
  }

  function JoinHalves(h: bv32, l: bv32): bv32 {
    (h << 10) | l
  }

  function Above(d: bv32): bv32 {
    d + 0x1_0000
  }

  /** Section 2.2, step 5. */
  function PairOf(u: bv16, v: bv16): bv32 {
    Above(JoinHalves(HighOf(u), LowOf(v)))
  }

  lemma Units(h: bv32, l: bv32)
    requires h < 0x400 && l < 0x400
    ensures Lead16(LeadUnit(h)) && HighOf(LeadUnit(h)) == h
    ensures Trail16(TrailUnit(l)) && LowOf(TrailUnit(l)) == l
  {
  }

  lemma PairOfEncoded(c: bv32)
    requires 0x1_0000 <= c <= 0x10_FFFF
    ensures Lead16(LeadOf(c)) && Trail16(TrailOf(c)) && PairOf(LeadOf(c), TrailOf(c)) == c
  {
    hide Lead16, Trail16, High, Low, LeadUnit, TrailUnit, HighOf, LowOf, Offset, Above, JoinHalves;
    var d := Offset(c);
    OffsetOf(c);
    Halves(d);
    Units(High(d), Low(d));
  }

  lemma UnitsBack(u: bv16, v: bv16)
    ensures Lead16(u) ==> HighOf(u) < 0x400 && LeadUnit(HighOf(u)) == u
    ensures Trail16(v) ==> LowOf(v) < 0x400 && TrailUnit(LowOf(v)) == v
  {
  }

  lemma HalvesBack(h: bv32, l: bv32)
    requires h < 0x400 && l < 0x400
    ensures JoinHalves(h, l) < 0x10_0000 && High(JoinHalves(h, l)) == h && Low(JoinHalves(h, l)) == l
  {
  }

  lemma AboveBack(d: bv32)
    requires d < 0x10_0000
    ensures 0x1_0000 <= Above(d) <= 0x10_FFFF && Offset(Above(d)) == d
  {
  }

  lemma EncodedPair(u: bv16, v: bv16)
    requires Lead16(u) && Trail16(v)
    ensures 0x1_0000 <= PairOf(u, v) <= 0x10_FFFF && LeadOf(PairOf(u, v)) == u && TrailOf(PairOf(u, v)) == v
  {
    hide Lead16, Trail16, High, Low, LeadUnit, TrailUnit, HighOf, LowOf, Offset, Above, JoinHalves;
    UnitsBack(u, v);
    HalvesBack(HighOf(u), LowOf(v));
    AboveBack(JoinHalves(HighOf(u), LowOf(v)));
  }

  lemma OneUnit(c: bv32)
    requires Scalar(c) && c < 0x1_0000
    ensures !Lead16(c as bv16) && !Trail16(c as bv16) && (c as bv16) as bv32 == c
  {
  }

  lemma UnitAlone(u: bv16)
    requires !Lead16(u) && !Trail16(u)
    ensures Scalar(u as bv32) && (u as bv32) < 0x1_0000 && (u as bv32) as bv16 == u
  {
  }

  // -------------------------------------------------------------- whole strings

  /** How long the sequence is that a lead byte announces; none for a byte that cannot lead. */
  function Length8(a: bv8): nat {
    if a < 0x80 then 1 else if IsLead2(a) then 2 else if IsLead3(a) then 3 else if IsLead4(a) then 4 else 0
  }

  /** A well-formed sequence starts at offset i. */
  predicate WellFormedAt(s: seq<bv8>, i: nat)
    requires i < |s|
  {
    var n := Length8(s[i]);
    n > 0 && i + n <= |s| &&
    (if n == 1 then true
     else if n == 2 then Utf8Two(s[i], s[i + 1])
     else if n == 3 then Utf8Three(s[i], s[i + 1], s[i + 2])
     else Utf8Four(s[i], s[i + 1], s[i + 2], s[i + 3]))
  }

  /** The code point that it stands for. */
  function ValueAt(s: seq<bv8>, i: nat): bv32
    requires i < |s| && WellFormedAt(s, i)
  {
    var n := Length8(s[i]);
    if n == 1 then s[i] as bv32
    else if n == 2 then Two(s[i], s[i + 1])
    else if n == 3 then Three(s[i], s[i + 1], s[i + 2])
    else Four(s[i], s[i + 1], s[i + 2], s[i + 3])
  }

  /** Bytes are well formed as one sequence exactly when they are the encoding of a code point, and of which. */
  lemma WellFormedIsEncoded(s: seq<bv8>, i: nat)
    requires i < |s| && WellFormedAt(s, i)
    ensures Scalar(ValueAt(s, i)) && Encode(ValueAt(s, i)) == s[i..i + Length8(s[i])]
    ensures ValueAt(s, i) == 0 <==> s[i] == 0
  {
    hide More, Last, Front, Lead2, Lead3, Lead4, Bits3, Bits4, Bits5, Utf8Two, Utf8Three, Utf8Four, Two, Three, Four, IsLead2, IsLead3, IsLead4;
    var n := Length8(s[i]);
    if n == 1 {
      Ascii(s[i]);
    } else if n == 2 {
      DecodedTwo(s[i], s[i + 1]);
    } else if n == 3 {
      DecodedThree(s[i], s[i + 1], s[i + 2]);
    } else {
      DecodedFour(s[i], s[i + 1], s[i + 2], s[i + 3]);
    }
  }

  lemma Ascii(b: bv8)
    requires b < 0x80
    ensures (b as bv32) < 0x80 && (b as bv32) as bv8 == b && (b as bv32 == 0 <==> b == 0)
  {
  }

  lemma AsciiBack(c: bv32)
    requires c < 0x80
    ensures (c as bv8) < 0x80 && (c as bv8) as bv32 == c
  {
  }

  lemma NotAscii(a: bv8)
    ensures IsLead2(a) || IsLead3(a) || IsLead4(a) ==> a >= 0x80
    ensures !(IsLead2(a) && IsLead3(a)) && !(IsLead2(a) && IsLead4(a)) && !(IsLead3(a) && IsLead4(a))
  {
  }

  lemma EncodedIsWellFormed(c: bv32, s: seq<bv8>, i: nat)
    requires Scalar(c) && i + |Encode(c)| <= |s| && s[i..i + |Encode(c)|] == Encode(c)
    ensures i < |s| && WellFormedAt(s, i) && ValueAt(s, i) == c && Length8(s[i]) == |Encode(c)|
  {
    hide More, Last, Front, Lead2, Lead3, Lead4, Bits3, Bits4, Bits5, Utf8Two, Utf8Three, Utf8Four, Two, Three, Four, IsLead2, IsLead3, IsLead4;
    var e := Encode(c);
    assert forall k :: 0 <= k < |e| ==> s[i + k] == e[k];
    if c < 0x80 {
      AsciiBack(c);
    } else if c < 0x800 {
      EncodedTwo(c);
      Accepted(e[0], e[1], e[1], e[1]);
    } else if c < 0x1_0000 {
      EncodedThree(c);
      Accepted(e[0], e[1], e[2], e[2]);
    } else {
      EncodedFour(c);
      Accepted(e[0], e[1], e[2], e[3]);
    }
    NotAscii(e[0]);
  }

  function Length16(u: bv16): nat {
    if Lead16(u) then 2 else 1
  }

  /** A unit on its own, or a pair of surrogates, starts at offset i. */
  predicate WellFormed16At(s: seq<bv16>, i: nat)
    requires i < |s|
  {
    !Trail16(s[i]) && (Lead16(s[i]) ==> i + 1 < |s| && Trail16(s[i + 1]))
  }

  function Value16At(s: seq<bv16>, i: nat): bv32
    requires i < |s| && WellFormed16At(s, i)
  {
    if Lead16(s[i]) then PairOf(s[i], s[i + 1]) else PointOf(s[i])
  }

  /** A unit alone, in more bits. */
  function PointOf(u: bv16): bv32 {
    u as bv32
  }

  lemma PairEncoded(u: bv16, v: bv16)
    requires Lead16(u) && Trail16(v)
    ensures Scalar(PairOf(u, v)) && PairOf(u, v) != 0 && Encode16(PairOf(u, v)) == [u, v] && u != 0
  {
    EncodedPair(u, v);
    LeadNotZero(u);
    hide PairOf, LeadOf, TrailOf, Lead16, Trail16;
  }

  lemma UnitEncoded(u: bv16)
    requires !Lead16(u) && !Trail16(u)
    ensures Scalar(PointOf(u)) && (PointOf(u) == 0 <==> u == 0) && Encode16(PointOf(u)) == [u]
  {
    UnitAlone(u);
    UnitNotZero(u);
    hide Lead16, Trail16;
  }

  lemma UnitNotZero(u: bv16)
    ensures u as bv32 == 0 <==> u == 0
  {
  }

  lemma LeadNotZero(u: bv16)
    requires Lead16(u)
    ensures u != 0 && !Trail16(u)
  {
  }

  lemma WellFormed16IsEncoded(s: seq<bv16>, i: nat)
    requires i < |s| && WellFormed16At(s, i)
    ensures i + Length16(s[i]) <= |s|
    ensures Scalar(Value16At(s, i)) && Encode16(Value16At(s, i)) == s[i..i + Length16(s[i])]
    ensures Value16At(s, i) == 0 <==> s[i] == 0
  {
    hide PairOf, Lead16, Trail16, Encode16, Scalar, PointOf;
    if Lead16(s[i]) {
      PairEncoded(s[i], s[i + 1]);
    } else {
      UnitEncoded(s[i]);
    }
  }

  lemma PairRead(c: bv32)
    requires 0x1_0000 <= c <= 0x10_FFFF
    ensures Scalar(c) && |Encode16(c)| == 2 && Lead16(Encode16(c)[0]) && Trail16(Encode16(c)[1]) && !Trail16(Encode16(c)[0])
    ensures PairOf(Encode16(c)[0], Encode16(c)[1]) == c
  {
    PairOfEncoded(c);
    LeadNotZero(LeadOf(c));
    hide PairOf, LeadOf, TrailOf, Lead16, Trail16;
  }

  lemma UnitRead(c: bv32)
    requires Scalar(c) && c < 0x1_0000
    ensures |Encode16(c)| == 1 && !Lead16(Encode16(c)[0]) && !Trail16(Encode16(c)[0]) && Encode16(c)[0] as bv32 == c
  {
    OneUnit(c);
    hide Lead16, Trail16;
  }

  lemma Encoded16IsWellFormed(c: bv32, s: seq<bv16>, i: nat)
    requires Scalar(c) && i + |Encode16(c)| <= |s| && s[i..i + |Encode16(c)|] == Encode16(c)
    ensures i < |s| && WellFormed16At(s, i) && Value16At(s, i) == c && Length16(s[i]) == |Encode16(c)|
  {
    if c < 0x1_0000 {
      UnitRead(c);
    } else {
      PairRead(c);
    }
    hide Encode16, PairOf, Lead16, Trail16, Scalar;
    var e := Encode16(c);
    assert forall k :: 0 <= k < |e| ==> s[i + k] == e[k];
  }
}
