/** The allocator's arithmetic: words and bits, powers of two, and what its search finds. */
module PoolMap {

  const BLOCK: nat := 1024
  const TWO_32: nat := 0x1_0000_0000

  // -------------------------------------------------------------- bits of words

  function Mask(k: nat): bv32
    requires k < 32
  {
    1 << k
  }

  function Bit(words: seq<bv32>, i: nat): bool
    requires i < 32 * |words|
  {
    Meets(words[i / 32], Mask(i % 32))
  }

  function Bits(words: seq<bv32>): (bits: seq<bool>)
    ensures |bits| == 32 * |words|
  {
    seq(32 * |words|, i requires 0 <= i < 32 * |words| => Bit(words, i))
  }

  function With(w: bv32, m: bv32): bv32 {
    w | m
  }

  function Without(w: bv32, m: bv32): bv32 {
    w & !m
  }

  predicate Meets(w: bv32, m: bv32) {
    w & m != 0
  }

  lemma MasksApart(k: nat, l: nat)
    requires k < l < 32
    ensures !Meets(Mask(k), Mask(l))
  {
  }

  lemma MaskSet(k: nat)
    requires k < 32
    ensures Mask(k) != 0
  {
  }

  lemma Symmetric(m: bv32, n: bv32)
    ensures Meets(m, n) == Meets(n, m)
  {
  }

  lemma MetAfterOr(w: bv32, m: bv32)
    requires m != 0
    ensures Meets(With(w, m), m)
  {
    OrAbsorbs(w, m);
  }

  lemma OrAbsorbs(w: bv32, m: bv32)
    ensures (w | m) & m == m
  {
  }

  lemma NotMetAfterAnd(w: bv32, m: bv32)
    ensures !Meets(Without(w, m), m)
  {
  }

  lemma OtherMask(w: bv32, m: bv32, n: bv32)
    requires !Meets(m, n)
    ensures Meets(With(w, m), n) == Meets(w, n)
  {
    OrSplits(w, m, n);
    OrZero(w & n);
  }

  lemma OrSplits(w: bv32, m: bv32, n: bv32)
    ensures (w | m) & n == (w & n) | (m & n)
  {
  }

  lemma OrZero(w: bv32)
    ensures w | 0 == w
  {
  }

  lemma OtherMaskOff(w: bv32, m: bv32, n: bv32)
    requires !Meets(m, n)
    ensures Meets(Without(w, m), n) == Meets(w, n)
  {
    AndSplits(w, m, n);
    AndAll(w & n);
  }

  lemma AndSplits(w: bv32, m: bv32, n: bv32)
    ensures (w & !m) & n == (w & n) & !(m & n)
  {
  }

  lemma AndAll(w: bv32)
    ensures w & !0 == w
  {
  }

  lemma OneBit(w: bv32, k: nat, l: nat)
    requires k < 32 && l < 32
    ensures Meets(With(w, Mask(k)), Mask(l)) == (k == l || Meets(w, Mask(l)))
    ensures Meets(Without(w, Mask(k)), Mask(l)) == (k != l && Meets(w, Mask(l)))
  {
    hide Mask, With, Without, Meets;
    if k == l {
      MaskSet(k);
      MetAfterOr(w, Mask(k));
      NotMetAfterAnd(w, Mask(k));
    } else {
      if k < l {
        MasksApart(k, l);
      } else {
        MasksApart(l, k);
        Symmetric(Mask(k), Mask(l));
      }
      OtherMask(w, Mask(k), Mask(l));
      OtherMaskOff(w, Mask(k), Mask(l));
    }
  }

  lemma SetIn(words: seq<bv32>, i: nat)
    requires i < 32 * |words|
    ensures Bits(words[i / 32 := With(words[i / 32], Mask(i % 32))]) == Bits(words)[i := true]
  {
    hide Mask, With, Without, Meets;
    var later := words[i / 32 := With(words[i / 32], Mask(i % 32))];
    forall l | 0 <= l < 32 * |words|
      ensures Bit(later, l) == (l == i || Bit(words, l))
    {
      OneBit(words[i / 32], i % 32, l % 32);
    }
  }

  lemma ClearedIn(words: seq<bv32>, i: nat)
    requires i < 32 * |words|
    ensures Bits(words[i / 32 := Without(words[i / 32], Mask(i % 32))]) == Bits(words)[i := false]
  {
    hide Mask, With, Without, Meets;
    var later := words[i / 32 := Without(words[i / 32], Mask(i % 32))];
    forall l | 0 <= l < 32 * |words|
      ensures Bit(later, l) == (l != i && Bit(words, l))
    {
      OneBit(words[i / 32], i % 32, l % 32);
    }
  }

  lemma NoneSet(words: seq<bv32>)
    requires forall i :: 0 <= i < |words| ==> words[i] == 0
    ensures forall i :: 0 <= i < 32 * |words| ==> !Bits(words)[i]
  {
    forall i | 0 <= i < 32 * |words|
      ensures !Bits(words)[i]
    {
      NoBit(Mask(i % 32));
    }
  }

  lemma NoBit(m: bv32)
    ensures !Meets(0, m)
  {
  }

  /** The map has whole words: a bit for every block exactly when the blocks fill whole words, and never more bits than blocks. */
  lemma MapCoversPool(poolSize: nat)
    ensures 32 * (poolSize / BLOCK / 8 / 4) == poolSize / BLOCK <==> poolSize / BLOCK % 32 == 0
    ensures 32 * (poolSize / BLOCK / 8 / 4) <= poolSize / BLOCK
  {
  }

  // -------------------------------------------------------------- powers of two

  function Power(k: nat): nat {
    if k == 0 then 1 else 2 * Power(k - 1)
  }

  ghost predicate PowerOfTwo(n: nat) {
    exists k: nat :: n == Power(k)
  }

  predicate OneBitOnly(s: bv32) {
    s & (s - 1) == 0
  }

  lemma MaskDoubles(k: nat)
    requires k < 31
    ensures Mask(k + 1) as nat == 2 * (Mask(k) as nat)
  {
    MaskShifts(k);
    Doubled(Mask(k), Mask(k + 1));
    hide Mask, Doubles;
  }

  predicate Doubles(m: bv32, n: bv32) {
    m < 0x8000_0000 && n == m << 1
  }

  predicate AtMost(s: bv32, m: bv32) {
    s <= m
  }

  lemma MaskShifts(k: nat)
    requires k < 31
    ensures Doubles(Mask(k), Mask(k + 1))
  {
  }

  lemma Doubled(w: bv32, v: bv32)
    requires Doubles(w, v)
    ensures v as nat == 2 * (w as nat)
  {
  }

  lemma {:induction false} MaskIsPower(k: nat)
    requires k < 32
    ensures Mask(k) as nat == Power(k)
  {
    if k > 0 {
      MaskIsPower(k - 1);
      MaskDoubles(k - 1);
      hide Mask;
    } else {
      assert Mask(0) == 1;
    }
  }

  lemma MaskIsOneBit(k: nat)
    requires k < 32
    ensures OneBitOnly(Mask(k)) && Mask(k) != 0
  {
  }

  /** A word with one bit is one of the masks. */
  lemma {:induction false} OneBitIsMask(s: bv32, k: nat) returns (l: nat)
    requires s != 0 && k < 32 && AtMost(s, Mask(k)) && OneBitOnly(s)
    ensures l <= k && s == Mask(l)
    decreases k
  {
    hide Mask, OneBitOnly, Doubles, AtMost;
    l := k;
    if s != Mask(k) {
      if k == 0 {
        OnlyOne(s);
      } else {
        MaskShifts(k - 1);
        MaskIsOneBit(k - 1);
        Below(s, Mask(k - 1), Mask(k));
        l := OneBitIsMask(s, k - 1);
      }
    }
  }

  lemma OnlyOne(s: bv32)
    requires s != 0 && AtMost(s, Mask(0))
    ensures s == Mask(0)
  {
  }

  lemma Below(s: bv32, m: bv32, n: bv32)
    requires OneBitOnly(s) && OneBitOnly(m) && Doubles(m, n) && AtMost(s, n) && s != n
    ensures AtMost(s, m)
  {
  }

  lemma SameWord(s: bv32, t: bv32)
    requires s as nat == t as nat
    ensures s == t
  {
    assert (s as nat) as bv32 == s && (t as nat) as bv32 == t;
  }

  lemma TopMask(s: bv32)
    requires OneBitOnly(s)
    ensures AtMost(s, Mask(31))
  {
  }

  lemma {:induction false} PowersGrow(k: nat, l: nat)
    requires k <= l
    ensures Power(k) <= Power(l) && Power(k) > 0
    decreases l
  {
    if k < l {
      PowersGrow(k, l - 1);
    } else if k > 0 {
      PowersGrow(k - 1, l - 1);
    }
  }

  /** The test tells the powers of two, and zero. */
  lemma PowerTest(s: bv32)
    ensures OneBitOnly(s) <==> s == 0 || PowerOfTwo(s as nat)
  {
    hide OneBitOnly, PowerOfTwo;
    if s == 0 {
      ZeroHasNone();
    } else if OneBitOnly(s) {
      OneBitIsPower(s);
    } else if PowerOfTwo(s as nat) {
      PowerIsOneBit(s);
    }
  }

  lemma OneBitIsPower(s: bv32)
    requires OneBitOnly(s) && s != 0
    ensures PowerOfTwo(s as nat)
  {
    TopMask(s);
    hide Mask, OneBitOnly, Power;
    var k := OneBitIsMask(s, 31);
    MaskIsPower(k);
  }

  lemma PowerIsOneBit(s: bv32)
    requires PowerOfTwo(s as nat)
    ensures OneBitOnly(s)
  {
    hide Mask, OneBitOnly, Power;
    var k: nat :| s as nat == Power(k);
    if k >= 32 {
      PowersGrow(32, k);
      Power32();
      assert false;
    } else {
      MaskIsPower(k);
      MaskIsOneBit(k);
      SameWord(s, Mask(k));
    }
  }

  lemma Power32()
    ensures Power(32) == TWO_32
  {
    assert Power(32) == 2 * Power(31);
    MaskIsPower(31);
    TopIs();
  }

  lemma ZeroHasNone()
    ensures OneBitOnly(0)
  {
  }

  lemma TopIs()
    ensures Mask(31) as nat == 0x8000_0000
  {
  }

  // -------------------------------------------------------------- the search

  /** Looking at the bits of a run, one after the other; the map may end before the run does. */
  datatype Seen = Free | Taken | PastEnd

  function Probe(used: seq<bool>, k: nat, end: nat): Seen
    decreases end - k
  {
    if k >= end then Free
    else if k >= |used| then PastEnd
    else if used[k] then Taken
    else Probe(used, k + 1, end)
  }

  datatype Search = Found(at: nat) | Exhausted | Strayed

  /** Every n-th position up to and including the limit, which is the number of blocks. */
  function FirstFree(used: seq<bool>, i: nat, n: nat, limit: nat): Search
    requires n > 0
    decreases limit - i
  {
    if i > limit then Exhausted
    else
      match Probe(used, i, i + n)
      case Free => Found(i)
      case Taken => FirstFree(used, i + n, n, limit)
      case PastEnd => Strayed
  }

  ghost predicate RunFree(used: seq<bool>, i: nat, n: nat) {
    i + n <= |used| && forall k :: i <= k < i + n ==> !used[k]
  }

  /** A position that the search passes: i, i + n, i + 2 n and so on. */
  predicate Passed(q: nat, i: nat, n: nat)
    requires n > 0
    decreases q - i
  {
    q == i || (i + n <= q && Passed(q, i + n, n))
  }

  ghost predicate Fits(used: seq<bool>, q: nat, i: nat, n: nat)
    requires n > 0
  {
    Passed(q, i, n) && RunFree(used, q, n)
  }

  /** Where a run would leave the map, and the search still passes, something is in use before the end. */
  ghost predicate TailUsed(used: seq<bool>, i: nat, n: nat, limit: nat)
    requires n > 0
  {
    forall q: nat :: Passed(q, i, n) && q <= limit && |used| < q + n ==> UsedFrom(used, q)
  }

  ghost predicate UsedFrom(used: seq<bool>, q: nat) {
    exists k :: q <= k < |used| && used[k]
  }

  lemma {:induction false} ProbeTells(used: seq<bool>, k: nat, end: nat)
    ensures Probe(used, k, end) == Free <==> k >= end || (end <= |used| && forall j :: k <= j < end ==> !used[j])
    ensures Probe(used, k, end) == Taken <==> exists j :: k <= j < end && j < |used| && used[j]
    decreases end - k
  {
    if k < end && k < |used| && !used[k] {
      ProbeTells(used, k + 1, end);
    }
  }

  /** The search finds the lowest run that fits, if there is one; if not, it fails properly exactly when the end of the map is in use. */
  lemma {:induction false} SearchFinds(used: seq<bool>, i: nat, n: nat, limit: nat)
    requires n > 0 && |used| <= limit
    ensures var r := FirstFree(used, i, n, limit);
      && (r.Found? ==> Fits(used, r.at, i, n) && forall q: nat :: Fits(used, q, i, n) ==> r.at <= q)
      && (!r.Found? ==> forall q: nat :: !Fits(used, q, i, n))
      && (!r.Found? ==> (r.Exhausted? <==> TailUsed(used, i, n, limit)))
    decreases limit - i
  {
    hide RunFree, Probe, UsedFrom;
    if i > limit {
      PassedFrom(used, i, n);
    } else {
      LookedAt(used, i, n);
      if Probe(used, i, i + n) == Taken {
        SearchFinds(used, i + n, n, limit);
        forall q: nat | Fits(used, q, i, n)
          ensures Fits(used, q, i + n, n)
        {
          assert q != i;
        }
      } else {
        PassedFrom(used, i, n);
      }
    }
  }

  lemma LookedAt(used: seq<bool>, i: nat, n: nat)
    requires n > 0
    ensures Probe(used, i, i + n) == Free <==> RunFree(used, i, n)
    ensures Probe(used, i, i + n) == PastEnd <==> i + n > |used| && !UsedFrom(used, i)
    ensures i + n <= |used| || Probe(used, i, i + n) != Taken || UsedFrom(used, i)
  {
    ProbeTells(used, i, i + n);
  }

  lemma {:induction false} PassedFrom(used: seq<bool>, i: nat, n: nat)
    requires n > 0
    ensures forall q: nat :: Passed(q, i, n) ==> q >= i
    ensures forall q: nat :: RunFree(used, q, n) ==> q + n <= |used|
    ensures forall q: nat :: Passed(q, i, n) && q != i ==> q >= i + n
  {
  }

  // -------------------------------------------------------------- addresses

  function Quotient(x: nat, s: nat): nat
    requires s > 0
  {
    x / s
  }

  function Rest(x: nat, s: nat): nat
    requires s > 0
  {
    x % s
  }

  lemma Division(x: nat, s: nat)
    requires s > 0
    ensures x == s * Quotient(x, s) + Rest(x, s) && Rest(x, s) < s
  {
  }

  lemma Gap(s: nat, d: nat)
    requires d >= 1
    ensures s * d >= s
  {
    if d > 1 {
      Gap(s, d - 1);
      assert s * d == s * (d - 1) + s;
    }
  }

  lemma Distributed(s: nat, a: nat, d: nat)
    ensures s * (a + d) == s * a + s * d
  {
  }

  lemma OnlyOneRest(s: nat, a: nat, x: nat, b: nat, y: nat)
    requires s * a + x == s * b + y && x < s && y < s
    ensures a == b && x == y
  {
    if a < b {
      Distributed(s, a, b - a);
      Gap(s, b - a);
      assert false;
    } else if b < a {
      Distributed(s, b, a - b);
      Gap(s, a - b);
      assert false;
    }
  }

  lemma RestIs(x: nat, s: nat, a: nat, y: nat)
    requires s > 0 && x == s * a + y && y < s
    ensures Rest(x, s) == y && Quotient(x, s) == a
  {
    hide Rest, Quotient;
    Division(x, s);
    OnlyOneRest(s, a, y, Quotient(x, s), Rest(x, s));
  }

  lemma RestAfter(x: nat, s: nat, y: nat)
    requires s > 0 && Rest(x, s) == 0
    ensures y < s ==> Rest(x + y, s) == y
    ensures Rest(x + s, s) == 0
  {
    hide Rest, Quotient;
    Division(x, s);
    var a := Quotient(x, s);
    if y < s {
      RestIs(x + y, s, a, y);
    }
    Distributed(s, a, 1);
    RestIs(x + s, s, a + 1, 0);
  }

  lemma RestOff(x: nat, s: nat)
    requires s > 0
    ensures Rest(x, s) <= x && Rest(x - Rest(x, s), s) == 0
  {
    hide Rest, Quotient;
    Division(x, s);
    RestIs(x - Rest(x, s), s, Quotient(x, s), 0);
  }

  lemma RestOfBlocks(x: nat, s: nat)
    requires s > 0 && s % BLOCK == 0 && x % BLOCK == 0
    ensures Rest(x, s) % BLOCK == 0
  {
    hide Rest, Quotient;
    Division(x, s);
    var n, a := s / BLOCK, Quotient(x, s);
    assert s * a == BLOCK * (n * a);
  }

  /** The positions that the search passes are the aligned ones. */
  lemma {:induction false} PassedIsAligned(q: nat, i: nat, n: nat, base: nat)
    requires n > 0 && Rest(base + BLOCK * i, BLOCK * n) == 0 && i <= q
    ensures Passed(q, i, n) <==> Rest(base + BLOCK * q, BLOCK * n) == 0
    decreases q - i
  {
    hide Rest;
    var x, s := base + BLOCK * i, BLOCK * n;
    if q < i + n {
      RestAfter(x, s, BLOCK * (q - i));
      assert base + BLOCK * q == x + BLOCK * (q - i);
    } else {
      RestAfter(x, s, 0);
      assert base + BLOCK * (i + n) == x + s;
      PassedIsAligned(q, i + n, n, base);
    }
  }

  /** Where the search starts: the first position in the pool that is aligned. */
  function FirstAligned(base: nat, size: nat): nat
    requires size > 0
  {
    (if Rest(base, size) != 0 then size - Rest(base, size) else 0) / BLOCK
  }

  lemma FirstAlignedIs(base: nat, size: nat)
    requires size > 0 && size % BLOCK == 0 && base % BLOCK == 0
    ensures Rest(base, size) < size && BLOCK * FirstAligned(base, size) == if Rest(base, size) == 0 then 0 else size - Rest(base, size)
  {
    hide Rest;
    RestOfBlocks(base, size);
    Division(base, size);
  }

  lemma StartsAligned(base: nat, size: nat)
    requires size > 0 && size % BLOCK == 0 && base % BLOCK == 0
    ensures var i := FirstAligned(base, size);
      && Rest(base + BLOCK * i, size) == 0 && BLOCK * i < size
      && forall q: nat :: q < i ==> Rest(base + BLOCK * q, size) != 0
  {
    hide Rest, FirstAligned;
    var i, r := FirstAligned(base, size), Rest(base, size);
    FirstAlignedIs(base, size);
    if r != 0 {
      RestOff(base, size);
      RestAfter(base - r, size, 0);
      assert base + BLOCK * i == base - r + size;
      forall q: nat | q < i
        ensures Rest(base + BLOCK * q, size) != 0
      {
        RestAfter(base - r, size, r + BLOCK * q);
        assert base + BLOCK * q == (base - r) + (r + BLOCK * q);
      }
    }
  }
}
