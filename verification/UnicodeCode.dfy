/** The conversion code: decoding byte by byte, and writing to buffers that may be too small. */
module UnicodeCode {
  import opened Unicode

  // -------------------------------------------------------------- what the conversions mean

  /** The code points of a string up to its terminator, or up to where it is not well formed. */
  datatype Text = Text(points: seq<bv32>, valid: bool)

  function Text8(s: seq<bv8>, i: nat): Text
    decreases |s| - i
  {
    if i >= |s| || !WellFormedAt(s, i) then Text([], false)
    else if s[i] == 0 then Text([], true)
    else
      var rest := Text8(s, i + Length8(s[i]));
      Text([ValueAt(s, i)] + rest.points, rest.valid)
  }

  function Text16(s: seq<bv16>, i: nat): Text
    decreases |s| - i
  {
    if i >= |s| || !WellFormed16At(s, i) then Text([], false)
    else if s[i] == 0 then Text([], true)
    else
      var rest := Text16(s, i + Length16(s[i]));
      Text([Value16At(s, i)] + rest.points, rest.valid)
  }

  /** Code points that a terminated string can hold. */
  ghost predicate Storable(points: seq<bv32>) {
    forall c :: c in points ==> Scalar(c) && c != 0
  }

  function Bytes(points: seq<bv32>): seq<bv8>
    requires Storable(points)
  {
    if points == [] then [] else Bytes(points[..|points| - 1]) + Encode(points[|points| - 1])
  }

  function Units(points: seq<bv32>): seq<bv16>
    requires Storable(points)
  {
    if points == [] then [] else Units(points[..|points| - 1]) + Encode16(points[|points| - 1])
  }

  lemma {:induction false} BytesCons(c: bv32, points: seq<bv32>)
    requires Storable([c] + points)
    ensures Storable(points) && Scalar(c) && Bytes([c] + points) == Encode(c) + Bytes(points)
  {
    hide Encode;
    var all := [c] + points;
    assert c in all && forall x :: x in points ==> x in all;
    var n := |points|;
    if n == 0 {
      assert all[..0] == [];
      assert Bytes(all) == Bytes([]) + Encode(c);
    } else {
      assert all[..n] == [c] + points[..n - 1];
      assert Storable(all[..n]);
      BytesCons(c, points[..n - 1]);
      assert all[n] == points[n - 1];
    }
  }

  lemma {:induction false} UnitsCons(c: bv32, points: seq<bv32>)
    requires Storable([c] + points)
    ensures Storable(points) && Scalar(c) && Units([c] + points) == Encode16(c) + Units(points)
  {
    hide Encode16;
    var all := [c] + points;
    assert c in all && forall x :: x in points ==> x in all;
    var n := |points|;
    if n == 0 {
      assert all[..0] == [];
      assert Units(all) == Units([]) + Encode16(c);
    } else {
      assert all[..n] == [c] + points[..n - 1];
      assert Storable(all[..n]);
      UnitsCons(c, points[..n - 1]);
      assert all[n] == points[n - 1];
    }
  }

  /** What is read from a well-formed string can be stored, and is stored as the same bytes. */
  lemma {:induction false} BytesOfText(s: seq<bv8>, i: nat)
    requires i <= |s|
    ensures var t := Text8(s, i); Storable(t.points) && i + |Bytes(t.points)| <= |s|
    ensures var t := Text8(s, i); s[i..i + |Bytes(t.points)|] == Bytes(t.points)
    ensures var t := Text8(s, i); t.valid ==> i + |Bytes(t.points)| < |s| && s[i + |Bytes(t.points)|] == 0
    decreases |s| - i
  {
    hide Encode, Bytes, WellFormedAt, ValueAt;
    if i < |s| && WellFormedAt(s, i) && s[i] != 0 {
      Part8(s, i);
    } else {
      NoBytes();
    }
  }

  lemma NoBytes()
    ensures Bytes([]) == [] && Units([]) == []
  {
  }

  lemma Part8(s: seq<bv8>, i: nat)
    requires i < |s| && WellFormedAt(s, i) && s[i] != 0
    ensures var t := Text8(s, i); Storable(t.points) && i + |Bytes(t.points)| <= |s|
    ensures var t := Text8(s, i); s[i..i + |Bytes(t.points)|] == Bytes(t.points)
    ensures var t := Text8(s, i); t.valid ==> i + |Bytes(t.points)| < |s| && s[i + |Bytes(t.points)|] == 0
    decreases |s| - i, 0
  {
    hide Encode, Bytes, ValueAt, WellFormedAt, Length8, Storable, Scalar;
    var n, c := Length8(s[i]), ValueAt(s, i);
    SomeBytes(s, i);
    var rest := Text8(s, i + n);
    assert Text8(s, i) == Text([c] + rest.points, rest.valid);
    BytesOfText(s, i + n);
    WellFormedIsEncoded(s, i);
    AlsoStorable(c, rest.points);
    BytesCons(c, rest.points);
    Spliced(s, i, n, |Bytes(rest.points)|);
  }

  lemma SomeBytes(s: seq<bv8>, i: nat)
    requires i < |s| && WellFormedAt(s, i)
    ensures Length8(s[i]) > 0 && i + Length8(s[i]) <= |s|
  {
  }

  lemma AlsoStorable(c: bv32, points: seq<bv32>)
    requires Storable(points) && Scalar(c) && c != 0
    ensures Storable([c] + points)
  {
  }

  lemma Spliced<T>(s: seq<T>, i: nat, n: nat, k: nat)
    requires i + n + k <= |s|
    ensures s[i..i + n + k] == s[i..i + n] + s[i + n..i + n + k]
  {
  }

  /** A terminated string of stored code points is read back as these. */
  lemma {:induction false} TextOfBytes(points: seq<bv32>, s: seq<bv8>, i: nat)
    requires Storable(points) && i <= |s| && s[i..] == Bytes(points) + [0]
    ensures Text8(s, i) == Text(points, true)
    decreases |points|
  {
    hide Encode, ValueAt, WellFormedAt, Length8, Bytes;
    if points == [] {
      NoBytes();
      assert s[i] == s[i..][0] == 0;
      ZeroByte(s, i);
    } else {
      var c, rest := points[0], points[1..];
      assert points == [c] + rest;
      BytesCons(c, rest);
      var n := |Encode(c)|;
      Fronted(s, i, Encode(c), Bytes(rest), 0);
      EncodedIsWellFormed(c, s, i);
      WellFormedIsEncoded(s, i);
      TextOfBytes(rest, s, i + n);
    }
  }

  lemma Fronted<T>(s: seq<T>, i: nat, front: seq<T>, rest: seq<T>, nul: T)
    requires i <= |s| && s[i..] == front + rest + [nul]
    ensures i + |front| <= |s| && s[i..i + |front|] == front && s[i + |front|..] == rest + [nul]
  {
    var n := |front|;
    assert s[i..][..n] == front && s[i..][n..] == rest + [nul];
    assert s[i..i + n] == s[i..][..n] && s[i + n..] == s[i..][n..];
  }

  lemma ZeroUnit(s: seq<bv16>, i: nat)
    requires i < |s| && s[i] == 0
    ensures WellFormed16At(s, i)
  {
  }

  lemma ZeroByte(s: seq<bv8>, i: nat)
    requires i < |s| && s[i] == 0
    ensures WellFormedAt(s, i)
  {
  }

  lemma {:induction false} UnitsOfText(s: seq<bv16>, i: nat)
    requires i <= |s|
    ensures var t := Text16(s, i); Storable(t.points) && i + |Units(t.points)| <= |s|
    ensures var t := Text16(s, i); s[i..i + |Units(t.points)|] == Units(t.points)
    ensures var t := Text16(s, i); t.valid ==> i + |Units(t.points)| < |s| && s[i + |Units(t.points)|] == 0
    decreases |s| - i
  {
    hide Encode16, Units, WellFormed16At, Value16At, Length16;
    if i < |s| && WellFormed16At(s, i) && s[i] != 0 {
      Part16(s, i);
    } else {
      NoBytes();
    }
  }

  lemma Part16(s: seq<bv16>, i: nat)
    requires i < |s| && WellFormed16At(s, i) && s[i] != 0
    ensures var t := Text16(s, i); Storable(t.points) && i + |Units(t.points)| <= |s|
    ensures var t := Text16(s, i); s[i..i + |Units(t.points)|] == Units(t.points)
    ensures var t := Text16(s, i); t.valid ==> i + |Units(t.points)| < |s| && s[i + |Units(t.points)|] == 0
    decreases |s| - i, 0
  {
    hide Encode16, Units, Value16At, Lead16, Trail16;
    var n, c := Length16(s[i]), Value16At(s, i);
    WellFormed16IsEncoded(s, i);
    var rest := Text16(s, i + n);
    UnitsOfText(s, i + n);
    assert Text16(s, i).points == [c] + rest.points;
    UnitsCons(c, rest.points);
  }

  lemma {:induction false} TextOfUnits(points: seq<bv32>, s: seq<bv16>, i: nat)
    requires Storable(points) && i <= |s| && s[i..] == Units(points) + [0]
    ensures Text16(s, i) == Text(points, true)
    decreases |points|
  {
    hide Encode16, Value16At, WellFormed16At, Length16, Units;
    if points == [] {
      NoBytes();
      assert s[i] == s[i..][0] == 0;
      ZeroUnit(s, i);
    } else {
      var c, rest := points[0], points[1..];
      assert points == [c] + rest;
      UnitsCons(c, rest);
      var n := |Encode16(c)|;
      Fronted(s, i, Encode16(c), Units(rest), 0);
      Encoded16IsWellFormed(c, s, i);
      WellFormed16IsEncoded(s, i);
      TextOfUnits(rest, s, i + n);
    }
  }

  /** From UTF-8 to UTF-16 and back: the same bytes, for every valid string. */
  lemma RoundTrip8(s: seq<bv8>)
    requires Text8(s, 0).valid
    ensures Storable(Text8(s, 0).points)
    ensures var units := Units(Text8(s, 0).points) + [0];
            Text16(units, 0) == Text8(s, 0) && Bytes(Text16(units, 0).points) + [0] <= s
  {
    hide Bytes, Units, Text8, Text16;
    BytesOfText(s, 0);
    var points := Text8(s, 0).points;
    var units := Units(points) + [0];
    assert units[0..] == units;
    TextOfUnits(points, units, 0);
    var n := |Bytes(points)|;
    assert s[..n] == Bytes(points) && s[n] == 0;
    assert s[..n + 1] == Bytes(points) + [0];
  }

  /** And from UTF-16 to UTF-8 and back. */
  lemma RoundTrip16(s: seq<bv16>)
    requires Text16(s, 0).valid
    ensures Storable(Text16(s, 0).points)
    ensures var bytes := Bytes(Text16(s, 0).points) + [0];
            Text8(bytes, 0) == Text16(s, 0) && Units(Text8(bytes, 0).points) + [0] <= s
  {
    hide Bytes, Units, Text8, Text16;
    UnitsOfText(s, 0);
    var points := Text16(s, 0).points;
    var bytes := Bytes(points) + [0];
    assert bytes[0..] == bytes;
    TextOfBytes(points, bytes, 0);
    var n := |Units(points)|;
    assert s[..n] == Units(points) && s[n] == 0;
    assert s[..n + 1] == Units(points) + [0];
  }

  // -------------------------------------------------------------- decoding

  /** The bits of a lead byte and the tails after it, put together by the loop. */
  function Gathered(c: bv32, s: seq<bv8>, i: nat, n: nat): bv32
    requires i + n <= |s|
  {
    if n == 0 then c else More(Gathered(c, s, i, n - 1), s[i + n - 1])
  }

  ghost predicate NulFrom(s: seq<bv8>, i: nat) {
    exists j :: i <= j < |s| && s[j] == 0
  }

  /** What the decoder answers: the code point and where the next one starts, or INVALID. */
  ghost predicate Read8(s: seq<bv8>, i: nat, c: bv32, next: nat) {
    && i < |s|
    && (WellFormedAt(s, i) ==> c == ValueAt(s, i) && next == i + Length8(s[i]))
    && (!WellFormedAt(s, i) ==> c == INVALID)
  }

  /** The bytes that were passed over hold no terminator, except that the last may be one. */
  ghost predicate StopsAtNul(s: seq<bv8>, i: nat, next: nat) {
    forall k :: i <= k < next - 1 && k < |s| ==> s[k] != 0
  }

  /** How many tail bytes a first byte announces. */
  function Announced(a: bv8): nat {
    if a < 0x80 then 0 else if IsLead2(a) then 1 else if IsLead3(a) then 2 else if IsLead4(a) then 3 else 0
  }

  /** Behind n tail bytes, or behind the first byte that is none, or where the string ends. */
  function PastTails(s: seq<bv8>, k: nat, n: nat): (next: nat)
    ensures next >= k
    decreases n
  {
    if n == 0 || k >= |s| then k else if !IsTail(s[k]) then k + 1 else PastTails(s, k + 1, n - 1)
  }

  /** How far the decoder looks, whether it accepts what it sees or not. */
  function LookedUpTo(s: seq<bv8>, i: nat): (next: nat)
    requires i < |s|
    ensures next > i
  {
    PastTails(s, i + 1, Announced(s[i]))
  }

  /** Byte by byte: all the tails that are announced, or up to and with the first byte that is none, or to the end. */
  lemma {:induction false} LookedIs(s: seq<bv8>, k: nat, n: nat, end: nat)
    requires k <= end <= |s| && end - k <= n && forall j :: k <= j < end ==> IsTail(s[j])
    requires end - k == n || end == |s| || !IsTail(s[end])
    ensures PastTails(s, k, n) == if end - k == n || end == |s| then end else end + 1
    decreases end - k
  {
    if k < end {
      LookedIs(s, k + 1, n - 1, end);
    }
  }

  lemma LooksAhead(s: seq<bv8>, i: nat, n: nat)
    requires i < |s| && n == Announced(s[i])
    ensures LookedUpTo(s, i) == PastTails(s, i + 1, n)
  {
  }

  lemma AnnouncedBy(a: bv8)
    ensures a < 0x80 ==> Announced(a) == 0
    ensures a >= 0x80 ==> Announced(a) == if IsLead2(a) then 1 else if IsLead3(a) then 2 else if IsLead4(a) then 3 else 0
  {
  }

  lemma PastOne(s: seq<bv8>, k: nat, n: nat)
    ensures PastTails(s, k, n) == if n == 0 || k >= |s| then k else if !IsTail(s[k]) then k + 1 else PastTails(s, k + 1, n - 1)
  {
  }

  /** The next code point; the caller either gives the end of the string or has it terminated. */
  method NextUtf8(s: seq<bv8>, it: nat, checkEnd: bool) returns (c: bv32, next: nat)
    requires it <= |s| && (checkEnd || NulFrom(s, it))
    ensures checkEnd && it == |s| ==> c == 0 && next == it
    ensures it < |s| ==> Read8(s, it, c, next) && it < next <= |s| && StopsAtNul(s, it, next) && next == LookedUpTo(s, it)
    ensures !checkEnd && c != 0 && c != INVALID ==> NulFrom(s, next)
  {
    hide More, Utf8Two, Utf8Three, Utf8Four, IsTail, IsLead2, IsLead3, IsLead4, Bits3, Bits4, Bits5, WellFormedAt, ValueAt, Gathered, Scalar;
    hide Announced, PastTails, LookedUpTo;
    if checkEnd && it == |s| {
      return 0, it;
    }
    var a := s[it];
    next := it + 1;
    AnnouncedBy(a);
    LooksAhead(s, it, Announced(a));
    PastOne(s, it + 1, Announced(a));
    if a < 0x80 {
      AsciiAt(s, it);
      return a as bv32, next;
    }
    var additionalBytes;
    if IsLead2(a) {
      c, additionalBytes := Bits5(a), 1;
    } else if IsLead3(a) {
      c, additionalBytes := Bits4(a), 2;
    } else if IsLead4(a) {
      c, additionalBytes := Bits3(a), 3;
    } else {
      NoLead(s, it);
      return INVALID, next;
    }
    LeadsApart(s, it);
    ghost var lead := c;
    var complete;
    complete, c, next := GatherTails(s, it, c, additionalBytes, checkEnd);
    if !complete {
      return INVALID, next;
    }
    AllTails(s, it, c);
    if (additionalBytes == 1 && c < 0x80) || (additionalBytes == 2 && c < 0x800) || (additionalBytes == 3 && c < 0x1_0000) {
      return INVALID, next;
    }
    if !Scalar(c) {
      return INVALID, next;
    }
  }

  /** The loop over the tail bytes; it stops where the string ends and behind a byte that is none. */
  method GatherTails(s: seq<bv8>, it: nat, lead: bv32, additionalBytes: nat, checkEnd: bool) returns (complete: bool, c: bv32, next: nat)
    requires it < |s| && s[it] != 0 && (checkEnd || NulFrom(s, it + 1)) && additionalBytes == Announced(s[it]) == Length8(s[it]) - 1
    ensures it < next <= |s| && StopsAtNul(s, it, next) && next == LookedUpTo(s, it)
    ensures complete ==> next == it + 1 + additionalBytes && (checkEnd || NulFrom(s, next))
    ensures complete ==> c == Gathered(lead, s, it + 1, additionalBytes) && forall k :: it < k < next ==> IsTail(s[k])
    ensures !complete ==> !WellFormedAt(s, it)
  {
    hide More, IsTail, Gathered, Announced, PastTails, LookedUpTo, WellFormedAt, Length8;
    LooksAhead(s, it, additionalBytes);
    GatheredNone(lead, s, it + 1);
    c, next := lead, it + 1;
    for i := 0 to additionalBytes
      invariant next == it + 1 + i <= |s| && (checkEnd || NulFrom(s, next))
      invariant forall k :: it < k < next ==> IsTail(s[k])
      invariant forall k :: it <= k < next ==> s[k] != 0
      invariant c == Gathered(lead, s, it + 1, i)
      invariant PastTails(s, next, additionalBytes - i) == LookedUpTo(s, it)
    {
      PastOne(s, next, additionalBytes - i);
      if checkEnd && next == |s| {
        TailsNeeded(s, it);
        return false, c, next;
      }
      var b := s[next];
      next := next + 1;
      if !IsTail(b) {
        TailsNeeded(s, it);
        return false, c, next;
      }
      ZeroIsNoTail(b);
      GatheredNext(lead, s, it + 1, i);
      c := More(c, b);
    }
    PastOne(s, next, 0);
    return true, c, next;
  }

  lemma AsciiAt(s: seq<bv8>, i: nat)
    requires i < |s| && s[i] < 0x80
    ensures WellFormedAt(s, i) && ValueAt(s, i) == s[i] as bv32 && Length8(s[i]) == 1
  {
  }

  lemma NoLead(s: seq<bv8>, i: nat)
    requires i < |s| && s[i] >= 0x80 && !IsLead2(s[i]) && !IsLead3(s[i]) && !IsLead4(s[i])
    ensures !WellFormedAt(s, i)
  {
  }

  lemma LeadsApart(s: seq<bv8>, i: nat)
    requires i < |s| && s[i] >= 0x80
    ensures IsLead2(s[i]) ==> !IsLead3(s[i]) && !IsLead4(s[i]) && Length8(s[i]) == 2
    ensures IsLead3(s[i]) ==> !IsLead2(s[i]) && !IsLead4(s[i]) && Length8(s[i]) == 3
    ensures IsLead4(s[i]) ==> !IsLead2(s[i]) && !IsLead3(s[i]) && Length8(s[i]) == 4
  {
    NotAscii(s[i]);
  }

  lemma GatheredNone(c: bv32, s: seq<bv8>, i: nat)
    requires i <= |s|
    ensures Gathered(c, s, i, 0) == c
  {
  }

  lemma GatheredNext(c: bv32, s: seq<bv8>, i: nat, n: nat)
    requires i + n + 1 <= |s|
    ensures Gathered(c, s, i, n + 1) == More(Gathered(c, s, i, n), s[i + n])
  {
  }

  lemma ZeroIsNoTail(b: bv8)
    requires IsTail(b)
    ensures b != 0
  {
  }

  /** A well-formed sequence has as many tails as its lead announces. */
  lemma TailsNeeded(s: seq<bv8>, i: nat)
    requires i < |s|
    ensures WellFormedAt(s, i) ==> i + Length8(s[i]) <= |s| && forall k :: i < k < i + Length8(s[i]) ==> IsTail(s[k])
  {
    hide Utf8Two, Utf8Three, Utf8Four, IsTail, IsLead2, IsLead3, IsLead4, Two, Three, Four, Scalar;
    if WellFormedAt(s, i) {
      var n := Length8(s[i]);
      if n == 2 {
        TwoAccepted(s[i], s[i + 1]);
      } else if n == 3 {
        ThreeAccepted(s[i], s[i + 1], s[i + 2]);
      } else if n == 4 {
        FourAccepted(s[i], s[i + 1], s[i + 2], s[i + 3]);
      }
    }
  }

  /** With all tails there, the checks at the end of the decoder are the rest of being well formed. */
  lemma AllTails(s: seq<bv8>, i: nat, c: bv32)
    requires i < |s| && s[i] >= 0x80 && (IsLead2(s[i]) || IsLead3(s[i]) || IsLead4(s[i]))
    requires var n := Length8(s[i]); i + n <= |s| && (forall k :: i < k < i + n ==> IsTail(s[k]))
    requires var n := Length8(s[i]);
             c == Gathered(if n == 2 then Bits5(s[i]) else if n == 3 then Bits4(s[i]) else Bits3(s[i]), s, i + 1, n - 1)
    ensures var n := Length8(s[i]);
            WellFormedAt(s, i) <==> (n == 2 ==> c >= 0x80) && (n == 3 ==> c >= 0x800) && (n == 4 ==> c >= 0x1_0000) && Scalar(c)
    ensures WellFormedAt(s, i) ==> c == ValueAt(s, i)
  {
    LeadsApart(s, i);
    hide Utf8Two, Utf8Three, Utf8Four, IsTail, IsLead2, IsLead3, IsLead4, Bits3, Bits4, Bits5, More, Scalar;
    var n := Length8(s[i]);
    var lead := if n == 2 then Bits5(s[i]) else if n == 3 then Bits4(s[i]) else Bits3(s[i]);
    GatheredNone(lead, s, i + 1);
    GatheredNext(lead, s, i + 1, 0);
    if n == 2 {
      TwoAccepted(s[i], s[i + 1]);
      InRange(c);
    } else if n == 3 {
      GatheredNext(lead, s, i + 1, 1);
      ThreeAccepted(s[i], s[i + 1], s[i + 2]);
    } else {
      GatheredNext(lead, s, i + 1, 1);
      GatheredNext(lead, s, i + 1, 2);
      FourAccepted(s[i], s[i + 1], s[i + 2], s[i + 3]);
      InRange(c);
    }
  }

  lemma InRange(c: bv32)
    ensures c < 0x800 ==> Scalar(c)
    ensures c >= 0x1_0000 ==> (Scalar(c) <==> c <= 0x10_FFFF)
  {
  }

  // -------------------------------------------------------------- writing to a buffer

  datatype Error = OK | INSUFFICIENT_SPACE | INVALID_STRING

  function AtLeastZero(n: int): nat {
    if n < 0 then 0 else n
  }

  /** The first n elements of data stand at offset i, and nothing else changed. */
  ghost predicate Placed<T>(was: seq<T>, now: seq<T>, i: nat, data: seq<T>, n: nat) {
    && i + n <= |was| == |now| && n <= |data|
    && now == was[..i] + data[..n] + was[i + n..]
  }

  /** All of the data was stored, or as much as there was room for. */
  ghost predicate PutAll<T>(was: seq<T>, now: seq<T>, i: nat, data: seq<T>, dstSize: int, error: Error, length: nat) {
    && error == (if |data| <= dstSize then OK else INSUFFICIENT_SPACE)
    && length == (if |data| <= dstSize then |data| else AtLeastZero(dstSize))
    && Placed(was, now, i, data, length)
  }

  lemma PutFully<T>(was: seq<T>, now: seq<T>, i: nat, data: seq<T>, dstSize: int)
    requires Placed(was, now, i, data, |data|) && |data| <= dstSize
    ensures PutAll(was, now, i, data, dstSize, OK, |data|)
  {
  }

  lemma PutShort<T>(was: seq<T>, now: seq<T>, i: nat, data: seq<T>, dstSize: int, length: nat)
    requires Placed(was, now, i, data, length) && dstSize <= length < |data| && length <= AtLeastZero(dstSize)
    ensures PutAll(was, now, i, data, dstSize, INSUFFICIENT_SPACE, length)
  {
  }

  lemma NonePlaced<T>(was: seq<T>, i: nat, data: seq<T>)
    requires i <= |was|
    ensures Placed(was, was, i, data, 0)
  {
  }

  /** The next element stored after those already there, if there is room. */
  method Put<T>(dst: array<T>, at: nat, length: nat, dstSize: int, x: T, ghost was: seq<T>, ghost data: seq<T>) returns (stored: bool)
    requires at + AtLeastZero(dstSize) <= dst.Length && length <= AtLeastZero(dstSize)
    requires Placed(was, dst[..], at, data, length) && length < |data| && data[length] == x
    modifies dst
    ensures stored == (length < dstSize)
    ensures Placed(was, dst[..], at, data, if stored then length + 1 else length)
  {
    if length >= dstSize {
      return false;
    }
    dst[at + length] := x;
    return true;
  }

  function Byte(x: bv32): bv8 {
    (x & 0xFF) as bv8
  }

  function Unit(x: bv32): bv16 {
    (x & 0xFFFF) as bv16
  }

  function Mark2(c: bv32): bv8 {
    Byte((c >> 6) | 0xC0)
  }

  function Mark3(c: bv32): bv8 {
    Byte((c >> 12) | 0xE0)
  }

  function Mark4(c: bv32): bv8 {
    Byte((c >> 18) | 0xF0)
  }

  function Tail12(c: bv32): bv8 {
    Byte(((c >> 12) & 0x3F) | 0x80)
  }

  function Tail6(c: bv32): bv8 {
    Byte(((c >> 6) & 0x3F) | 0x80)
  }

  function Tail0(c: bv32): bv8 {
    Byte((c & 0x3F) | 0x80)
  }

  lemma Marks(c: bv32)
    ensures c < 0x80 ==> Byte(c) == c as bv8
    ensures c < 0x800 ==> Mark2(c) == Lead2(Front(c))
    ensures c < 0x1_0000 ==> Mark3(c) == Lead3(Front(Front(c)))
    ensures c < 0x20_0000 ==> Mark4(c) == Lead4(Front(Front(Front(c))))
    ensures Tail12(c) == Last(Front(Front(c))) && Tail6(c) == Last(Front(c)) && Tail0(c) == Last(c)
  {
  }

  /** The bytes that the branches of the encoder store are the encoding of RFC 3629. */
  lemma EncodedBy(c: bv32)
    requires Scalar(c)
    ensures var e := Encode(c); c < 0x80 ==> |e| == 1 && e[0] == Byte(c)
    ensures var e := Encode(c); 0x80 <= c < 0x800 ==> |e| == 2 && e[0] == Mark2(c) && e[1] == Tail0(c)
    ensures var e := Encode(c); 0x800 <= c < 0x1_0000 ==> |e| == 3 && e[0] == Mark3(c) && e[1] == Tail6(c) && e[2] == Tail0(c)
    ensures var e := Encode(c); 0x1_0000 <= c ==> |e| == 4 && e[0] == Mark4(c) && e[1] == Tail12(c) && e[2] == Tail6(c) && e[3] == Tail0(c)
  {
    Marks(c);
    hide Byte, Mark2, Mark3, Mark4, Tail12, Tail6, Tail0, Front, Last, Lead2, Lead3, Lead4;
  }

  method PutUtf8(dst: array<bv8>, at: nat, c: bv32, dstSize: int) returns (error: Error, length: nat)
    requires at + AtLeastZero(dstSize) <= dst.Length
    modifies dst
    ensures !Scalar(c) ==> error == INVALID_STRING && length == 0 && dst[..] == old(dst[..])
    ensures Scalar(c) ==> PutAll(old(dst[..]), dst[..], at, Encode(c), dstSize, error, length)
  {
    if 0xD800 <= c <= 0xDFFF {
      return INVALID_STRING, 0;
    }
    if c > 0x10_FFFF {
      return INVALID_STRING, 0;
    }
    length := 0;
    hide Byte, Mark2, Mark3, Mark4, Tail12, Tail6, Tail0, Encode, Placed, PutAll, AtLeastZero;
    ghost var was, e := dst[..], Encode(c);
    NonePlaced(was, at, e);
    EncodedBy(c);
    var stored;
    if c < 0x80 {
      stored := Put(dst, at, length, dstSize, Byte(c), was, e);
      if !stored {
        PutShort(was, dst[..], at, e, dstSize, length);
        return INSUFFICIENT_SPACE, length;
      }
      PutFully(was, dst[..], at, e, dstSize);
      return OK, length + 1;
    }
    stored, length := PutFront(dst, at, c, dstSize, was);
    if !stored {
      PutShort(was, dst[..], at, e, dstSize, length);
      return INSUFFICIENT_SPACE, length;
    }
    stored := Put(dst, at, length, dstSize, Tail0(c), was, e);
    if !stored {
      PutShort(was, dst[..], at, e, dstSize, length);
      return INSUFFICIENT_SPACE, length;
    }
    PutFully(was, dst[..], at, e, dstSize);
    return OK, length + 1;
  }

  /** All but the last byte of a code point that takes more than one. */
  method PutFront(dst: array<bv8>, at: nat, c: bv32, dstSize: int, ghost was: seq<bv8>) returns (stored: bool, length: nat)
    requires at + AtLeastZero(dstSize) <= dst.Length && Scalar(c) && c >= 0x80 && Placed(was, dst[..], at, Encode(c), 0)
    modifies dst
    ensures length < |Encode(c)| && length <= AtLeastZero(dstSize) && Placed(was, dst[..], at, Encode(c), length)
    ensures if stored then length == |Encode(c)| - 1 && Encode(c)[length] == Tail0(c) else dstSize <= length
  {
    hide Byte, Mark2, Mark3, Mark4, Tail12, Tail6, Tail0, Encode, Placed, Scalar;
    EncodedBy(c);
    ghost var e := Encode(c);
    length := 0;
    if c < 0x800 {
      stored := Put(dst, at, 0, dstSize, Mark2(c), was, e);
    } else if c < 0x1_0000 {
      stored := Put(dst, at, 0, dstSize, Mark3(c), was, e);
      if stored {
        length := 1;
        stored := Put(dst, at, 1, dstSize, Tail6(c), was, e);
      }
    } else {
      stored := Put(dst, at, 0, dstSize, Mark4(c), was, e);
      if stored {
        length := 1;
        stored := Put(dst, at, 1, dstSize, Tail12(c), was, e);
      }
      if stored {
        length := 2;
        stored := Put(dst, at, 2, dstSize, Tail6(c), was, e);
      }
    }
    if stored {
      length := length + 1;
    }
  }

  // -------------------------------------------------------------- converting strings

  /** The text and its terminator, or the text up to where the source is not well formed. */
  function Full<T>(out: seq<T>, valid: bool, nul: T): seq<T> {
    if valid then out + [nul] else out
  }

  /** All of it was stored, or as much as there was room for, and the error says which and why. */
  ghost predicate Converted<T>(out: seq<T>, valid: bool, nul: T, was: seq<T>, now: seq<T>, dstSize: int, error: Error, length: nat) {
    var full, room := Full(out, valid, nul), AtLeastZero(dstSize);
    && error == (if |full| > room then INSUFFICIENT_SPACE else if valid then OK else INVALID_STRING)
    && length == (if |full| > room then room else |out|)
    && Placed(was, now, 0, full, if |full| > room then room else |full|)
  }

  /** Which error it is, how much is stored, and what: the text and a terminator, as far as there is room. */
  lemma ConvertedIs<T>(out: seq<T>, valid: bool, nul: T, was: seq<T>, now: seq<T>, dstSize: int, error: Error, length: nat)
    requires dstSize <= |was| == |now|
    ensures var full, room := if valid then out + [nul] else out, if dstSize < 0 then 0 else dstSize;
      Converted(out, valid, nul, was, now, dstSize, error, length) <==>
        if |full| > room then error == INSUFFICIENT_SPACE && length == room && now == full[..room] + was[room..]
        else error == (if valid then OK else INVALID_STRING) && length == |out| && now == full + was[|full|..]
  {
  }

  lemma ConvertedShort<T>(out: seq<T>, valid: bool, nul: T, was: seq<T>, now: seq<T>, dstSize: int, length: nat)
    requires Placed(was, now, 0, Full(out, valid, nul), length) && length < |Full(out, valid, nul)|
    requires dstSize <= length <= AtLeastZero(dstSize)
    ensures Converted(out, valid, nul, was, now, dstSize, INSUFFICIENT_SPACE, length)
  {
  }

  lemma ConvertedFully<T>(out: seq<T>, valid: bool, nul: T, was: seq<T>, now: seq<T>, dstSize: int)
    requires Placed(was, now, 0, Full(out, valid, nul), |Full(out, valid, nul)|) && |Full(out, valid, nul)| <= AtLeastZero(dstSize)
    ensures Converted(out, valid, nul, was, now, dstSize, if valid then OK else INVALID_STRING, |out|)
  {
  }

  function Snoc(done: seq<bv32>, c: bv32): seq<bv32> {
    done + [c]
  }

  lemma StorableParts(done: seq<bv32>, rest: seq<bv32>)
    requires Storable(done + rest)
    ensures Storable(done) && Storable(rest)
  {
    assert forall x :: x in done || x in rest ==> x in done + rest;
  }

  lemma LastStored(points: seq<bv32>, c: bv32)
    requires Storable(points + [c])
    ensures Storable(points) && Scalar(c)
    ensures Units(points + [c]) == Units(points) + Encode16(c)
    ensures Bytes(points + [c]) == Bytes(points) + Encode(c)
  {
    hide Encode, Encode16, Scalar;
    StorableParts(points, [c]);
    assert c in [c];
    assert (points + [c])[..|points|] == points;
  }

  lemma {:induction false} StoredByParts(done: seq<bv32>, rest: seq<bv32>)
    requires Storable(done + rest)
    ensures Storable(done) && Storable(rest)
    ensures Units(done + rest) == Units(done) + Units(rest)
    ensures Bytes(done + rest) == Bytes(done) + Bytes(rest)
  {
    hide Encode, Encode16, Storable, Units, Bytes;
    StorableParts(done, rest);
    if rest == [] {
      NoBytes();
      assert done + rest == done;
    } else {
      var n := |rest| - 1;
      assert rest == rest[..n] + [rest[n]];
      assert done + rest == (done + rest[..n]) + [rest[n]];
      LastStored(rest[..n], rest[n]);
      LastStored(done + rest[..n], rest[n]);
      StoredByParts(done, rest[..n]);
    }
  }

  lemma Regroup<T>(a: seq<T>, x: T, b: seq<T>)
    ensures a + ([x] + b) == a + [x] + b
  {
  }

  lemma NextPart<T>(a: seq<T>, e: seq<T>, b: seq<T>, valid: bool, nul: T)
    ensures Next(Full(a + (e + b), valid, nul), |a|, e, |a + e|)
  {
    var all := a + (e + b);
    assert Full(all, valid, nul)[..|all|] == all;
    assert all[|a|..|a + e|] == e;
  }

  /** What is to be stored for the next code point. */
  lemma NextUnits(done: seq<bv32>, c: bv32, rest: seq<bv32>, valid: bool)
    requires Storable(done + ([c] + rest))
    ensures Storable(done) && Storable(Snoc(done, c)) && Scalar(c)
    ensures Next(Full(Units(done + ([c] + rest)), valid, 0), |Units(done)|, Encode16(c), |Units(Snoc(done, c))|)
  {
    hide Encode16, Units, Storable, Next, Full, Scalar;
    StoredByParts(done, [c] + rest);
    UnitsCons(c, rest);
    NextPart(Units(done), Encode16(c), Units(rest), valid, 0);
    Regroup(done, c, rest);
    StorableParts(Snoc(done, c), rest);
    LastStored(done, c);
  }

  lemma NextBytes(done: seq<bv32>, c: bv32, rest: seq<bv32>, valid: bool)
    requires Storable(done + ([c] + rest))
    ensures Storable(done) && Storable(Snoc(done, c)) && Scalar(c)
    ensures Next(Full(Bytes(done + ([c] + rest)), valid, 0), |Bytes(done)|, Encode(c), |Bytes(Snoc(done, c))|)
  {
    hide Encode, Bytes, Storable, Next, Full, Scalar;
    StoredByParts(done, [c] + rest);
    BytesCons(c, rest);
    NextPart(Bytes(done), Encode(c), Bytes(rest), valid, 0);
    Regroup(done, c, rest);
    StorableParts(Snoc(done, c), rest);
    LastStored(done, c);
  }

  ghost predicate Next<T>(full: seq<T>, n: nat, e: seq<T>, m: nat) {
    n + |e| == m <= |full| && full[n..m] == e
  }

  function LeadCode(c: bv32): bv16 {
    Unit(0xD800 - (0x1_0000 >> 10) + (c >> 10))
  }

  function TrailCode(c: bv32): bv16 {
    Unit(0xDC00 + (c & 0x3FF))
  }

  lemma ToStore16(t: Text, done: seq<bv32>, c: bv32, rest: seq<bv32>, full: seq<bv16>)
    requires Storable(t.points) && t.points == done + ([c] + rest) && full == Full(Units(t.points), t.valid, 0)
    ensures Storable(done) && Storable(Snoc(done, c)) && Scalar(c)
    ensures Next(full, |Units(done)|, Encode16(c), |Units(Snoc(done, c))|)
  {
    hide Encode16, Storable, Units, Full, Next, Scalar;
    NextUnits(done, c, rest, t.valid);
  }

  lemma UnitsBy(c: bv32)
    requires Scalar(c)
    ensures var e := Encode16(c); c <= 0xFFFF ==> |e| == 1 && e[0] == Unit(c)
    ensures var e := Encode16(c); c > 0xFFFF ==> |e| == 2 && e[0] == LeadCode(c) && e[1] == TrailCode(c)
  {
    if c > 0xFFFF {
      LeadBy(c);
      TrailBy(c);
      hide LeadOf, TrailOf, LeadCode, TrailCode;
    } else {
      UnitBy(c);
      hide Unit;
    }
  }

  lemma UnitBy(c: bv32)
    requires c <= 0xFFFF
    ensures Unit(c) == c as bv16
  {
  }

  lemma LeadBy(c: bv32)
    requires 0x1_0000 <= c <= 0x10_FFFF
    ensures LeadOf(c) == LeadCode(c)
  {
  }

  lemma TrailBy(c: bv32)
    ensures TrailOf(c) == TrailCode(c)
  {
  }

  /** Where the decoder stands: done has been read, and what the rest of the source holds is still to come. */
  ghost predicate Left8(t: Text, done: seq<bv32>, s: seq<bv8>, i: nat) {
    t == Text(done + Text8(s, i).points, Text8(s, i).valid)
  }

  lemma Step8Left(t: Text, done: seq<bv32>, s: seq<bv8>, i: nat, c: bv32, next: nat)
    requires Left8(t, done, s, i) && Read8(s, i, c, next)
    ensures c == 0 || c == INVALID ==> t == Text(done, c == 0)
    ensures c != 0 && c != INVALID ==> Left8(t, Snoc(done, c), s, next) && t.points == done + ([c] + Text8(s, next).points)
  {
    TextNext8(s, i, c);
    hide Text8, WellFormedAt, ValueAt;
    if c == 0 || c == INVALID {
      assert done + [] == done;
    } else {
      Regroup(done, c, Text8(s, next).points);
    }
  }

  lemma Step8(t: Text, done: seq<bv32>, s: seq<bv8>, i: nat, c: bv32, next: nat, full: seq<bv16>)
    requires Left8(t, done, s, i) && Read8(s, i, c, next)
    requires Storable(t.points) && full == Full(Units(t.points), t.valid, 0)
    ensures c == 0 || c == INVALID ==> t == Text(done, c == 0)
    ensures c != 0 && c != INVALID ==> Left8(t, Snoc(done, c), s, next) && Storable(done) && Storable(Snoc(done, c)) && Scalar(c)
    ensures c != 0 && c != INVALID ==> Next(full, |Units(done)|, Encode16(c), |Units(Snoc(done, c))|)
  {
    hide Storable, Units, Full, Left8, Read8, Scalar, Next, Encode16;
    Step8Left(t, done, s, i, c, next);
    if c != 0 && c != INVALID {
      ToStore16(t, done, c, Text8(s, next).points, full);
    }
  }

  lemma PlacedNext<T>(was: seq<T>, mid: seq<T>, now: seq<T>, full: seq<T>, n: nat, e: seq<T>, m: nat, k: nat)
    requires Placed(was, mid, 0, full, n) && Next(full, n, e, m) && Placed(mid, now, n, e, k)
    ensures Placed(was, now, 0, full, n + k)
  {
    assert full[..n + k] == full[..n] + full[n..m][..k];
    assert mid[..n] == full[..n] && mid[n + k..] == was[n + k..];
  }

  /** What storing one code point means for the conversion. */
  lemma StoredNext<T>(out: seq<T>, valid: bool, nul: T, was: seq<T>, mid: seq<T>, now: seq<T>, n: nat, e: seq<T>, m: nat, dstSize: int,
                      result: Error, count: nat)
    requires Next(Full(out, valid, nul), n, e, m) && |e| > 0
    requires Placed(was, mid, 0, Full(out, valid, nul), n) && n <= AtLeastZero(dstSize)
    requires PutAll(mid, now, n, e, dstSize - n, result, count)
    ensures result == OK ==> n + count == m <= AtLeastZero(dstSize) && Placed(was, now, 0, Full(out, valid, nul), m)
    ensures result != OK ==> Converted(out, valid, nul, was, now, dstSize, result, n + count)
  {
    hide Placed, Full;
    PlacedNext(was, mid, now, Full(out, valid, nul), n, e, m, count);
    if result != OK {
      ConvertedShort(out, valid, nul, was, now, dstSize, n + count);
    }
  }

  /** The end of both conversions: the terminator, which is not counted in the length. */
  method PutEnd<T>(dst: array<T>, done: nat, dstSize: int, nul: T, ghost was: seq<T>, ghost out: seq<T>)
    returns (error: Error, length: nat)
    requires done == |out| <= AtLeastZero(dstSize) <= dst.Length && Placed(was, dst[..], 0, Full(out, true, nul), done)
    modifies dst
    ensures Converted(out, true, nul, was, dst[..], dstSize, error, length)
  {
    length := done;
    var stored := Put(dst, 0, length, dstSize, nul, was, Full(out, true, nul));
    if !stored {
      return INSUFFICIENT_SPACE, length;
    }
    length := length + 1;
    return OK, length - 1;
  }

  /** The branches of the conversion that store a code point as one unit or two. */
  method PutUtf16(dst: array<bv16>, at: nat, c: bv32, dstSize: int) returns (error: Error, length: nat)
    requires at + AtLeastZero(dstSize) <= dst.Length && Scalar(c)
    modifies dst
    ensures PutAll(old(dst[..]), dst[..], at, Encode16(c), dstSize, error, length) && |Encode16(c)| > 0
  {
    UnitsBy(c);
    hide LeadCode, TrailCode, Unit, Encode16, Placed, PutAll, Scalar;
    ghost var was, e := dst[..], Encode16(c);
    NonePlaced(was, at, e);
    length := 0;
    var stored;
    if c > 0xFFFF {
      stored := Put(dst, at, length, dstSize, LeadCode(c), was, e);
      if !stored {
        PutShort(was, dst[..], at, e, dstSize, length);
        return INSUFFICIENT_SPACE, length;
      }
      length := length + 1;
      stored := Put(dst, at, length, dstSize, TrailCode(c), was, e);
      if !stored {
        PutShort(was, dst[..], at, e, dstSize, length);
        return INSUFFICIENT_SPACE, length;
      }
      length := length + 1;
    } else {
      stored := Put(dst, at, length, dstSize, Unit(c), was, e);
      if !stored {
        PutShort(was, dst[..], at, e, dstSize, length);
        return INSUFFICIENT_SPACE, length;
      }
      length := length + 1;
    }
    PutFully(was, dst[..], at, e, dstSize);
    return OK, length;
  }

  method Utf8ToUtf16(dst: array<bv16>, dstSize: int, src: seq<bv8>) returns (error: Error, length: nat)
    requires AtLeastZero(dstSize) <= dst.Length && NulFrom(src, 0)
    modifies dst
    ensures Storable(Text8(src, 0).points)
    ensures var t := Text8(src, 0); Converted(Units(t.points), t.valid, 0, old(dst[..]), dst[..], dstSize, error, length)
  {
    hide Encode16, Units, Placed, PutAll, NulFrom, Storable, Converted, Full, Next, Scalar;
    hide Text8, Left8, Read8, StopsAtNul, Snoc;
    ghost var t, was := Text8(src, 0), dst[..];
    BytesOfText(src, 0);
    ghost var out, done: seq<bv32> := Units(t.points), [];
    ghost var full := Full(out, t.valid, 0);
    NonePlaced(was, 0, full);
    NoneRead(src);
    FullEnds(out, t.valid, 0);
    length := 0;
    var it := 0;
    while true
      invariant it <= |src| && NulFrom(src, it) && Left8(t, done, src, it)
      invariant Storable(done) && length == |Units(done)| <= AtLeastZero(dstSize) && Placed(was, dst[..], 0, full, length)
      decreases |src| - it
    {
      var c;
      ghost var at := it;
      NulAhead(src, it);
      c, it := NextUtf8(src, it, false);
      Step8(t, done, src, at, c, it, full);
      if c == 0 {
        break;
      }
      if c == INVALID {
        ConvertedFully(out, t.valid, 0, was, dst[..], dstSize);
        return INVALID_STRING, length;
      }
      ghost var mid, more := dst[..], |Units(Snoc(done, c))|;
      var result, count := PutUtf16(dst, length, c, dstSize - length);
      StoredNext(out, t.valid, 0, was, mid, dst[..], length, Encode16(c), more, dstSize, result, count);
      length := length + count;
      if result != OK {
        return result, length;
      }
      done := Snoc(done, c);
    }
    error, length := PutEnd(dst, length, dstSize, 0, was, out);
  }

  lemma NulAhead(s: seq<bv8>, i: nat)
    requires NulFrom(s, i)
    ensures i < |s|
  {
  }

  lemma NoneRead(s: seq<bv8>)
    ensures Left8(Text8(s, 0), [], s, 0) && Storable([]) && Units([]) == [] && Bytes([]) == []
  {
  }

  lemma FullEnds<T>(out: seq<T>, valid: bool, nul: T)
    ensures valid ==> |Full(out, valid, nul)| == |out| + 1 && Full(out, valid, nul)[|out|] == nul
    ensures !valid ==> Full(out, valid, nul) == out
  {
  }

  /** What the decoder's answer means for the rest of the text. */
  lemma TextNext8(s: seq<bv8>, i: nat, c: bv32)
    requires i < |s| && c == (if WellFormedAt(s, i) then ValueAt(s, i) else INVALID)
    ensures c == 0 ==> Text8(s, i) == Text([], true)
    ensures c == INVALID ==> Text8(s, i) == Text([], false)
    ensures c != 0 && c != INVALID ==> i + Length8(s[i]) <= |s|
    ensures c != 0 && c != INVALID ==>
      Text8(s, i) == Text([c] + Text8(s, i + Length8(s[i])).points, Text8(s, i + Length8(s[i])).valid)
  {
    if WellFormedAt(s, i) {
      WellFormedIsEncoded(s, i);
    }
    hide ValueAt;
  }

  ghost predicate NulUnitFrom(s: seq<bv16>, i: nat) {
    exists j :: i <= j < |s| && s[j] == 0
  }

  lemma NulUnitAhead(s: seq<bv16>, i: nat)
    requires NulUnitFrom(s, i)
    ensures i < |s| && (s[i] != 0 ==> NulUnitFrom(s, i + 1))
  {
  }

  ghost predicate Left16(t: Text, done: seq<bv32>, s: seq<bv16>, i: nat) {
    t == Text(done + Text16(s, i).points, Text16(s, i).valid)
  }

  lemma NoUnitRead(s: seq<bv16>)
    ensures Left16(Text16(s, 0), [], s, 0) && Storable([]) && Bytes([]) == []
  {
  }

  lemma Widened(u: bv16)
    ensures u as bv32 == 0 <==> u == 0
    ensures 0xD800 <= u as bv32 <= 0xDBFF <==> Lead16(u)
    ensures 0xDC00 <= u as bv32 <= 0xDFFF <==> Trail16(u)
    ensures (u as bv32) < 0x80 ==> !Lead16(u) && !Trail16(u)
    ensures Lead16(u) ==> !Trail16(u) && u != 0
  {
  }

  function PairCode(c: bv32, next: bv32): bv32 {
    (c << 10) + next + (0x1_0000 - (0xD800 << 10) - 0xDC00)
  }

  lemma PairBy(u: bv16, v: bv16)
    requires Lead16(u) && Trail16(v)
    ensures PairCode(u as bv32, v as bv32) == PairOf(u, v)
  {
  }

  /** The terminator, or a unit that starts nothing well formed, ends the text. */
  lemma Ends16Left(t: Text, done: seq<bv32>, s: seq<bv16>, i: nat)
    requires Left16(t, done, s, i) && i < |s| && (s[i] == 0 || !WellFormed16At(s, i))
    ensures t == Text(done, s[i] == 0)
  {
    assert done + [] == done;
    if s[i] == 0 {
      ZeroUnit(s, i);
    }
  }

  lemma Step16Left(t: Text, done: seq<bv32>, s: seq<bv16>, i: nat, c: bv32, next: nat)
    requires Left16(t, done, s, i) && i < |s| && s[i] != 0 && WellFormed16At(s, i)
    requires c == Value16At(s, i) && next == i + Length16(s[i])
    ensures Left16(t, Snoc(done, c), s, next) && t.points == done + ([c] + Text16(s, next).points)
  {
    hide Value16At, WellFormed16At;
    Regroup(done, c, Text16(s, next).points);
  }

  lemma ToStore8(t: Text, done: seq<bv32>, c: bv32, rest: seq<bv32>, full: seq<bv8>)
    requires Storable(t.points) && t.points == done + ([c] + rest) && full == Full(Bytes(t.points), t.valid, 0)
    ensures Storable(done) && Storable(Snoc(done, c)) && Scalar(c)
    ensures Next(full, |Bytes(done)|, Encode(c), |Bytes(Snoc(done, c))|)
  {
    hide Encode, Storable, Bytes, Full, Scalar;
    NextBytes(done, c, rest, t.valid);
  }

  predicate InLeads(c: bv32) {
    0xD800 <= c <= 0xDBFF
  }

  predicate InTrails(c: bv32) {
    0xDC00 <= c <= 0xDFFF
  }

  predicate InAscii(c: bv32) {
    c < 0x80
  }

  /** What the branches on a unit, as a number, tell about the text. */
  lemma ReadAlone(s: seq<bv16>, i: nat, c: bv32)
    requires i < |s| && c == s[i] as bv32 && !InLeads(c) && !InTrails(c)
    ensures WellFormed16At(s, i) && Value16At(s, i) == c && Length16(s[i]) == 1 && (c == 0 <==> s[i] == 0)
  {
    Widened(s[i]);
    hide Lead16, Trail16;
  }

  lemma ReadPair(s: seq<bv16>, i: nat, c: bv32, next: bv32)
    requires i + 1 < |s| && c == s[i] as bv32 && next == s[i + 1] as bv32 && InLeads(c)
    ensures s[i] != 0
    ensures WellFormed16At(s, i) <==> InTrails(next)
    ensures WellFormed16At(s, i) ==> Value16At(s, i) == PairCode(c, next) && Length16(s[i]) == 2 && s[i + 1] != 0
  {
    Widened(s[i]);
    Widened(s[i + 1]);
    if Trail16(s[i + 1]) {
      PairBy(s[i], s[i + 1]);
      LowZero(s[i + 1]);
    }
    hide Lead16, Trail16, PairOf, PairCode;
  }

  lemma AsciiAlone(c: bv32)
    requires c == 0 || InAscii(c)
    ensures !InLeads(c) && !InTrails(c)
  {
  }

  lemma LowZero(u: bv16)
    requires Trail16(u)
    ensures u != 0
  {
  }

  lemma ReadTrail(s: seq<bv16>, i: nat, c: bv32)
    requires i < |s| && c == s[i] as bv32 && InTrails(c)
    ensures !WellFormed16At(s, i) && s[i] != 0
  {
    Widened(s[i]);
    LowZero(s[i]);
    hide Lead16, Trail16;
  }

  lemma LeadAhead(s: seq<bv16>, i: nat, c: bv32)
    requires i < |s| && c == s[i] as bv32 && InLeads(c)
    ensures s[i] != 0
  {
    Widened(s[i]);
  }

  lemma NotZero(s: seq<bv16>, i: nat)
    requires i < |s| && WellFormed16At(s, i)
    ensures Scalar(Value16At(s, i)) && Value16At(s, i) != INVALID && (Value16At(s, i) == 0 <==> s[i] == 0)
  {
    WellFormed16IsEncoded(s, i);
    hide WellFormed16At, Value16At;
  }

  lemma Step16(t: Text, done: seq<bv32>, s: seq<bv16>, i: nat, c: bv32, next: nat, full: seq<bv8>)
    requires Left16(t, done, s, i) && Read16(s, i, c, next)
    requires Storable(t.points) && full == Full(Bytes(t.points), t.valid, 0)
    ensures c == 0 || c == INVALID ==> t == Text(done, c == 0)
    ensures c != 0 && c != INVALID ==> Left16(t, Snoc(done, c), s, next) && Storable(done) && Storable(Snoc(done, c)) && Scalar(c)
    ensures c != 0 && c != INVALID ==> Next(full, |Bytes(done)|, Encode(c), |Bytes(Snoc(done, c))|)
  {
    hide Encode, Storable, Bytes, Full, Scalar, Left16, Next, WellFormed16At, Value16At, Length16;
    if WellFormed16At(s, i) {
      NotZero(s, i);
    }
    if c == 0 || c == INVALID {
      Ends16Left(t, done, s, i);
    } else {
      Step16Left(t, done, s, i, c, next);
      ToStore8(t, done, c, Text16(s, next).points, full);
    }
  }

  ghost predicate Read16(s: seq<bv16>, i: nat, c: bv32, next: nat) {
    && i < |s|
    && (WellFormed16At(s, i) ==> c == Value16At(s, i) && next == i + Length16(s[i]))
    && (!WellFormed16At(s, i) ==> c == INVALID && s[i] != 0)
  }

  /** The part of the conversion loop that reads: a unit, or a pair of surrogates. */
  method NextUtf16(src: seq<bv16>, it: nat) returns (c: bv32, next: nat)
    requires NulUnitFrom(src, it)
    ensures Read16(src, it, c, next) && it < next <= |src|
    ensures c != 0 && c != INVALID ==> src[it] != 0 && NulUnitFrom(src, next)
  {
    hide NulUnitFrom, WellFormed16At, Value16At, Length16, PairCode, InLeads, InTrails, InAscii;
    NulUnitAhead(src, it);
    c, next := src[it] as bv32, it + 1;
    if c == 0 || InAscii(c) {
      AsciiAlone(c);
      ReadAlone(src, it, c);
      return;
    }
    if InLeads(c) {
      LeadAhead(src, it, c);
      NulUnitAhead(src, next);
      var trail := src[next] as bv32;
      next := next + 1;
      ReadPair(src, it, c, trail);
      if !InTrails(trail) {
        return INVALID, next;
      }
      c := PairCode(c, trail);
    } else if InTrails(c) {
      ReadTrail(src, it, c);
      return INVALID, next;
    } else {
      ReadAlone(src, it, c);
      Widened(src[it]);
    }
  }

  lemma AsciiNext(full: seq<bv8>, n: nat, c: bv32, m: nat)
    requires InAscii(c) && Scalar(c) && Next(full, n, Encode(c), m)
    ensures n < |full| && m == n + 1 && full[n] == Byte(c)
  {
    hide Encode, Byte, Scalar;
    EncodedBy(c);
    assert full[n] == full[n..m][0];
  }

  /** The part of the conversion loop that stores: an ASCII character at once, any other code point as its bytes. */
  method AppendUtf8(dst: array<bv8>, done: nat, c: bv32, dstSize: int, ghost was: seq<bv8>, ghost out: seq<bv8>, ghost valid: bool,
                    ghost more: nat)
    returns (result: Error, length: nat)
    requires Scalar(c) && Next(Full(out, valid, 0), done, Encode(c), more)
    requires done <= AtLeastZero(dstSize) <= dst.Length && Placed(was, dst[..], 0, Full(out, valid, 0), done)
    modifies dst
    ensures result == OK ==> length == more <= AtLeastZero(dstSize) && Placed(was, dst[..], 0, Full(out, valid, 0), length)
    ensures result != OK ==> Converted(out, valid, 0, was, dst[..], dstSize, result, length)
  {
    hide Byte, Encode, Placed, PutAll, Converted, Full, Next, Scalar, InAscii;
    ghost var full := Full(out, valid, 0);
    if InAscii(c) {
      AsciiNext(full, done, c, more);
      var stored := Put(dst, 0, done, dstSize, Byte(c), was, full);
      if !stored {
        ConvertedShort(out, valid, 0, was, dst[..], dstSize, done);
        return INSUFFICIENT_SPACE, done;
      }
      return OK, done + 1;
    }
    ghost var mid := dst[..];
    var count;
    result, count := PutUtf8(dst, done, c, dstSize - done);
    EncodedBy(c);
    StoredNext(out, valid, 0, was, mid, dst[..], done, Encode(c), more, dstSize, result, count);
    length := done + count;
  }

  method Utf16ToUtf8(dst: array<bv8>, dstSize: int, src: seq<bv16>) returns (error: Error, length: nat)
    requires AtLeastZero(dstSize) <= dst.Length && NulUnitFrom(src, 0)
    modifies dst
    ensures Storable(Text16(src, 0).points)
    ensures var t := Text16(src, 0); Converted(Bytes(t.points), t.valid, 0, old(dst[..]), dst[..], dstSize, error, length)
  {
    hide Byte, Encode, Bytes, Placed, PutAll, NulUnitFrom, Storable, Converted, Full, Next, Scalar;
    hide Text16, Left16, Read16, InAscii, Snoc;
    ghost var t, was := Text16(src, 0), dst[..];
    UnitsOfText(src, 0);
    ghost var out, done: seq<bv32> := Bytes(t.points), [];
    ghost var full := Full(out, t.valid, 0);
    NonePlaced(was, 0, full);
    NoUnitRead(src);
    FullEnds(out, t.valid, 0);
    length := 0;
    var it := 0;
    while true
      invariant it <= |src| && NulUnitFrom(src, it) && Left16(t, done, src, it)
      invariant Storable(done) && length == |Bytes(done)| <= AtLeastZero(dstSize) && Placed(was, dst[..], 0, full, length)
      decreases |src| - it
    {
      ghost var at := it;
      var c;
      c, it := NextUtf16(src, it);
      Step16(t, done, src, at, c, it, full);
      if c == 0 {
        break;
      }
      if c == INVALID {
        ConvertedFully(out, t.valid, 0, was, dst[..], dstSize);
        return INVALID_STRING, length;
      }
      var result;
      result, length := AppendUtf8(dst, length, c, dstSize, was, out, t.valid, |Bytes(Snoc(done, c))|);
      if result != OK {
        return result, length;
      }
      done := Snoc(done, c);
    }
    error, length := PutEnd(dst, length, dstSize, 0, was, out);
  }

  // -------------------------------------------------------------- validation, and both conversions in turn

  lemma StepBytes(t: Text, done: seq<bv32>, s: seq<bv8>, i: nat, c: bv32, next: nat)
    requires Left8(t, done, s, i) && Read8(s, i, c, next) && Storable(t.points) && i == |Bytes(done)| && Storable(done)
    ensures c == 0 || c == INVALID ==> t == Text(done, c == 0)
    ensures c != 0 && c != INVALID ==> Left8(t, Snoc(done, c), s, next) && Storable(Snoc(done, c)) && next == |Bytes(Snoc(done, c))|
  {
    hide Storable, Left8, Encode, ValueAt, Bytes, Text8, WellFormedAt;
    Step8Left(t, done, s, i, c, next);
    if c != 0 && c != INVALID {
      ToStore8(t, done, c, Text8(s, next).points, Full(Bytes(t.points), t.valid, 0));
      LastStored(done, c);
      LengthRead(s, i);
    }
  }

  lemma LengthRead(s: seq<bv8>, i: nat)
    requires i < |s| && WellFormedAt(s, i)
    ensures i + Length8(s[i]) <= |s|
    ensures Scalar(ValueAt(s, i)) && |Encode(ValueAt(s, i))| == Length8(s[i])
  {
    WellFormedIsEncoded(s, i);
    hide Encode, Scalar, ValueAt;
  }

  /** The length that is answered counts the terminator; for a string that is not valid, it is how far the decoder looked. */
  method ValidateUtf8(str: seq<bv8>) returns (valid: bool, length: nat)
    requires NulFrom(str, 0)
    ensures Storable(Text8(str, 0).points) && length <= |str|
    ensures valid == Text8(str, 0).valid
    ensures valid ==> str[..length] == Bytes(Text8(str, 0).points) + [0]
    ensures !valid ==> |Bytes(Text8(str, 0).points)| < |str| && length == LookedUpTo(str, |Bytes(Text8(str, 0).points)|)
  {
    hide Text8, Left8, Read8, Storable, Bytes, NulFrom, StopsAtNul, Snoc;
    ghost var t, done: seq<bv32> := Text8(str, 0), [];
    BytesOfText(str, 0);
    NoneRead(str);
    var iter := 0;
    while true
      invariant iter <= |str| && NulFrom(str, iter) && Left8(t, done, str, iter)
      invariant Storable(done) && iter == |Bytes(done)|
      decreases |str| - iter
    {
      ghost var at := iter;
      var codePoint;
      NulAhead(str, iter);
      codePoint, iter := NextUtf8(str, iter, false);
      StepBytes(t, done, str, at, codePoint, iter);
      if codePoint == 0 {
        NulRead(str, at, codePoint, iter);
        return true, iter;
      }
      if codePoint == INVALID {
        return false, iter;
      }
      done := Snoc(done, codePoint);
    }
  }

  lemma NulRead(s: seq<bv8>, i: nat, c: bv32, next: nat)
    requires Read8(s, i, c, next) && c == 0
    ensures s[i] == 0 && next == i + 1
  {
    if WellFormedAt(s, i) {
      WellFormedIsEncoded(s, i);
    }
    hide ValueAt, WellFormedAt;
  }

  /** Both conversions in turn give the string back, whatever valid string it is. */
  method ThereAndBack8(src: seq<bv8>, mid: array<bv16>, dst: array<bv8>) returns (error: Error, length: nat)
    requires NulFrom(src, 0) && Text8(src, 0).valid
    requires Storable(Text8(src, 0).points) ==> |Units(Text8(src, 0).points)| < mid.Length && |Bytes(Text8(src, 0).points)| < dst.Length
    modifies mid, dst
    ensures error == OK && length < |src| && length < dst.Length && src[length] == 0 && dst[..length + 1] == src[..length + 1]
  {
    hide Units, Bytes, Text8, Text16, Encode, Encode16, Storable;
    RoundTrip8(src);
    ghost var points := Text8(src, 0).points;
    error, length := Utf8ToUtf16(mid, mid.Length, src);
    assert mid[..length + 1] == Units(points) + [0];
    TerminatedUnits(mid[..length + 1]);
    error, length := Utf16ToUtf8(dst, dst.Length, mid[..length + 1]);
  }

  lemma TerminatedUnits(s: seq<bv16>)
    requires s != [] && s[|s| - 1] == 0
    ensures NulUnitFrom(s, 0)
  {
  }

  lemma TerminatedBytes(s: seq<bv8>)
    requires s != [] && s[|s| - 1] == 0
    ensures NulFrom(s, 0)
  {
  }

  method ThereAndBack16(src: seq<bv16>, mid: array<bv8>, dst: array<bv16>) returns (error: Error, length: nat)
    requires NulUnitFrom(src, 0) && Text16(src, 0).valid
    requires Storable(Text16(src, 0).points) ==> |Bytes(Text16(src, 0).points)| < mid.Length && |Units(Text16(src, 0).points)| < dst.Length
    modifies mid, dst
    ensures error == OK && length < |src| && length < dst.Length && src[length] == 0 && dst[..length + 1] == src[..length + 1]
  {
    hide Units, Bytes, Text8, Text16, Encode, Encode16, Storable;
    RoundTrip16(src);
    ghost var points := Text16(src, 0).points;
    error, length := Utf16ToUtf8(mid, mid.Length, src);
    assert mid[..length + 1] == Bytes(points) + [0];
    TerminatedBytes(mid[..length + 1]);
    error, length := Utf8ToUtf16(dst, dst.Length, mid[..length + 1]);
  }
}
