/**
 What the password manager keeps: a table of entries, its flat form, and the form in which
 it is stored, the flat table followed by its MD5 digest, enciphered in CBC mode.
 */
module PasswordTable {
  import opened Fips197
  import opened CbcMode
  import opened Rfc1321

  const PASSWORDLENGTH := 32
  const MAXSTORED := 510

  type Field = s: seq<bv8> | |s| == 32 witness seq(32, _ => 0)

  datatype WPTuple = WPTuple(website: Field, password: Field)

  const EMPTY := WPTuple(seq(32, _ => 0), seq(32, _ => 0))

  // -------------------------------------------------------------- C strings

  /** The string that starts a buffer has n bytes before its terminator. */
  ghost predicate IsLength(s: seq<bv8>, n: nat) {
    n < |s| && s[n] == 0 && forall i :: 0 <= i < n ==> s[i] != 0
  }

  function StrLen(s: seq<bv8>): (n: nat)
    requires 0 in s
    ensures IsLength(s, n)
  {
    if s[0] == 0 then 0 else 1 + StrLen(s[1..])
  }

  /** The bytes before the terminator. */
  function Text(s: seq<bv8>): (text: seq<bv8>)
    requires 0 in s
    ensures |text| < |s| && text == s[..|text|] && s[|text|] == 0 && 0 !in text
  {
    s[..StrLen(s)]
  }

  lemma LengthUnique(s: seq<bv8>, m: nat, n: nat)
    requires IsLength(s, m) && IsLength(s, n)
    ensures m == n
  {
  }

  /** A master password, website or site password fits in a field, its terminator included. */
  predicate Fits(s: seq<bv8>) {
    0 in s && StrLen(s) < PASSWORDLENGTH
  }

  /** The string with its terminator, then bytes of all ones. */
  function Filled(s: seq<bv8>): Field
    requires Fits(s)
  {
    s[..StrLen(s) + 1] + seq(31 - StrLen(s), _ => 0xFF)
  }

  /** A field that begins with the text of a string and its terminator, and holds ones behind them. */
  ghost predicate TextThenOnes(b: Field, s: seq<bv8>)
    requires 0 in s
  {
    var n := |Text(s)|;
    n < 32 && b[..n] == Text(s) && b[n] == 0 && forall k :: n < k < 32 ==> b[k] == 0xFF
  }

  lemma FilledIs(s: seq<bv8>)
    requires Fits(s)
    ensures TextThenOnes(Filled(s), s)
  {
    LengthUnique(s, StrLen(s), |Text(s)|);
  }

  /** Two strings fill a field with the same bytes exactly when their texts are the same. */
  lemma SameFieldIff(b: Field, s: seq<bv8>, c: Field, t: seq<bv8>)
    requires 0 in s && 0 in t && TextThenOnes(b, s) && TextThenOnes(c, t)
    ensures b == c <==> Text(s) == Text(t)
  {
    var m, n := |Text(s)|, |Text(t)|;
    if b == c {
      LengthUnique(b, m, n) by {
        assert forall i :: 0 <= i < m ==> b[i] == Text(s)[i];
        assert forall i :: 0 <= i < n ==> c[i] == Text(t)[i];
      }
    }
    if Text(s) == Text(t) {
      assert forall k :: 0 <= k < n ==> b[k] == b[..n][k] == c[..n][k] == c[k];
    }
  }

  /** What copying a string over a field leaves there. */
  function StrCopied(field: Field, s: seq<bv8>): Field
    requires Fits(s)
  {
    s[..StrLen(s) + 1] + field[StrLen(s) + 1..]
  }

  lemma SameText(s: seq<bv8>, t: seq<bv8>)
    requires 0 in s && StrLen(s) < |t| && t[..StrLen(s) + 1] == s[..StrLen(s) + 1]
    ensures 0 in t && Text(t) == Text(s)
  {
    var n := StrLen(s);
    SamePrefix(s, t, n);
    assert t[n] == 0;
    LengthUnique(t, n, StrLen(t));
  }

  lemma SamePrefix<T>(s: seq<T>, t: seq<T>, n: nat)
    requires n < |s| && n < |t| && t[..n + 1] == s[..n + 1]
    ensures t[..n] == s[..n] && forall i :: 0 <= i <= n ==> t[i] == s[i]
  {
    assert t[..n] == t[..n + 1][..n] == s[..n + 1][..n] == s[..n];
    forall i | 0 <= i <= n
      ensures t[i] == s[i]
    {
      assert t[i] == t[..n + 1][i] == s[..n + 1][i];
    }
  }

  // -------------------------------------------------------------- the flat table

  function Flat(table: seq<WPTuple>): (s: seq<bv8>)
    ensures |s| == 64 * |table|
  {
    if table == [] then [] else
      var e := table[|table| - 1];
      Flat(table[..|table| - 1]) + e.website + e.password
  }

  /** Entry i of a flat table. */
  function EntryAt(s: seq<bv8>, i: nat): WPTuple
    requires 64 * (i + 1) <= |s|
  {
    WPTuple(s[64 * i..64 * i + 32], s[64 * i + 32..64 * i + 64])
  }

  /** The flat form keeps every entry, byte for byte. */
  lemma {:induction false} EntryOfFlat(table: seq<WPTuple>, i: nat)
    requires i < |table|
    ensures EntryAt(Flat(table), i) == table[i]
  {
    var n := |table| - 1;
    var front := table[..n];
    if i < n {
      EntryOfFlat(front, i);
      assert Flat(table)[64 * i..64 * i + 32] == Flat(front)[64 * i..64 * i + 32];
      assert Flat(table)[64 * i + 32..64 * i + 64] == Flat(front)[64 * i + 32..64 * i + 64];
    }
  }

  /** Where each byte of each entry stands: 64 bytes an entry, the website before the password. */
  lemma FlatBytes(table: seq<WPTuple>, i: nat, k: nat)
    requires i < |table| && k < 32
    ensures |Flat(table)| == 64 * |table| && Flat(table)[64 * i + k] == table[i].website[k] && Flat(table)[64 * i + 32 + k] == table[i].password[k]
  {
    EntryOfFlat(table, i);
    var s := Flat(table);
    assert s[64 * i + k] == EntryAt(s, i).website[k] && s[64 * i + 32 + k] == EntryAt(s, i).password[k];
  }

  // -------------------------------------------------------------- the stored form

  /** The digest of the field that the password fills, twice. */
  function KeyOf(password: seq<bv8>): (key: seq<bv8>)
    requires Fits(password)
    ensures |key| == 32
  {
    Md5(Filled(password)) + Md5(Filled(password))
  }

  /** Whatever field holds the text of the password and then ones, its digest is both halves of the key. */
  lemma KeyIsDigest(password: seq<bv8>, b: Field)
    requires Fits(password) && TextThenOnes(b, password)
    ensures KeyOf(password)[..16] == Md5(b) == KeyOf(password)[16..]
  {
    hide Md5;
    FilledIs(password);
    SameFieldIff(b, password, Filled(password), password);
  }

  /** What is enciphered: the flat table and its digest. */
  function Plain(table: seq<WPTuple>): (p: seq<bv8>)
    ensures |p| == 64 * |table| + 16
  {
    Flat(table) + Md5(Flat(table))
  }

  /** The initialisation vector and the key schedule that a key stands for. */
  function Vector(key: seq<bv8>): Block {
    Md5(key)
  }

  function KeySchedule(key: seq<bv8>): Schedule
    requires |key| == 32
  {
    ExpandedKey(key[..16])
  }

  /** The first blocks of `enc` are the CBC ciphertext of the table under the key. */
  ghost predicate Sealed(enc: seq<bv8>, table: seq<WPTuple>, key: seq<bv8>)
    requires |key| == 32
  {
    && 64 * |table| + 16 <= |enc|
    && forall j :: 0 <= j < 4 * |table| + 1 ==>
         BlockOf(enc, j) == CipherBlock(Plain(table), Vector(key), KeySchedule(key), j)
  }

  ghost function OpenedByte(enc: seq<bv8>, key: seq<bv8>, k: nat): bv8
    requires |key| == 32 && 16 * (k / 16 + 1) <= |enc|
  {
    PlainBlock(enc, Vector(key), KeySchedule(key), k / 16)[k % 16]
  }

  lemma InRoom(n: nat, k: nat)
    requires k < 64 * n + 16
    ensures 16 * (k / 16 + 1) <= 64 * n + 16
  {
    WholeBlocks(k / 16, k % 16, n);
  }

  lemma WholeBlocks(q: nat, r: nat, n: nat)
    requires r < 16 && 16 * q + r < 64 * n + 16
    ensures 16 * (q + 1) <= 64 * n + 16
  {
    assert q < 4 * n + 1;
  }

  /** The bytes that deciphering the room of n entries under a key gives. */
  ghost function Opened(enc: seq<bv8>, n: nat, key: seq<bv8>): (p: seq<bv8>)
    requires |key| == 32 && 64 * n + 16 <= |enc|
    ensures |p| == 64 * n + 16
  {
    seq(64 * n + 16, k requires 0 <= k < 64 * n + 16 => InRoom(n, k); OpenedByte(enc, key, k))
  }

  lemma OpenedByteIs(enc: seq<bv8>, key: seq<bv8>, p: seq<bv8>, k: nat)
    requires |key| == 32 && 16 * (k / 16 + 1) <= |enc| && 16 * (k / 16 + 1) <= |p|
    requires PlainBlock(enc, Vector(key), KeySchedule(key), k / 16) == BlockOf(p, k / 16)
    ensures OpenedByte(enc, key, k) == p[k]
  {
    hide PlainBlock, Vector, KeySchedule;
    assert BlockOf(p, k / 16)[k % 16] == p[16 * (k / 16) + k % 16];
  }

  lemma OpenSealed(enc: seq<bv8>, table: seq<WPTuple>, key: seq<bv8>)
    requires |key| == 32 && Sealed(enc, table, key)
    ensures Opened(enc, |table|, key) == Plain(table)
  {
    hide Vector, KeySchedule, CipherBlock, PlainBlock, Plain;
    var p, w, iv, n := Plain(table), KeySchedule(key), Vector(key), 4 * |table| + 1;
    CbcRoundTrip(p, enc, iv, w, n);
    forall k | 0 <= k < |p|
      ensures Opened(enc, |table|, key)[k] == p[k]
    {
      hide OpenedByte, BlockOf;
      InRoom(|table|, k);
      OpenedByteIs(enc, key, p, k);
    }
  }

  /** The stored form depends only on the bytes it takes up. */
  lemma SealedPrefix(enc: seq<bv8>, enc': seq<bv8>, table: seq<WPTuple>, key: seq<bv8>)
    requires |key| == 32 && Sealed(enc, table, key)
    requires 64 * |table| + 16 <= |enc'| && enc'[..64 * |table| + 16] == enc[..64 * |table| + 16]
    ensures Sealed(enc', table, key)
  {
    hide Vector, KeySchedule, CipherBlock, Plain;
    forall j | 0 <= j < 4 * |table| + 1
      ensures BlockOf(enc', j) == BlockOf(enc, j)
    {
      assert BlockOf(enc', j) == enc'[..64 * |table| + 16][16 * j..16 * j + 16];
      assert BlockOf(enc, j) == enc[..64 * |table| + 16][16 * j..16 * j + 16];
    }
  }

  // -------------------------------------------------------------- removing an entry

  /** The last element takes the place of the one at `pos`. */
  function SwapRemoved<T>(s: seq<T>, pos: nat): seq<T>
    requires pos < |s|
  {
    s[pos := s[|s| - 1]][..|s| - 1]
  }

  /** Exactly one occurrence of one element is gone. */
  lemma SwapRemovesOne<T>(s: seq<T>, pos: nat)
    requires pos < |s|
    ensures multiset(SwapRemoved(s, pos)) == multiset(s) - multiset{s[pos]}
  {
    var last := s[|s| - 1];
    var t := s[pos := last];
    UpdatedMultiset(s, pos, last);
    WithoutLast(t);
    TakenBack(multiset(t[..|t| - 1]), multiset(s) - multiset{s[pos]}, last);
  }

  lemma UpdatedMultiset<T>(s: seq<T>, pos: nat, x: T)
    requires pos < |s|
    ensures multiset(s[pos := x]) == multiset(s) - multiset{s[pos]} + multiset{x}
  {
  }

  lemma WithoutLast<T>(s: seq<T>)
    requires s != []
    ensures multiset(s) == multiset(s[..|s| - 1]) + multiset{s[|s| - 1]}
  {
    assert s == s[..|s| - 1] + [s[|s| - 1]];
  }

  lemma TakenBack<T>(r: multiset<T>, m: multiset<T>, x: T)
    requires r + multiset{x} == m + multiset{x}
    ensures r == m
  {
    forall y
      ensures r[y] == m[y]
    {
      assert (r + multiset{x})[y] == (m + multiset{x})[y];
    }
  }

  // -------------------------------------------------------------- the table as the user sees it

  /** Every entry holds two terminated strings, as adding makes them. */
  predicate AllTerminated(table: seq<WPTuple>) {
    forall e :: e in table ==> 0 in e.website && 0 in e.password
  }

  /** A pair of strings for each entry. */
  function ContentsOf(table: seq<WPTuple>): (c: seq<(seq<bv8>, seq<bv8>)>)
    requires AllTerminated(table)
    ensures |c| == |table|
  {
    seq(|table|, i requires 0 <= i < |table| && AllTerminated(table) => (Text(table[i].website), Text(table[i].password)))
  }

  lemma ContentsAppend(table: seq<WPTuple>, e: WPTuple)
    requires AllTerminated(table) && 0 in e.website && 0 in e.password
    ensures AllTerminated(table + [e])
    ensures ContentsOf(table + [e]) == ContentsOf(table) + [(Text(e.website), Text(e.password))]
  {
    hide Text;
  }

  lemma ContentsSwapRemoved(table: seq<WPTuple>, pos: nat)
    requires AllTerminated(table) && pos < |table|
    ensures AllTerminated(SwapRemoved(table, pos))
    ensures ContentsOf(SwapRemoved(table, pos)) == SwapRemoved(ContentsOf(table), pos)
  {
    hide Text;
  }

  /** A removed name can still be found exactly when it was there more than once. */
  lemma NameAfterRemoval(c: seq<(seq<bv8>, seq<bv8>)>, pos: nat)
    requires pos < |c|
    requires forall i :: pos < i < |c| ==> c[i].0 != c[pos].0
    ensures (exists i :: 0 <= i < |c| - 1 && SwapRemoved(c, pos)[i].0 == c[pos].0)
       <==> (exists i, j :: 0 <= i < j < |c| && c[i].0 == c[j].0 == c[pos].0)
  {
    var r := SwapRemoved(c, pos);
    if i :| 0 <= i < |c| - 1 && r[i].0 == c[pos].0 {
      assert i < pos && c[i].0 == c[pos].0;
    }
    if i, j :| 0 <= i < j < |c| && c[i].0 == c[j].0 == c[pos].0 {
      assert i < pos && r[i] == c[i];
    }
  }
}
