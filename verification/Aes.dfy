/**
 The AES-128 code: file-level variables become the fields of a class, the state is a
 pointer into the caller's buffer, and every step works in place.
 */
module Aes {
  import opened Gf256
  import opened Fips197

  /** `after` is `before` with the sixteen bytes from `at` on replaced by `b`. */
  ghost predicate Replaced(before: seq<bv8>, at: nat, b: Block, after: seq<bv8>) {
    && |after| == |before| && at + 16 <= |before|
    && (forall k :: 0 <= k < 16 ==> after[at + k] == b[k])
    && (forall k :: 0 <= k < |before| && !(at <= k < at + 16) ==> after[k] == before[k])
  }

  ghost function BlockAt(s: seq<bv8>, at: nat): Block
    requires at + 16 <= |s|
  {
    s[at..at + 16]
  }

  class Aes128 {
    const roundKey: array<bv8>

    constructor ()
      ensures roundKey.Length == 176 && fresh(roundKey)
    {
      roundKey := new bv8[176];
    }

    method AddRoundKey(s: array<bv8>, at: nat, round: nat)
      requires roundKey.Length == 176 && s != roundKey && at + 16 <= s.Length && round <= 10
      modifies s
      ensures Replaced(old(s[..]), at, Fips197.AddRoundKey(old(BlockAt(s[..], at)), roundKey[..], round), s[..])
    {
      hide Add;
      for i := 0 to 4
        invariant forall k :: 0 <= k < s.Length ==>
          s[k] == if at <= k < at + 4 * i then Add(old(s[k]), roundKey[16 * round + k - at]) else old(s[k])
      {
        for j := 0 to 4
          invariant forall k :: 0 <= k < s.Length ==>
            s[k] == if at <= k < at + 4 * i + j then Add(old(s[k]), roundKey[16 * round + k - at]) else old(s[k])
        {
          s[at + 4 * i + j] := Add(s[at + 4 * i + j], roundKey[round * 4 * 4 + i * 4 + j]);
        }
      }
    }

    method SubBytes(s: array<bv8>, at: nat)
      requires at + 16 <= s.Length
      modifies s
      ensures Replaced(old(s[..]), at, Fips197.SubBytes(old(BlockAt(s[..], at))), s[..])
    {
      hide SboxValue;
      for i := 0 to 4
        invariant forall k :: 0 <= k < s.Length ==>
          s[k] == if at <= k < at + 16 && (k - at) % 4 < i then SboxValue(old(s[k])) else old(s[k])
      {
        for j := 0 to 4
          invariant forall k :: 0 <= k < s.Length ==>
            s[k] == if at <= k < at + 16 && ((k - at) % 4 < i || ((k - at) % 4 == i && k - at < 4 * j)) then SboxValue(old(s[k])) else old(s[k])
        {
          s[at + 4 * j + i] := SboxValue(s[at + 4 * j + i]);
        }
      }
    }

    /** Row 1, one column to the left. */
    method RotateRow1(s: array<bv8>, o: nat)
      requires o + 16 <= s.Length
      modifies s
      ensures s[o + 1] == old(s[o + 5]) && s[o + 5] == old(s[o + 9]) && s[o + 9] == old(s[o + 13]) && s[o + 13] == old(s[o + 1])
      ensures forall k :: 0 <= k < s.Length && k !in {o + 1, o + 5, o + 9, o + 13} ==> s[k] == old(s[k])
    {
      var temp := s[o + 1];
      s[o + 1] := s[o + 5];
      s[o + 5] := s[o + 9];
      s[o + 9] := s[o + 13];
      s[o + 13] := temp;
    }

    /** Row 2, two columns either way. */
    method RotateRow2(s: array<bv8>, o: nat)
      requires o + 16 <= s.Length
      modifies s
      ensures s[o + 2] == old(s[o + 10]) && s[o + 10] == old(s[o + 2]) && s[o + 6] == old(s[o + 14]) && s[o + 14] == old(s[o + 6])
      ensures forall k :: 0 <= k < s.Length && k !in {o + 2, o + 6, o + 10, o + 14} ==> s[k] == old(s[k])
    {
      var temp := s[o + 2];
      s[o + 2] := s[o + 10];
      s[o + 10] := temp;
      temp := s[o + 6];
      s[o + 6] := s[o + 14];
      s[o + 14] := temp;
    }

    /** Row 3, three columns to the left. */
    method RotateRow3(s: array<bv8>, o: nat)
      requires o + 16 <= s.Length
      modifies s
      ensures s[o + 3] == old(s[o + 15]) && s[o + 15] == old(s[o + 11]) && s[o + 11] == old(s[o + 7]) && s[o + 7] == old(s[o + 3])
      ensures forall k :: 0 <= k < s.Length && k !in {o + 3, o + 7, o + 11, o + 15} ==> s[k] == old(s[k])
    {
      var temp := s[o + 3];
      s[o + 3] := s[o + 15];
      s[o + 15] := s[o + 11];
      s[o + 11] := s[o + 7];
      s[o + 7] := temp;
    }

    method ShiftRows(s: array<bv8>, o: nat)
      requires o + 16 <= s.Length
      modifies s
      ensures Replaced(old(s[..]), o, Fips197.ShiftRows(old(BlockAt(s[..], o))), s[..])
    {
      hide Fips197.ShiftRows;
      RotateRow1(s, o);
      RotateRow2(s, o);
      RotateRow3(s, o);
      ghost var b := old(BlockAt(s[..], o));
      ShiftedBytes(b);
      ReplacedBytes(old(s[..]), o, s[..], Fips197.ShiftRows(b));
    }

    /** Row 1, one column to the right. */
    method UnrotateRow1(s: array<bv8>, o: nat)
      requires o + 16 <= s.Length
      modifies s
      ensures s[o + 1] == old(s[o + 13]) && s[o + 5] == old(s[o + 1]) && s[o + 9] == old(s[o + 5]) && s[o + 13] == old(s[o + 9])
      ensures forall k :: 0 <= k < s.Length && k !in {o + 1, o + 5, o + 9, o + 13} ==> s[k] == old(s[k])
    {
      var temp := s[o + 13];
      s[o + 13] := s[o + 9];
      s[o + 9] := s[o + 5];
      s[o + 5] := s[o + 1];
      s[o + 1] := temp;
    }

    /** Row 3, three columns to the right. */
    method UnrotateRow3(s: array<bv8>, o: nat)
      requires o + 16 <= s.Length
      modifies s
      ensures s[o + 3] == old(s[o + 7]) && s[o + 7] == old(s[o + 11]) && s[o + 11] == old(s[o + 15]) && s[o + 15] == old(s[o + 3])
      ensures forall k :: 0 <= k < s.Length && k !in {o + 3, o + 7, o + 11, o + 15} ==> s[k] == old(s[k])
    {
      var temp := s[o + 3];
      s[o + 3] := s[o + 7];
      s[o + 7] := s[o + 11];
      s[o + 11] := s[o + 15];
      s[o + 15] := temp;
    }

    method InvShiftRows(s: array<bv8>, o: nat)
      requires o + 16 <= s.Length
      modifies s
      ensures Replaced(old(s[..]), o, Fips197.InvShiftRows(old(BlockAt(s[..], o))), s[..])
    {
      hide Fips197.InvShiftRows;
      UnrotateRow1(s, o);
      RotateRow2(s, o);
      UnrotateRow3(s, o);
      ghost var b := old(BlockAt(s[..], o));
      UnshiftedBytes(b);
      ReplacedBytes(old(s[..]), o, s[..], Fips197.InvShiftRows(b));
    }

    method InvSubBytes(s: array<bv8>, at: nat)
      requires at + 16 <= s.Length
      modifies s
      ensures Replaced(old(s[..]), at, Fips197.InvSubBytes(old(BlockAt(s[..], at))), s[..])
    {
      hide SboxInvert;
      for i := 0 to 4
        invariant forall k :: 0 <= k < s.Length ==>
          s[k] == if at <= k < at + 16 && (k - at) % 4 < i then SboxInvert(old(s[k])) else old(s[k])
      {
        for j := 0 to 4
          invariant forall k :: 0 <= k < s.Length ==>
            s[k] == if at <= k < at + 16 && ((k - at) % 4 < i || ((k - at) % 4 == i && k - at < 4 * j)) then SboxInvert(old(s[k])) else old(s[k])
        {
          s[at + 4 * j + i] := SboxInvert(s[at + 4 * j + i]);
        }
      }
    }

    /** One pass of the loop of MixColumns: the column whose bytes start at `o`. */
    method MixColumn(s: array<bv8>, o: nat)
      requires o + 4 <= s.Length
      modifies s
      ensures s[o] == MixByte(old(s[o]), old(s[o + 1]), old(s[o + 2]), old(s[o + 3]))
      ensures s[o + 1] == MixByte(old(s[o + 1]), old(s[o + 2]), old(s[o + 3]), old(s[o]))
      ensures s[o + 2] == MixByte(old(s[o + 2]), old(s[o + 3]), old(s[o]), old(s[o + 1]))
      ensures s[o + 3] == MixByte(old(s[o + 3]), old(s[o]), old(s[o + 1]), old(s[o + 2]))
      ensures forall k :: 0 <= k < s.Length && !(o <= k < o + 4) ==> s[k] == old(s[k])
    {
      hide Shortcut, MixByte, Sum4;
      ghost var a, b, c, d := s[o], s[o + 1], s[o + 2], s[o + 3];
      MixShortcut(a, b, c, d);
      MixShortcut(b, c, d, a);
      MixShortcut(c, d, a, b);
      MixShortcut(d, a, b, c);
      SumRotate(a, b, c, d);
      SumRotate(b, c, d, a);
      SumRotate(c, d, a, b);
      var t := s[o];
      var tmp := Sum4(s[o], s[o + 1], s[o + 2], s[o + 3]);
      s[o] := Shortcut(s[o], s[o + 1], tmp);
      s[o + 1] := Shortcut(s[o + 1], s[o + 2], tmp);
      s[o + 2] := Shortcut(s[o + 2], s[o + 3], tmp);
      s[o + 3] := Shortcut(s[o + 3], t, tmp);
    }

    method MixColumns(s: array<bv8>, at: nat)
      requires at + 16 <= s.Length
      modifies s
      ensures Replaced(old(s[..]), at, Fips197.MixColumns(old(BlockAt(s[..], at))), s[..])
    {
      hide MixByte, Fips197.MixColumns;
      ghost var b := BlockAt(s[..], at);
      ghost var m := Fips197.MixColumns(b);
      for i := 0 to 4
        invariant forall k :: 0 <= k < s.Length ==> s[k] == if at <= k < at + 4 * i then m[k - at] else old(s[k])
      {
        ghost var now := s[..];
        var o := at + 4 * i;
        assert s[o] == b[4 * i] && s[o + 1] == b[4 * i + 1] && s[o + 2] == b[4 * i + 2] && s[o + 3] == b[4 * i + 3];
        MixedColumn(b, i);
        MixColumn(s, o);
        assert s[o] == m[4 * i] && s[o + 1] == m[4 * i + 1] && s[o + 2] == m[4 * i + 2] && s[o + 3] == m[4 * i + 3];
        PatchColumn(old(s[..]), now, s[..], at, m, i);
      }
    }

    /** One pass of the loop of InvMixColumns. */
    method InvMixColumn(s: array<bv8>, o: nat)
      requires o + 4 <= s.Length
      modifies s
      ensures s[o] == UnmixByte(old(s[o]), old(s[o + 1]), old(s[o + 2]), old(s[o + 3]))
      ensures s[o + 1] == UnmixByte(old(s[o + 1]), old(s[o + 2]), old(s[o + 3]), old(s[o]))
      ensures s[o + 2] == UnmixByte(old(s[o + 2]), old(s[o + 3]), old(s[o]), old(s[o + 1]))
      ensures s[o + 3] == UnmixByte(old(s[o + 3]), old(s[o]), old(s[o + 1]), old(s[o + 2]))
      ensures forall k :: 0 <= k < s.Length && !(o <= k < o + 4) ==> s[k] == old(s[k])
    {
      hide Multiply, UnmixByte, Sum4;
      var a, b, c, d := s[o], s[o + 1], s[o + 2], s[o + 3];
      UnmixCode(a, b, c, d);
      UnmixCode(b, c, d, a);
      UnmixCode(c, d, a, b);
      UnmixCode(d, a, b, c);
      s[o] := Sum4(Multiply(a, 0x0e), Multiply(b, 0x0b), Multiply(c, 0x0d), Multiply(d, 0x09));
      s[o + 1] := Sum4(Multiply(a, 0x09), Multiply(b, 0x0e), Multiply(c, 0x0b), Multiply(d, 0x0d));
      s[o + 2] := Sum4(Multiply(a, 0x0d), Multiply(b, 0x09), Multiply(c, 0x0e), Multiply(d, 0x0b));
      s[o + 3] := Sum4(Multiply(a, 0x0b), Multiply(b, 0x0d), Multiply(c, 0x09), Multiply(d, 0x0e));
    }

    method InvMixColumns(s: array<bv8>, at: nat)
      requires at + 16 <= s.Length
      modifies s
      ensures Replaced(old(s[..]), at, Fips197.InvMixColumns(old(BlockAt(s[..], at))), s[..])
    {
      hide UnmixByte, Fips197.InvMixColumns;
      ghost var b := BlockAt(s[..], at);
      ghost var m := Fips197.InvMixColumns(b);
      for i := 0 to 4
        invariant forall k :: 0 <= k < s.Length ==> s[k] == if at <= k < at + 4 * i then m[k - at] else old(s[k])
      {
        ghost var now := s[..];
        var o := at + 4 * i;
        assert s[o] == b[4 * i] && s[o + 1] == b[4 * i + 1] && s[o + 2] == b[4 * i + 2] && s[o + 3] == b[4 * i + 3];
        UnmixedColumn(b, i);
        InvMixColumn(s, o);
        assert s[o] == m[4 * i] && s[o + 1] == m[4 * i + 1] && s[o + 2] == m[4 * i + 2] && s[o + 3] == m[4 * i + 3];
        PatchColumn(old(s[..]), now, s[..], at, m, i);
      }
    }

    /** Section 5.2's expansion into the 176 bytes of roundKey. */
    method KeyExpansion(key: array<bv8>)
      requires roundKey.Length == 176 && key.Length >= 16 && key != roundKey
      modifies roundKey
      ensures roundKey[..] == ExpandedKey(key[..16])
    {
      hide Word, HasWord;
      ghost var k0: Block := key[..16];
      CopyKey(key);
      var i := 4;
      while i < 44
        invariant 4 <= i <= 44
        invariant HasWords(roundKey[..], i, k0)
      {
        ExpandWord(k0, i);
        i := i + 1;
      }
      AllWords(k0, roundKey[..]);
    }

    /** The first round key is the key itself. */
    method CopyKey(key: array<bv8>)
      requires roundKey.Length == 176 && key.Length >= 16 && key != roundKey
      modifies roundKey
      ensures HasWords(roundKey[..], 4, key[..16])
    {
      hide SboxValue, Xtime, Rcon, Word;
      for i := 0 to 4
        invariant forall k :: 0 <= k < 4 * i ==> roundKey[k] == key[k]
      {
        roundKey[(i * 4) + 0] := key[(i * 4) + 0];
        roundKey[(i * 4) + 1] := key[(i * 4) + 1];
        roundKey[(i * 4) + 2] := key[(i * 4) + 2];
        roundKey[(i * 4) + 3] := key[(i * 4) + 3];
      }
      FirstWords(key[..16], roundKey[..]);
    }

    /** One pass of the loop: word i from the words before it. */
    method ExpandWord(ghost key: Block, i: nat)
      requires roundKey.Length == 176 && 4 <= i < 44
      requires HasWords(roundKey[..], i, key)
      modifies roundKey
      ensures HasWords(roundKey[..], i + 1, key)
    {
      hide Add, Word, HasWords, Transformed;
      ghost var before := roundKey[..];
      OneWord(before, i, key, i - 1);
      OneWord(before, i, key, i - 4);
      var tempa := new bv8[4];
      for j := 0 to 4
        invariant roundKey[..] == before
        invariant forall n :: 0 <= n < j ==> tempa[n] == before[(i - 1) * 4 + n]
      {
        tempa[j] := roundKey[(i - 1) * 4 + j];
      }
      assert tempa[..] == Word(key, i - 1);
      TransformWord(tempa, i);
      XorInto(i, tempa);
      NextWord(key, i);
      MoreWords(before, roundKey[..], i, key);
    }

    /** Word i becomes word i - 4 plus the temporary bytes. */
    method XorInto(i: nat, tempa: array<bv8>)
      requires roundKey.Length == 176 && 4 <= i < 44 && tempa.Length == 4 && tempa != roundKey
      modifies roundKey
      ensures forall k :: 0 <= k < 176 && !(4 * i <= k < 4 * i + 4) ==> roundKey[k] == old(roundKey[k])
      ensures HasWord(roundKey[..], i, XorWord(old(roundKey[4 * (i - 4)..4 * (i - 4) + 4]), tempa[..]))
    {
      hide Add;
      roundKey[i * 4 + 0] := Add(roundKey[(i - 4) * 4 + 0], tempa[0]);
      roundKey[i * 4 + 1] := Add(roundKey[(i - 4) * 4 + 1], tempa[1]);
      roundKey[i * 4 + 2] := Add(roundKey[(i - 4) * 4 + 2], tempa[2]);
      roundKey[i * 4 + 3] := Add(roundKey[(i - 4) * 4 + 3], tempa[3]);
    }

    /** RotWord, SubWord and the round constant, on every fourth word. */
    method TransformWord(tempa: array<bv8>, i: nat)
      requires tempa.Length == 4 && 4 <= i < 44
      modifies tempa
      ensures tempa[..] == Transformed(old(tempa[..]), i)
    {
      hide Add, SubWord, RotWord, Rcon;
      if i % 4 == 0 {
        RotateAndSubstitute(tempa);
        AddRcon(tempa[..], i / 4);
        tempa[0] := Add(tempa[0], RCON[i / 4]);
      }
    }

    /** RotWord and SubWord on the four temporary bytes. */
    method RotateAndSubstitute(tempa: array<bv8>)
      requires tempa.Length == 4
      modifies tempa
      ensures tempa[..] == SubWord(RotWord(old(tempa[..])))
    {
      hide SboxValue;
      var k := tempa[0];
      tempa[0] := tempa[1];
      tempa[1] := tempa[2];
      tempa[2] := tempa[3];
      tempa[3] := k;
      tempa[0] := SboxValue(tempa[0]);
      tempa[1] := SboxValue(tempa[1]);
      tempa[2] := SboxValue(tempa[2]);
      tempa[3] := SboxValue(tempa[3]);
    }

    method Cipher(s: array<bv8>, at: nat)
      requires roundKey.Length == 176 && s != roundKey && at + 16 <= s.Length
      modifies s
      ensures Replaced(old(s[..]), at, Fips197.Cipher(old(BlockAt(s[..], at)), roundKey[..]), s[..])
    {
      hide Fips197.AddRoundKey, Fips197.SubBytes, Fips197.ShiftRows, Fips197.MixColumns, Replaced, BlockAt;
      ghost var s0, w := s[..], roundKey[..];
      ghost var b := BlockAt(s0, at);
      AddRoundKey(s, at, 0);
      for round := 1 to 10
        invariant Replaced(s0, at, Fips197.Rounds(b, w, round - 1), s[..])
      {
        ghost var s1 := s[..];
        SubBytes(s, at);
        Then(s0, at, Fips197.Rounds(b, w, round - 1), s1, Fips197.SubBytes(BlockAt(s1, at)), s[..]);
        ghost var s2 := s[..];
        ShiftRows(s, at);
        Then(s0, at, BlockAt(s2, at), s2, Fips197.ShiftRows(BlockAt(s2, at)), s[..]);
        ghost var s3 := s[..];
        MixColumns(s, at);
        Then(s0, at, BlockAt(s3, at), s3, Fips197.MixColumns(BlockAt(s3, at)), s[..]);
        ghost var s4 := s[..];
        AddRoundKey(s, at, round);
        Then(s0, at, BlockAt(s4, at), s4, Fips197.AddRoundKey(BlockAt(s4, at), w, round), s[..]);
      }
      ghost var s1 := s[..];
      SubBytes(s, at);
      Then(s0, at, Fips197.Rounds(b, w, 9), s1, Fips197.SubBytes(BlockAt(s1, at)), s[..]);
      ghost var s2 := s[..];
      ShiftRows(s, at);
      Then(s0, at, BlockAt(s2, at), s2, Fips197.ShiftRows(BlockAt(s2, at)), s[..]);
      ghost var s3 := s[..];
      AddRoundKey(s, at, 10);
      Then(s0, at, BlockAt(s3, at), s3, Fips197.AddRoundKey(BlockAt(s3, at), w, 10), s[..]);
    }

    method InvCipher(s: array<bv8>, at: nat)
      requires roundKey.Length == 176 && s != roundKey && at + 16 <= s.Length
      modifies s
      ensures Replaced(old(s[..]), at, Fips197.InvCipher(old(BlockAt(s[..], at)), roundKey[..]), s[..])
    {
      hide Fips197.AddRoundKey, Fips197.InvSubBytes, Fips197.InvShiftRows, Fips197.InvMixColumns, Replaced, BlockAt;
      ghost var s0, w := s[..], roundKey[..];
      ghost var b := BlockAt(s0, at);
      AddRoundKey(s, at, 10);
      var round := 9;
      while round > 0
        invariant 0 <= round <= 9
        invariant Replaced(s0, at, Fips197.InvRounds(b, w, round + 1), s[..])
      {
        ghost var s1 := s[..];
        InvShiftRows(s, at);
        Then(s0, at, Fips197.InvRounds(b, w, round + 1), s1, Fips197.InvShiftRows(BlockAt(s1, at)), s[..]);
        ghost var s2 := s[..];
        InvSubBytes(s, at);
        Then(s0, at, BlockAt(s2, at), s2, Fips197.InvSubBytes(BlockAt(s2, at)), s[..]);
        ghost var s3 := s[..];
        AddRoundKey(s, at, round);
        Then(s0, at, BlockAt(s3, at), s3, Fips197.AddRoundKey(BlockAt(s3, at), w, round), s[..]);
        ghost var s4 := s[..];
        InvMixColumns(s, at);
        Then(s0, at, BlockAt(s4, at), s4, Fips197.InvMixColumns(BlockAt(s4, at)), s[..]);
        round := round - 1;
      }
      ghost var s1 := s[..];
      InvShiftRows(s, at);
      Then(s0, at, Fips197.InvRounds(b, w, 1), s1, Fips197.InvShiftRows(BlockAt(s1, at)), s[..]);
      ghost var s2 := s[..];
      InvSubBytes(s, at);
      Then(s0, at, BlockAt(s2, at), s2, Fips197.InvSubBytes(BlockAt(s2, at)), s[..]);
      ghost var s3 := s[..];
      AddRoundKey(s, at, 0);
      Then(s0, at, BlockAt(s3, at), s3, Fips197.AddRoundKey(BlockAt(s3, at), w, 0), s[..]);
    }

    method BlockCopy(output: array<bv8>, at: nat, input: array<bv8>, from: nat)
      requires output != input && at + 16 <= output.Length && from + 16 <= input.Length
      modifies output
      ensures Replaced(old(output[..]), at, BlockAt(input[..], from), output[..])
    {
      for i := 0 to 16
        invariant forall k :: 0 <= k < output.Length ==>
          output[k] == if at <= k < at + i then input[from + k - at] else old(output[k])
      {
        output[at + i] := input[from + i];
      }
    }

    method EcbEncrypt(input: array<bv8>, key: array<bv8>, output: array<bv8>)
      requires roundKey.Length == 176 && roundKey !in {input, key, output} && output !in {input, key}
      requires input.Length >= 16 && key.Length >= 16 && output.Length >= 16
      modifies roundKey, output
      ensures BlockAt(output[..], 0) == Fips197.Cipher(BlockAt(input[..], 0), ExpandedKey(key[..16]))
    {
      hide Fips197.Cipher, ExpandedKey;
      BlockCopy(output, 0, input, 0);
      ghost var copied := output[..];
      KeyExpansion(key);
      assert output[..] == copied;
      InPlace(old(output[..]), 0, BlockAt(input[..], 0), copied);
      Cipher(output, 0);
      InPlace(copied, 0, Fips197.Cipher(BlockAt(copied, 0), roundKey[..]), output[..]);
    }

    method EcbDecrypt(input: array<bv8>, key: array<bv8>, output: array<bv8>)
      requires roundKey.Length == 176 && roundKey !in {input, key, output} && output !in {input, key}
      requires input.Length >= 16 && key.Length >= 16 && output.Length >= 16
      modifies roundKey, output
      ensures BlockAt(output[..], 0) == Fips197.InvCipher(BlockAt(input[..], 0), ExpandedKey(key[..16]))
    {
      hide Fips197.InvCipher, ExpandedKey;
      BlockCopy(output, 0, input, 0);
      ghost var copied := output[..];
      KeyExpansion(key);
      assert output[..] == copied;
      InPlace(old(output[..]), 0, BlockAt(input[..], 0), copied);
      InvCipher(output, 0);
      InPlace(copied, 0, Fips197.InvCipher(BlockAt(copied, 0), roundKey[..]), output[..]);
    }
  }

  /** The round constants the code's table holds at the indices key expansion uses. */
  const RCON: seq<bv8> := [0x8d, 0x01, 0x02, 0x04, 0x08, 0x10, 0x20, 0x40, 0x80, 0x1b, 0x36]

  ghost predicate HasWord(bytes: seq<bv8>, w: nat, word: seq<bv8>) {
    && |word| == 4 && 4 * w + 4 <= |bytes|
    && bytes[4 * w] == word[0] && bytes[4 * w + 1] == word[1] && bytes[4 * w + 2] == word[2] && bytes[4 * w + 3] == word[3]
  }

  /** The first n words of the key schedule are in place. */
  ghost predicate HasWords(bytes: seq<bv8>, n: nat, key: Block) {
    forall w :: 0 <= w < n ==> HasWord(bytes, w, Word(key, w))
  }

  lemma OneWord(bytes: seq<bv8>, n: nat, key: Block, w: nat)
    requires HasWords(bytes, n, key) && w < n
    ensures HasWord(bytes, w, Word(key, w))
  {
  }

  lemma MoreWords(before: seq<bv8>, after: seq<bv8>, i: nat, key: Block)
    requires HasWords(before, i, key) && |before| == |after|
    requires forall k :: 0 <= k < 4 * i && k < |before| ==> after[k] == before[k]
    requires HasWord(after, i, Word(key, i))
    ensures HasWords(after, i + 1, key)
  {
    hide Word;
    forall w | 0 <= w < i
      ensures HasWord(after, w, Word(key, w))
    {
      assert HasWord(before, w, Word(key, w));
    }
  }

  lemma FirstWords(key: Block, bytes: seq<bv8>)
    requires |bytes| == 176
    requires forall k :: 0 <= k < 16 ==> bytes[k] == key[k]
    ensures HasWords(bytes, 4, key)
  {
    forall w | 0 <= w < 4
      ensures HasWord(bytes, w, Word(key, w))
    {
      assert Word(key, w) == key[4 * w..4 * w + 4];
    }
  }

  lemma RconTable(i: nat)
    requires 1 <= i <= 10
    ensures RCON[i] == Rcon(i)
    decreases i
  {
    if i > 1 {
      RconTable(i - 1);
      assert i == 2 || i == 3 || i == 4 || i == 5 || i == 6 || i == 7 || i == 8 || i == 9 || i == 10;
    }
  }

  lemma AddRcon(t: seq<bv8>, i: nat)
    requires |t| == 4 && 1 <= i <= 10
    ensures XorWord(t, [Rcon(i), 0, 0, 0]) == [Add(t[0], RCON[i]), t[1], t[2], t[3]]
  {
    RconTable(i);
    hide Rcon;
  }

  lemma NextWord(key: Block, i: nat)
    requires i >= 4
    ensures Word(key, i) == XorWord(Word(key, i - 4), Transformed(Word(key, i - 1), i))
  {
  }

  lemma AllWords(key: Block, bytes: seq<bv8>)
    requires |bytes| == 176 && HasWords(bytes, 44, key)
    ensures bytes == ExpandedKey(key)
  {
    hide Word;
    forall k | 0 <= k < 176
      ensures bytes[k] == Word(key, k / 4)[k % 4]
    {
      var w := k / 4;
      assert HasWord(bytes, w, Word(key, w));
      assert k == 4 * w + k % 4;
    }
  }

  lemma InPlace(s0: seq<bv8>, at: nat, b: Block, s1: seq<bv8>)
    requires Replaced(s0, at, b, s1)
    ensures BlockAt(s1, at) == b
  {
  }

  /** Two replacements of the same sixteen bytes in a row. */
  lemma Then(s0: seq<bv8>, at: nat, b1: Block, s1: seq<bv8>, b2: Block, s2: seq<bv8>)
    requires Replaced(s0, at, b1, s1)
    requires Replaced(s1, at, b2, s2)
    ensures BlockAt(s1, at) == b1
    ensures Replaced(s0, at, b2, s2)
    ensures BlockAt(s2, at) == b2
  {
  }

  /** The code's product sums the four terms of a row in column order; a rotation of the row is summed here. */
  lemma UnmixCode(a: bv8, b: bv8, c: bv8, d: bv8)
    ensures var p, q, r, s := Multiply(a, 0x0e), Multiply(b, 0x0b), Multiply(c, 0x0d), Multiply(d, 0x09);
            && UnmixByte(a, b, c, d) == Sum4(p, q, r, s) == Sum4(q, r, s, p) == Sum4(r, s, p, q) == Sum4(s, p, q, r)
  {
    hide Multiply, GfMul, Sum4;
    MultiplyIsGfMul(a, 0x0e);
    MultiplyIsGfMul(b, 0x0b);
    MultiplyIsGfMul(c, 0x0d);
    MultiplyIsGfMul(d, 0x09);
    var p, q, r, s := Multiply(a, 0x0e), Multiply(b, 0x0b), Multiply(c, 0x0d), Multiply(d, 0x09);
    SumRotate(p, q, r, s);
    SumRotate(q, r, s, p);
    SumRotate(r, s, p, q);
  }

  /** Four more bytes in place: pure bookkeeping, whatever the elements are. */
  lemma PatchColumn<T>(before: seq<T>, now: seq<T>, next: seq<T>, at: nat, m: seq<T>, i: nat)
    requires |before| == |now| == |next| && at + 16 <= |before| && |m| == 16 && i < 4
    requires forall k :: 0 <= k < |now| ==> now[k] == if at <= k < at + 4 * i then m[k - at] else before[k]
    requires next[at + 4 * i] == m[4 * i] && next[at + 4 * i + 1] == m[4 * i + 1]
    requires next[at + 4 * i + 2] == m[4 * i + 2] && next[at + 4 * i + 3] == m[4 * i + 3]
    requires forall k :: 0 <= k < |now| && !(at + 4 * i <= k < at + 4 * i + 4) ==> next[k] == now[k]
    ensures forall k :: 0 <= k < |next| ==> next[k] == if at <= k < at + 4 * (i + 1) then m[k - at] else before[k]
  {
    forall k | 0 <= k < |next|
      ensures next[k] == if at <= k < at + 4 * (i + 1) then m[k - at] else before[k]
    {
      if at + 4 * i <= k < at + 4 * i + 4 {
        var r := k - at - 4 * i;
        assert r == 0 || r == 1 || r == 2 || r == 3;
      }
    }
  }

  function Wrap(r: nat): (w: nat)
    requires r < 8
    ensures w < 4
  {
    if r < 4 then r else r - 4
  }

  lemma DownAt(i: nat, r: nat, k: nat)
    requires i < 4 && r < 4 && k < 4
    ensures Down(4 * i + r, k) == 4 * i + Wrap(r + k)
  {
    assert (4 * i + r) / 4 == i;
    assert 4 * i + r + k == 4 * i + (r + k);
  }

  lemma MixedByte(b: Block, i: nat, r: nat)
    requires i < 4 && r < 4
    ensures Fips197.MixColumns(b)[4 * i + r]
         == MixByte(b[4 * i + r], b[4 * i + Wrap(r + 1)], b[4 * i + Wrap(r + 2)], b[4 * i + Wrap(r + 3)])
  {
    hide Down, MixByte;
    DownAt(i, r, 0);
    DownAt(i, r, 1);
    DownAt(i, r, 2);
    DownAt(i, r, 3);
  }

  lemma UnmixedByte(b: Block, i: nat, r: nat)
    requires i < 4 && r < 4
    ensures Fips197.InvMixColumns(b)[4 * i + r]
         == UnmixByte(b[4 * i + r], b[4 * i + Wrap(r + 1)], b[4 * i + Wrap(r + 2)], b[4 * i + Wrap(r + 3)])
  {
    hide Down, UnmixByte;
    DownAt(i, r, 0);
    DownAt(i, r, 1);
    DownAt(i, r, 2);
    DownAt(i, r, 3);
  }

  lemma MixedColumn(b: Block, i: nat)
    requires i < 4
    ensures var m, o := Fips197.MixColumns(b), 4 * i;
            && m[o] == MixByte(b[o], b[o + 1], b[o + 2], b[o + 3])
            && m[o + 1] == MixByte(b[o + 1], b[o + 2], b[o + 3], b[o])
            && m[o + 2] == MixByte(b[o + 2], b[o + 3], b[o], b[o + 1])
            && m[o + 3] == MixByte(b[o + 3], b[o], b[o + 1], b[o + 2])
  {
    hide Fips197.MixColumns, MixByte;
    MixedByte(b, i, 0);
    MixedByte(b, i, 1);
    MixedByte(b, i, 2);
    MixedByte(b, i, 3);
  }

  lemma UnmixedColumn(b: Block, i: nat)
    requires i < 4
    ensures var m, o := Fips197.InvMixColumns(b), 4 * i;
            && m[o] == UnmixByte(b[o], b[o + 1], b[o + 2], b[o + 3])
            && m[o + 1] == UnmixByte(b[o + 1], b[o + 2], b[o + 3], b[o])
            && m[o + 2] == UnmixByte(b[o + 2], b[o + 3], b[o], b[o + 1])
            && m[o + 3] == UnmixByte(b[o + 3], b[o], b[o + 1], b[o + 2])
  {
    hide Fips197.InvMixColumns, UnmixByte;
    UnmixedByte(b, i, 0);
    UnmixedByte(b, i, 1);
    UnmixedByte(b, i, 2);
    UnmixedByte(b, i, 3);
  }

  lemma RowIndices()
    ensures && Right(0, 0) == 0 && Right(4, 0) == 4 && Right(8, 0) == 8 && Right(12, 0) == 12
            && Right(1, 1) == 5 && Right(5, 1) == 9 && Right(9, 1) == 13 && Right(13, 1) == 1
            && Right(2, 2) == 10 && Right(6, 2) == 14 && Right(10, 2) == 2 && Right(14, 2) == 6
            && Right(3, 3) == 15 && Right(7, 3) == 3 && Right(11, 3) == 7 && Right(15, 3) == 11
            && Right(0, 4) == 0 && Right(4, 4) == 4 && Right(8, 4) == 8 && Right(12, 4) == 12
            && Right(1, 3) == 13 && Right(5, 3) == 1 && Right(9, 3) == 5 && Right(13, 3) == 9
            && Right(3, 1) == 7 && Right(7, 1) == 11 && Right(11, 1) == 15 && Right(15, 1) == 3
  {
  }

  lemma ShiftedBytes(b: Block)
    ensures var t := Fips197.ShiftRows(b);
            && t[0] == b[0] && t[1] == b[5] && t[2] == b[10] && t[3] == b[15]
            && t[4] == b[4] && t[5] == b[9] && t[6] == b[14] && t[7] == b[3]
            && t[8] == b[8] && t[9] == b[13] && t[10] == b[2] && t[11] == b[7]
            && t[12] == b[12] && t[13] == b[1] && t[14] == b[6] && t[15] == b[11]
  {
    RowIndices();
    hide Fips197.Right;
  }

  lemma UnshiftedBytes(b: Block)
    ensures var t := Fips197.InvShiftRows(b);
            && t[0] == b[0] && t[1] == b[13] && t[2] == b[10] && t[3] == b[7]
            && t[4] == b[4] && t[5] == b[1] && t[6] == b[14] && t[7] == b[11]
            && t[8] == b[8] && t[9] == b[5] && t[10] == b[2] && t[11] == b[15]
            && t[12] == b[12] && t[13] == b[9] && t[14] == b[6] && t[15] == b[3]
  {
    RowIndices();
    hide Fips197.Right;
  }

  lemma ReplacedBytes(before: seq<bv8>, at: nat, after: seq<bv8>, b: Block)
    requires |after| == |before| && at + 16 <= |before|
    requires after[at] == b[0] && after[at + 1] == b[1] && after[at + 2] == b[2] && after[at + 3] == b[3]
    requires after[at + 4] == b[4] && after[at + 5] == b[5] && after[at + 6] == b[6] && after[at + 7] == b[7]
    requires after[at + 8] == b[8] && after[at + 9] == b[9] && after[at + 10] == b[10] && after[at + 11] == b[11]
    requires after[at + 12] == b[12] && after[at + 13] == b[13] && after[at + 14] == b[14] && after[at + 15] == b[15]
    requires forall k :: 0 <= k < |before| && !(at <= k < at + 16) ==> after[k] == before[k]
    ensures Replaced(before, at, b, after)
  {
  }
}
