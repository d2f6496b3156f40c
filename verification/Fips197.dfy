/**
 AES-128 and its inverse as FIPS 197 defines them, on values, with the proof that the
 inverse cipher undoes the cipher. A state is its sixteen bytes in column order: the byte
 of row r and column c stands at index r + 4c (section 3.4).
 */
module Fips197 {
  import opened Gf256

  const NR := 10
  const NK := 4

  type Block = s: seq<bv8> | |s| == 16 witness seq(16, _ => 0)

  /** The key schedule's 176 bytes, eleven round keys of sixteen. */
  type Schedule = s: seq<bv8> | |s| == 176 witness seq(176, _ => 0)

  // -------------------------------------------------------------- key expansion, section 5.2

  /** Rcon[i] is {02} to the power i - 1. */
  function Rcon(i: nat): bv8
    requires i > 0
  {
    if i == 1 then 1 else Xtime(Rcon(i - 1))
  }

  function XorWord(x: seq<bv8>, y: seq<bv8>): seq<bv8>
    requires |x| == |y| == 4
  {
    [Add(x[0], y[0]), Add(x[1], y[1]), Add(x[2], y[2]), Add(x[3], y[3])]
  }

  function RotWord(x: seq<bv8>): seq<bv8>
    requires |x| == 4
  {
    [x[1], x[2], x[3], x[0]]
  }

  function SubWord(x: seq<bv8>): seq<bv8>
    requires |x| == 4
  {
    [SboxValue(x[0]), SboxValue(x[1]), SboxValue(x[2]), SboxValue(x[3])]
  }

  /** What word i - 1 becomes before it is added to word i - 4. */
  function Transformed(temp: seq<bv8>, i: nat): (t: seq<bv8>)
    requires |temp| == 4 && i >= NK
    ensures |t| == 4
  {
    if i % NK == 0 then XorWord(SubWord(RotWord(temp)), [Rcon(i / NK), 0, 0, 0]) else temp
  }

  /** Word i of the key schedule. */
  function Word(key: Block, i: nat): (w: seq<bv8>)
    ensures |w| == 4
  {
    if i < NK then key[4 * i..4 * i + 4] else XorWord(Word(key, i - NK), Transformed(Word(key, i - 1), i))
  }

  function ExpandedKey(key: Block): Schedule {
    seq(176, k requires 0 <= k < 176 => Word(key, k / 4)[k % 4])
  }

  // -------------------------------------------------------------- the round transformations

  function AddRoundKey(s: Block, w: Schedule, round: nat): Block
    requires round <= NR
  {
    seq(16, i requires 0 <= i < 16 => Add(s[i], w[16 * round + i]))
  }

  function SubBytes(s: Block): Block {
    seq(16, i requires 0 <= i < 16 => SboxValue(s[i]))
  }

  function InvSubBytes(s: Block): Block {
    seq(16, i requires 0 <= i < 16 => SboxInvert(s[i]))
  }

  /** The index of the byte k columns to the right of byte i, cyclically: r + 4 * ((c + k) mod 4). */
  function Right(i: nat, k: nat): (j: nat)
    requires i < 16 && k <= 4
    ensures j < 16
  {
    if i + 4 * k < 16 then i + 4 * k else i + 4 * k - 16
  }

  /** Row r moves r columns to the left. */
  function ShiftRows(s: Block): Block {
    seq(16, i requires 0 <= i < 16 => s[Right(i, i % 4)])
  }

  /** Row r moves r columns to the right. */
  function InvShiftRows(s: Block): Block {
    seq(16, i requires 0 <= i < 16 => s[Right(i, 4 - i % 4)])
  }

  /** The index of the byte k rows below byte i in its column, cyclically. */
  function Down(i: nat, k: nat): (j: nat)
    requires i < 16
    ensures j < 16
  {
    i / 4 * 4 + (i + k) % 4
  }

  function Below(s: Block, i: nat, k: nat): bv8
    requires i < 16
  {
    s[Down(i, k)]
  }

  function MixColumns(s: Block): Block {
    seq(16, i requires 0 <= i < 16 => MixByte(Below(s, i, 0), Below(s, i, 1), Below(s, i, 2), Below(s, i, 3)))
  }

  function InvMixColumns(s: Block): Block {
    seq(16, i requires 0 <= i < 16 => UnmixByte(Below(s, i, 0), Below(s, i, 1), Below(s, i, 2), Below(s, i, 3)))
  }

  // -------------------------------------------------------------- the ciphers, sections 5.1 and 5.3

  /** The state after the first key addition and `n` full rounds. */
  function Rounds(s: Block, w: Schedule, n: nat): Block
    requires n < NR
  {
    if n == 0 then AddRoundKey(s, w, 0)
    else AddRoundKey(MixColumns(ShiftRows(SubBytes(Rounds(s, w, n - 1)))), w, n)
  }

  function Cipher(s: Block, w: Schedule): Block {
    AddRoundKey(ShiftRows(SubBytes(Rounds(s, w, NR - 1))), w, NR)
  }

  /** The state after the key addition of round 10 and the inverse rounds 9 down to `n`. */
  function InvRounds(s: Block, w: Schedule, n: nat): Block
    requires 1 <= n <= NR
    decreases NR - n
  {
    if n == NR then AddRoundKey(s, w, NR)
    else InvMixColumns(AddRoundKey(InvSubBytes(InvShiftRows(InvRounds(s, w, n + 1))), w, n))
  }

  function InvCipher(s: Block, w: Schedule): Block {
    AddRoundKey(InvSubBytes(InvShiftRows(InvRounds(s, w, 1))), w, 0)
  }

  // -------------------------------------------------------------- each step is undone

  lemma AddRoundKeyTwice(s: Block, w: Schedule, round: nat)
    requires round <= NR
    ensures AddRoundKey(AddRoundKey(s, w, round), w, round) == s
  {
    hide Add;
    var t := AddRoundKey(AddRoundKey(s, w, round), w, round);
    forall i | 0 <= i < 16
      ensures t[i] == s[i]
    {
      AddTwice(s[i], w[16 * round + i]);
    }
  }

  lemma RightBack(i: nat)
    requires i < 16
    ensures var j := Right(i, 4 - i % 4); j % 4 == i % 4 && Right(j, j % 4) == i
  {
  }

  lemma UnshiftRows(s: Block)
    ensures InvShiftRows(ShiftRows(s)) == s
  {
    hide Right;
    var t := ShiftRows(s);
    forall i | 0 <= i < 16
      ensures InvShiftRows(t)[i] == s[i]
    {
      RightBack(i);
      assert InvShiftRows(t)[i] == t[Right(i, 4 - i % 4)];
    }
  }

  lemma UnsubBytes(s: Block)
    ensures InvSubBytes(SubBytes(s)) == s
  {
    hide SboxValue, SboxInvert;
    var t := InvSubBytes(SubBytes(s));
    forall i | 0 <= i < 16
      ensures t[i] == s[i]
    {
      SboxInverse(s[i]);
    }
  }

  lemma UnsubUnshift(s: Block)
    ensures InvSubBytes(InvShiftRows(ShiftRows(SubBytes(s)))) == s
  {
    hide SubBytes, InvSubBytes, ShiftRows, InvShiftRows;
    UnshiftRows(SubBytes(s));
    UnsubBytes(s);
  }

  lemma DownDown(i: nat, k: nat, n: nat)
    requires i < 16
    ensures Down(Down(i, k), n) == Down(i, k + n)
  {
    var c, m := i / 4, (i + k) % 4;
    FourTimes(c, m, n);
    RestAdds(i + k, n);
  }

  lemma FourTimes(c: nat, m: nat, n: nat)
    requires m < 4
    ensures (c * 4 + m) / 4 == c && (c * 4 + m + n) % 4 == (m + n) % 4
  {
    SameRest(m + n, c);
  }

  lemma RestAdds(x: nat, n: nat)
    ensures (x % 4 + n) % 4 == (x + n) % 4
  {
    SameRest(x % 4 + n, x / 4);
  }

  lemma {:induction false} SameRest(x: nat, c: nat)
    ensures (x + 4 * c) % 4 == x % 4
  {
    if c > 0 {
      SameRest(x, c - 1);
    }
  }

  lemma BelowMixed(s: Block, i: nat, k: nat)
    requires i < 16
    ensures Below(MixColumns(s), i, k)
         == MixByte(Below(s, i, k), Below(s, i, k + 1), Below(s, i, k + 2), Below(s, i, k + 3))
  {
    hide MixByte, Down;
    var j := Down(i, k);
    assert MixColumns(s)[j] == MixByte(Below(s, j, 0), Below(s, j, 1), Below(s, j, 2), Below(s, j, 3));
    DownDown(i, k, 0);
    DownDown(i, k, 1);
    DownDown(i, k, 2);
    DownDown(i, k, 3);
  }

  lemma DownWraps(i: nat, k: nat)
    requires i < 16
    ensures Down(i, 0) == i
    ensures Down(i, k + 4) == Down(i, k)
  {
    assert i == i / 4 * 4 + i % 4;
    assert i + k + 4 == 4 * ((i + k) / 4 + 1) + (i + k) % 4;
  }

  lemma UnmixColumnsAt(s: Block, i: nat)
    requires i < 16
    ensures InvMixColumns(MixColumns(s))[i] == s[i]
  {
    hide MixByte, UnmixByte, MixColumns, Down;
    DownWraps(i, 0);
    DownWraps(i, 1);
    DownWraps(i, 2);
    BelowMixed(s, i, 0);
    BelowMixed(s, i, 1);
    BelowMixed(s, i, 2);
    BelowMixed(s, i, 3);
    UnmixMix(Below(s, i, 0), Below(s, i, 1), Below(s, i, 2), Below(s, i, 3));
  }

  /** InvMixColumns undoes MixColumns. */
  lemma UnmixColumns(s: Block)
    ensures InvMixColumns(MixColumns(s)) == s
  {
    hide MixColumns, InvMixColumns;
    forall i | 0 <= i < 16
      ensures InvMixColumns(MixColumns(s))[i] == s[i]
    {
      UnmixColumnsAt(s, i);
    }
  }

  /** Inverse round n starts from the state that round n ended with. */
  lemma {:induction false} InvRoundsTrace(s: Block, w: Schedule, n: nat)
    requires 1 <= n <= NR
    ensures InvRounds(Cipher(s, w), w, n) == ShiftRows(SubBytes(Rounds(s, w, n - 1)))
    decreases NR - n
  {
    hide AddRoundKey, MixColumns, InvMixColumns, ShiftRows, InvShiftRows, SubBytes, InvSubBytes;
    var before := ShiftRows(SubBytes(Rounds(s, w, n - 1)));
    if n == NR {
      AddRoundKeyTwice(before, w, NR);
    } else {
      InvRoundsTrace(s, w, n + 1);
      UnsubUnshift(Rounds(s, w, n));
      AddRoundKeyTwice(MixColumns(before), w, n);
      UnmixColumns(before);
    }
  }

  /** For every schedule, hence every key, and every block, InvCipher undoes Cipher. */
  lemma InvCipherUndoesCipher(s: Block, w: Schedule)
    ensures InvCipher(Cipher(s, w), w) == s
  {
    hide AddRoundKey, MixColumns, ShiftRows, InvShiftRows, SubBytes, InvSubBytes;
    InvRoundsTrace(s, w, 1);
    UnsubUnshift(Rounds(s, w, 0));
    AddRoundKeyTwice(s, w, 0);
  }

  // -------------------------------------------------------------- and the other way round

  lemma MixColumnsTwiceAt(s: Block, i: nat)
    requires i < 16
    ensures MixColumns(MixColumns(s))[i] == Sum3(Below(s, i, 0), Xtime(Xtime(Below(s, i, 0))), Xtime(Xtime(Below(s, i, 2))))
  {
    hide MixByte, MixColumns, Down, Sum3, Xtime;
    MixedAt(MixColumns(s), i);
    DownWraps(i, 0);
    DownWraps(i, 1);
    DownWraps(i, 2);
    BelowMixed(s, i, 0);
    BelowMixed(s, i, 1);
    BelowMixed(s, i, 2);
    BelowMixed(s, i, 3);
    MixTwice(Below(s, i, 0), Below(s, i, 1), Below(s, i, 2), Below(s, i, 3));
  }

  lemma MixedAt(s: Block, i: nat)
    requires i < 16
    ensures MixColumns(s)[i] == MixByte(Below(s, i, 0), Below(s, i, 1), Below(s, i, 2), Below(s, i, 3))
  {
    hide MixByte;
  }

  lemma MixColumnsFourAt(s: Block, i: nat)
    requires i < 16
    ensures MixColumns(MixColumns(MixColumns(MixColumns(s))))[i] == s[i]
  {
    hide MixByte, MixColumns, Down, Sum3, Xtime;
    var t, j := MixColumns(MixColumns(s)), Down(i, 2);
    MixColumnsTwiceAt(t, i);
    MixColumnsTwiceAt(s, i);
    MixColumnsTwiceAt(s, j);
    DownWraps(i, 0);
    DownDown(i, 2, 0);
    DownDown(i, 2, 2);
    MixFourTimes(Below(s, i, 0), Below(s, i, 2));
  }

  /** MixColumns undoes InvMixColumns. */
  lemma MixUnmixedColumns(s: Block)
    ensures MixColumns(InvMixColumns(s)) == s
  {
    hide MixColumns, InvMixColumns;
    var r := MixColumns(MixColumns(MixColumns(s)));
    forall i | 0 <= i < 16
      ensures MixColumns(r)[i] == s[i]
    {
      MixColumnsFourAt(s, i);
    }
    assert MixColumns(r) == s;
    UnmixColumns(r);
  }

  lemma RightForth(i: nat)
    requires i < 16
    ensures var j := Right(i, i % 4); j % 4 == i % 4 && Right(j, 4 - j % 4) == i
  {
  }

  lemma SubShift(s: Block)
    ensures ShiftRows(SubBytes(InvSubBytes(InvShiftRows(s)))) == s
  {
    hide Right, SboxValue, SboxInvert;
    var u := InvShiftRows(s);
    var t := SubBytes(InvSubBytes(u));
    forall i | 0 <= i < 16
      ensures t[i] == u[i]
    {
      SboxInverse(u[i]);
    }
    assert t == u;
    forall i | 0 <= i < 16
      ensures ShiftRows(u)[i] == s[i]
    {
      RightForth(i);
      assert ShiftRows(u)[i] == u[Right(i, i % 4)];
    }
  }

  /** Round n ends with the state that inverse round n starts from. */
  lemma {:induction false} RoundsTrace(s: Block, w: Schedule, n: nat)
    requires 1 <= n <= NR
    ensures ShiftRows(SubBytes(Rounds(InvCipher(s, w), w, n - 1))) == InvRounds(s, w, n)
    decreases n
  {
    hide AddRoundKey, MixColumns, InvMixColumns, ShiftRows, InvShiftRows, SubBytes, InvSubBytes;
    var before := InvSubBytes(InvShiftRows(InvRounds(s, w, n)));
    SubShift(InvRounds(s, w, n));
    AddRoundKeyTwice(before, w, n - 1);
    if n > 1 {
      RoundsTrace(s, w, n - 1);
      MixUnmixedColumns(AddRoundKey(before, w, n - 1));
    }
  }

  /** Cipher undoes InvCipher: each of them is a permutation of the blocks. */
  lemma CipherUndoesInvCipher(s: Block, w: Schedule)
    ensures Cipher(InvCipher(s, w), w) == s
  {
    hide AddRoundKey, MixColumns, ShiftRows, InvShiftRows, SubBytes, InvSubBytes, InvCipher;
    RoundsTrace(s, w, NR);
    AddRoundKeyTwice(s, w, NR);
  }
}
