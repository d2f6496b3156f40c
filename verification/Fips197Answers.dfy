/**
 The known answers of FIPS 197: the key expansion of appendix A.1, word by word, and the encryption of appendix B, round by
 round. They hold of no other rotation, round constants, order of the transformations or direction of the shifts.
 */
module Fips197Answers {
  import opened Gf256
  import opened Fips197

  const KEY: Block := [0x2B, 0x7E, 0x15, 0x16, 0x28, 0xAE, 0xD2, 0xA6, 0xAB, 0xF7, 0x15, 0x88, 0x09, 0xCF, 0x4F, 0x3C]

  const PLAIN: Block := [0x32, 0x43, 0xF6, 0xA8, 0x88, 0x5A, 0x30, 0x8D, 0x31, 0x31, 0x98, 0xA2, 0xE0, 0x37, 0x07, 0x34]

  const CIPHERTEXT: Block := [0x39, 0x25, 0x84, 0x1D, 0x02, 0xDC, 0x09, 0xFB, 0xDC, 0x11, 0x85, 0x97, 0x19, 0x6A, 0x0B, 0x32]

  // -------------------------------------------------------------- appendix A.1

  lemma KnownRcon()
    ensures Rcon(1) == 0x01 && Rcon(2) == 0x02 && Rcon(3) == 0x04 && Rcon(4) == 0x08 && Rcon(5) == 0x10
    ensures Rcon(6) == 0x20 && Rcon(7) == 0x40 && Rcon(8) == 0x80 && Rcon(9) == 0x1B && Rcon(10) == 0x36
  {
    assert Rcon(1) == 0x01 && Rcon(2) == 0x02 && Rcon(3) == 0x04;
    assert Rcon(4) == 0x08 && Rcon(5) == 0x10 && Rcon(6) == 0x20;
    assert Rcon(7) == 0x40 && Rcon(8) == 0x80 && Rcon(9) == 0x1B;
  }

  lemma NextWord(key: Block, i: nat)
    requires i >= NK
    ensures Word(key, i) == XorWord(Word(key, i - NK), Transformed(Word(key, i - 1), i))
  {
    hide XorWord, Transformed;
  }

  lemma Words0(key: Block)
    requires key == KEY
    ensures Word(key, 0) == [0x2B, 0x7E, 0x15, 0x16] && Word(key, 1) == [0x28, 0xAE, 0xD2, 0xA6]
    ensures Word(key, 2) == [0xAB, 0xF7, 0x15, 0x88] && Word(key, 3) == [0x09, 0xCF, 0x4F, 0x3C]
  {
  }

  lemma Words1(key: Block)
    requires key == KEY
    ensures Word(key, 4) == [0xA0, 0xFA, 0xFE, 0x17] && Word(key, 5) == [0x88, 0x54, 0x2C, 0xB1]
    ensures Word(key, 6) == [0x23, 0xA3, 0x39, 0x39] && Word(key, 7) == [0x2A, 0x6C, 0x76, 0x05]
  {
    hide Word, Rcon;
    Words0(key);
    KnownRcon();
    NextWord(key, 4);
    NextWord(key, 5);
    NextWord(key, 6);
    NextWord(key, 7);
  }

  lemma Words2(key: Block)
    requires key == KEY
    ensures Word(key, 8) == [0xF2, 0xC2, 0x95, 0xF2] && Word(key, 9) == [0x7A, 0x96, 0xB9, 0x43]
    ensures Word(key, 10) == [0x59, 0x35, 0x80, 0x7A] && Word(key, 11) == [0x73, 0x59, 0xF6, 0x7F]
  {
    hide Word, Rcon;
    Words1(key);
    KnownRcon();
    NextWord(key, 8);
    NextWord(key, 9);
    NextWord(key, 10);
    NextWord(key, 11);
  }

  lemma Words3(key: Block)
    requires key == KEY
    ensures Word(key, 12) == [0x3D, 0x80, 0x47, 0x7D] && Word(key, 13) == [0x47, 0x16, 0xFE, 0x3E]
    ensures Word(key, 14) == [0x1E, 0x23, 0x7E, 0x44] && Word(key, 15) == [0x6D, 0x7A, 0x88, 0x3B]
  {
    hide Word, Rcon;
    Words2(key);
    KnownRcon();
    NextWord(key, 12);
    NextWord(key, 13);
    NextWord(key, 14);
    NextWord(key, 15);
  }

  lemma Words4(key: Block)
    requires key == KEY
    ensures Word(key, 16) == [0xEF, 0x44, 0xA5, 0x41] && Word(key, 17) == [0xA8, 0x52, 0x5B, 0x7F]
    ensures Word(key, 18) == [0xB6, 0x71, 0x25, 0x3B] && Word(key, 19) == [0xDB, 0x0B, 0xAD, 0x00]
  {
    hide Word, Rcon;
    Words3(key);
    KnownRcon();
    NextWord(key, 16);
    NextWord(key, 17);
    NextWord(key, 18);
    NextWord(key, 19);
  }

  lemma Words5(key: Block)
    requires key == KEY
    ensures Word(key, 20) == [0xD4, 0xD1, 0xC6, 0xF8] && Word(key, 21) == [0x7C, 0x83, 0x9D, 0x87]
    ensures Word(key, 22) == [0xCA, 0xF2, 0xB8, 0xBC] && Word(key, 23) == [0x11, 0xF9, 0x15, 0xBC]
  {
    hide Word, Rcon;
    Words4(key);
    KnownRcon();
    NextWord(key, 20);
    NextWord(key, 21);
    NextWord(key, 22);
    NextWord(key, 23);
  }

  lemma Words6(key: Block)
    requires key == KEY
    ensures Word(key, 24) == [0x6D, 0x88, 0xA3, 0x7A] && Word(key, 25) == [0x11, 0x0B, 0x3E, 0xFD]
    ensures Word(key, 26) == [0xDB, 0xF9, 0x86, 0x41] && Word(key, 27) == [0xCA, 0x00, 0x93, 0xFD]
  {
    hide Word, Rcon;
    Words5(key);
    KnownRcon();
    NextWord(key, 24);
    NextWord(key, 25);
    NextWord(key, 26);
    NextWord(key, 27);
  }

  lemma Words7(key: Block)
    requires key == KEY
    ensures Word(key, 28) == [0x4E, 0x54, 0xF7, 0x0E] && Word(key, 29) == [0x5F, 0x5F, 0xC9, 0xF3]
    ensures Word(key, 30) == [0x84, 0xA6, 0x4F, 0xB2] && Word(key, 31) == [0x4E, 0xA6, 0xDC, 0x4F]
  {
    hide Word, Rcon;
    Words6(key);
    KnownRcon();
    NextWord(key, 28);
    NextWord(key, 29);
    NextWord(key, 30);
    NextWord(key, 31);
  }

  lemma Words8(key: Block)
    requires key == KEY
    ensures Word(key, 32) == [0xEA, 0xD2, 0x73, 0x21] && Word(key, 33) == [0xB5, 0x8D, 0xBA, 0xD2]
    ensures Word(key, 34) == [0x31, 0x2B, 0xF5, 0x60] && Word(key, 35) == [0x7F, 0x8D, 0x29, 0x2F]
  {
    hide Word, Rcon;
    Words7(key);
    KnownRcon();
    NextWord(key, 32);
    NextWord(key, 33);
    NextWord(key, 34);
    NextWord(key, 35);
  }

  lemma Words9(key: Block)
    requires key == KEY
    ensures Word(key, 36) == [0xAC, 0x77, 0x66, 0xF3] && Word(key, 37) == [0x19, 0xFA, 0xDC, 0x21]
    ensures Word(key, 38) == [0x28, 0xD1, 0x29, 0x41] && Word(key, 39) == [0x57, 0x5C, 0x00, 0x6E]
  {
    hide Word, Rcon;
    Words8(key);
    KnownRcon();
    NextWord(key, 36);
    NextWord(key, 37);
    NextWord(key, 38);
    NextWord(key, 39);
  }

  lemma Words10(key: Block)
    requires key == KEY
    ensures Word(key, 40) == [0xD0, 0x14, 0xF9, 0xA8] && Word(key, 41) == [0xC9, 0xEE, 0x25, 0x89]
    ensures Word(key, 42) == [0xE1, 0x3F, 0x0C, 0xC8] && Word(key, 43) == [0xB6, 0x63, 0x0C, 0xA6]
  {
    hide Word, Rcon;
    Words9(key);
    KnownRcon();
    NextWord(key, 40);
    NextWord(key, 41);
    NextWord(key, 42);
    NextWord(key, 43);
  }

  /** The words that appendix A.1 begins and ends with. */
  lemma KnownKey()
    ensures Word(KEY, 4) == [0xA0, 0xFA, 0xFE, 0x17] && Word(KEY, 43) == [0xB6, 0x63, 0x0C, 0xA6]
  {
    hide Word;
    Words1(KEY);
    Words10(KEY);
  }

  // -------------------------------------------------------------- appendix B

  predicate Shows(s: Block, b0: bv8, b1: bv8, b2: bv8, b3: bv8, b4: bv8, b5: bv8, b6: bv8, b7: bv8,
                  b8: bv8, b9: bv8, b10: bv8, b11: bv8, b12: bv8, b13: bv8, b14: bv8, b15: bv8)
  {
    && s[0] == b0 && s[1] == b1 && s[2] == b2 && s[3] == b3 && s[4] == b4 && s[5] == b5 && s[6] == b6 && s[7] == b7
    && s[8] == b8 && s[9] == b9 && s[10] == b10 && s[11] == b11 && s[12] == b12 && s[13] == b13 && s[14] == b14 && s[15] == b15
  }

  function Round(s: Block, key: Block, n: nat): Block
    requires n < NR
  {
    AddRoundKey(MixColumns(ShiftRows(SubBytes(s))), ExpandedKey(key), n)
  }

  function LastRound(s: Block, key: Block): Block {
    AddRoundKey(ShiftRows(SubBytes(s)), ExpandedKey(key), NR)
  }

  /** The bytes of column c stand below one another. */
  lemma Below4(c: nat)
    requires c < 4
    ensures Down(4 * c, 0) == 4 * c && Down(4 * c, 1) == 4 * c + 1 && Down(4 * c, 2) == 4 * c + 2 && Down(4 * c, 3) == 4 * c + 3
    ensures Down(4 * c + 1, 0) == 4 * c + 1 && Down(4 * c + 1, 1) == 4 * c + 2 && Down(4 * c + 1, 2) == 4 * c + 3 && Down(4 * c + 1, 3) == 4 * c
    ensures Down(4 * c + 2, 0) == 4 * c + 2 && Down(4 * c + 2, 1) == 4 * c + 3 && Down(4 * c + 2, 2) == 4 * c && Down(4 * c + 2, 3) == 4 * c + 1
    ensures Down(4 * c + 3, 0) == 4 * c + 3 && Down(4 * c + 3, 1) == 4 * c && Down(4 * c + 3, 2) == 4 * c + 1 && Down(4 * c + 3, 3) == 4 * c + 2
  {
    hide Down;
    DownAt(c, 0);
    DownAt(c, 1);
    DownAt(c, 2);
    DownAt(c, 3);
  }

  lemma DownAt(c: nat, r: nat)
    requires c < 4 && r < 4
    ensures Down(4 * c + r, 0) == 4 * c + r && Down(4 * c + r, 1) == 4 * c + (r + 1) % 4
    ensures Down(4 * c + r, 2) == 4 * c + (r + 2) % 4 && Down(4 * c + r, 3) == 4 * c + (r + 3) % 4
  {
    hide Down;
    DownOne(c, r, 0);
    DownOne(c, r, 1);
    DownOne(c, r, 2);
    DownOne(c, r, 3);
  }

  lemma DownOne(c: nat, r: nat, k: nat)
    requires c < 4 && r < 4
    ensures Down(4 * c + r, k) == 4 * c + (r + k) % 4
  {
    FourTimes(c, r, k);
  }

  lemma ShiftedAt(s: Block, i: nat, j: nat)
    requires i < 16 && j == Right(i, i % 4)
    ensures ShiftRows(SubBytes(s))[i] == SboxValue(s[j])
  {
    hide SboxValue, Right;
  }

  lemma KeyAt(s: Block, key: Block, n: nat, c: nat, r: nat)
    requires n <= NR && c < 4 && r < 4
    ensures AddRoundKey(s, ExpandedKey(key), n)[4 * c + r] == Add(s[4 * c + r], Word(key, 4 * n + c)[r])
  {
    hide Word, Add;
    assert (16 * n + 4 * c + r) / 4 == 4 * n + c && (16 * n + 4 * c + r) % 4 == r;
  }

  lemma MixedAt(s: Block, i: nat)
    requires i < 16
    ensures MixColumns(s)[i] == MixByte(s[Down(i, 0)], s[Down(i, 1)], s[Down(i, 2)], s[Down(i, 3)])
  {
    hide MixByte, Down;
  }

  lemma ShiftedColumn(s: Block, c: nat, a: bv8, b: bv8, d: bv8, e: bv8)
    requires c < 4 && a == SboxValue(s[4 * c]) && b == SboxValue(s[Right(4 * c + 1, 1)])
    requires d == SboxValue(s[Right(4 * c + 2, 2)]) && e == SboxValue(s[Right(4 * c + 3, 3)])
    ensures var t := ShiftRows(SubBytes(s)); t[4 * c] == a && t[4 * c + 1] == b && t[4 * c + 2] == d && t[4 * c + 3] == e
  {
    hide SboxValue, ShiftRows, SubBytes;
    ShiftedAt(s, 4 * c, 4 * c);
    ShiftedAt(s, 4 * c + 1, Right(4 * c + 1, 1));
    ShiftedAt(s, 4 * c + 2, Right(4 * c + 2, 2));
    ShiftedAt(s, 4 * c + 3, Right(4 * c + 3, 3));
  }

  /** One column of a round: the bytes on a diagonal, substituted, mixed, and added to a word of the key. */
  lemma MixedColumn(s: Block, key: Block, n: nat, c: nat, k: seq<bv8>, a: bv8, b: bv8, d: bv8, e: bv8)
    requires n < NR && c < 4 && k == Word(key, 4 * n + c) && a == SboxValue(s[4 * c]) && b == SboxValue(s[Right(4 * c + 1, 1)])
    requires d == SboxValue(s[Right(4 * c + 2, 2)]) && e == SboxValue(s[Right(4 * c + 3, 3)])
    ensures var t := Round(s, key, n);
      && t[4 * c] == Add(MixByte(a, b, d, e), k[0]) && t[4 * c + 1] == Add(MixByte(b, d, e, a), k[1])
      && t[4 * c + 2] == Add(MixByte(d, e, a, b), k[2]) && t[4 * c + 3] == Add(MixByte(e, a, b, d), k[3])
  {
    hide MixByte, SboxValue, Add, AddRoundKey, MixColumns, ShiftRows, SubBytes, ExpandedKey, Word, Down, Right;
    var t := ShiftRows(SubBytes(s));
    ShiftedColumn(s, c, a, b, d, e);
    Below4(c);
    MixedAt(t, 4 * c);
    MixedAt(t, 4 * c + 1);
    MixedAt(t, 4 * c + 2);
    MixedAt(t, 4 * c + 3);
    KeyAt(MixColumns(t), key, n, c, 0);
    KeyAt(MixColumns(t), key, n, c, 1);
    KeyAt(MixColumns(t), key, n, c, 2);
    KeyAt(MixColumns(t), key, n, c, 3);
  }

  lemma Column(s: Block, key: Block, n: nat, c: nat, k: seq<bv8>, a: bv8, b: bv8, d: bv8, e: bv8)
    requires n < NR && c < 4 && k == Word(key, 4 * n + c) && a == SboxValue(s[4 * c]) && b == SboxValue(s[Right(4 * c + 1, 1)])
    requires d == SboxValue(s[Right(4 * c + 2, 2)]) && e == SboxValue(s[Right(4 * c + 3, 3)])
    ensures var t := Round(s, key, n);
      && t[4 * c] == Add(Sum5(Xtime(a), b, Xtime(b), d, e), k[0]) && t[4 * c + 1] == Add(Sum5(Xtime(b), d, Xtime(d), e, a), k[1])
      && t[4 * c + 2] == Add(Sum5(Xtime(d), e, Xtime(e), a, b), k[2]) && t[4 * c + 3] == Add(Sum5(Xtime(e), a, Xtime(a), b, d), k[3])
  {
    hide MixByte, SboxValue, Add, Sum5, Xtime, Round, Word, Right;
    MixedColumn(s, key, n, c, k, a, b, d, e);
    MixByteSum(a, b, d, e);
    MixByteSum(b, d, e, a);
    MixByteSum(d, e, a, b);
    MixByteSum(e, a, b, d);
  }

  lemma LastColumn(s: Block, key: Block, c: nat, k: seq<bv8>, a: bv8, b: bv8, d: bv8, e: bv8)
    requires c < 4 && k == Word(key, 40 + c) && a == SboxValue(s[4 * c]) && b == SboxValue(s[Right(4 * c + 1, 1)])
    requires d == SboxValue(s[Right(4 * c + 2, 2)]) && e == SboxValue(s[Right(4 * c + 3, 3)])
    ensures var t := LastRound(s, key);
      t[4 * c] == Add(a, k[0]) && t[4 * c + 1] == Add(b, k[1]) && t[4 * c + 2] == Add(d, k[2]) && t[4 * c + 3] == Add(e, k[3])
  {
    hide SboxValue, Add, AddRoundKey, ShiftRows, SubBytes, ExpandedKey, Word, Right;
    var t := ShiftRows(SubBytes(s));
    ShiftedColumn(s, c, a, b, d, e);
    KeyAt(t, key, NR, c, 0);
    KeyAt(t, key, NR, c, 1);
    KeyAt(t, key, NR, c, 2);
    KeyAt(t, key, NR, c, 3);
  }

  lemma Round1(s: Block, key: Block)
    requires key == KEY && Shows(s, 0x19, 0x3D, 0xE3, 0xBE, 0xA0, 0xF4, 0xE2, 0x2B, 0x9A, 0xC6, 0x8D, 0x2A, 0xE9, 0xF8, 0x48, 0x08)
    ensures Shows(Round(s, key, 1), 0xA4, 0x9C, 0x7F, 0xF2, 0x68, 0x9F, 0x35, 0x2B, 0x6B, 0x5B, 0xEA, 0x43, 0x02, 0x6A, 0x50, 0x49)
  {
    hide Round, Word;
    Words1(key);
    Column(s, key, 1, 0, [0xA0, 0xFA, 0xFE, 0x17], 0xD4, 0xBF, 0x5D, 0x30);
    Column(s, key, 1, 1, [0x88, 0x54, 0x2C, 0xB1], 0xE0, 0xB4, 0x52, 0xAE);
    Column(s, key, 1, 2, [0x23, 0xA3, 0x39, 0x39], 0xB8, 0x41, 0x11, 0xF1);
    Column(s, key, 1, 3, [0x2A, 0x6C, 0x76, 0x05], 0x1E, 0x27, 0x98, 0xE5);
  }

  lemma Round2(s: Block, key: Block)
    requires key == KEY && Shows(s, 0xA4, 0x9C, 0x7F, 0xF2, 0x68, 0x9F, 0x35, 0x2B, 0x6B, 0x5B, 0xEA, 0x43, 0x02, 0x6A, 0x50, 0x49)
    ensures Shows(Round(s, key, 2), 0xAA, 0x8F, 0x5F, 0x03, 0x61, 0xDD, 0xE3, 0xEF, 0x82, 0xD2, 0x4A, 0xD2, 0x68, 0x32, 0x46, 0x9A)
  {
    hide Round, Word;
    Words2(key);
    Column(s, key, 2, 0, [0xF2, 0xC2, 0x95, 0xF2], 0x49, 0xDB, 0x87, 0x3B);
    Column(s, key, 2, 1, [0x7A, 0x96, 0xB9, 0x43], 0x45, 0x39, 0x53, 0x89);
    Column(s, key, 2, 2, [0x59, 0x35, 0x80, 0x7A], 0x7F, 0x02, 0xD2, 0xF1);
    Column(s, key, 2, 3, [0x73, 0x59, 0xF6, 0x7F], 0x77, 0xDE, 0x96, 0x1A);
  }

  lemma Round3(s: Block, key: Block)
    requires key == KEY && Shows(s, 0xAA, 0x8F, 0x5F, 0x03, 0x61, 0xDD, 0xE3, 0xEF, 0x82, 0xD2, 0x4A, 0xD2, 0x68, 0x32, 0x46, 0x9A)
    ensures Shows(Round(s, key, 3), 0x48, 0x6C, 0x4E, 0xEE, 0x67, 0x1D, 0x9D, 0x0D, 0x4D, 0xE3, 0xB1, 0x38, 0xD6, 0x5F, 0x58, 0xE7)
  {
    hide Round, Word;
    Words3(key);
    Column(s, key, 3, 0, [0x3D, 0x80, 0x47, 0x7D], 0xAC, 0xC1, 0xD6, 0xB8);
    Column(s, key, 3, 1, [0x47, 0x16, 0xFE, 0x3E], 0xEF, 0xB5, 0x5A, 0x7B);
    Column(s, key, 3, 2, [0x1E, 0x23, 0x7E, 0x44], 0x13, 0x23, 0xCF, 0xDF);
    Column(s, key, 3, 3, [0x6D, 0x7A, 0x88, 0x3B], 0x45, 0x73, 0x11, 0xB5);
  }

  lemma Round4(s: Block, key: Block)
    requires key == KEY && Shows(s, 0x48, 0x6C, 0x4E, 0xEE, 0x67, 0x1D, 0x9D, 0x0D, 0x4D, 0xE3, 0xB1, 0x38, 0xD6, 0x5F, 0x58, 0xE7)
    ensures Shows(Round(s, key, 4), 0xE0, 0x92, 0x7F, 0xE8, 0xC8, 0x63, 0x63, 0xC0, 0xD9, 0xB1, 0x35, 0x50, 0x85, 0xB8, 0xBE, 0x01)
  {
    hide Round, Word;
    Words4(key);
    Column(s, key, 4, 0, [0xEF, 0x44, 0xA5, 0x41], 0x52, 0xA4, 0xC8, 0x94);
    Column(s, key, 4, 1, [0xA8, 0x52, 0x5B, 0x7F], 0x85, 0x11, 0x6A, 0x28);
    Column(s, key, 4, 2, [0xB6, 0x71, 0x25, 0x3B], 0xE3, 0xCF, 0x2F, 0xD7);
    Column(s, key, 4, 3, [0xDB, 0x0B, 0xAD, 0x00], 0xF6, 0x50, 0x5E, 0x07);
  }

  lemma Round5(s: Block, key: Block)
    requires key == KEY && Shows(s, 0xE0, 0x92, 0x7F, 0xE8, 0xC8, 0x63, 0x63, 0xC0, 0xD9, 0xB1, 0x35, 0x50, 0x85, 0xB8, 0xBE, 0x01)
    ensures Shows(Round(s, key, 5), 0xF1, 0x00, 0x6F, 0x55, 0xC1, 0x92, 0x4C, 0xEF, 0x7C, 0xC8, 0x8B, 0x32, 0x5D, 0xB5, 0xD5, 0x0C)
  {
    hide Round, Word;
    Words5(key);
    Column(s, key, 5, 0, [0xD4, 0xD1, 0xC6, 0xF8], 0xE1, 0xFB, 0x96, 0x7C);
    Column(s, key, 5, 1, [0x7C, 0x83, 0x9D, 0x87], 0xE8, 0xC8, 0xAE, 0x9B);
    Column(s, key, 5, 2, [0xCA, 0xF2, 0xB8, 0xBC], 0x35, 0x6C, 0xD2, 0xBA);
    Column(s, key, 5, 3, [0x11, 0xF9, 0x15, 0xBC], 0x97, 0x4F, 0xFB, 0x53);
  }

  lemma Round6(s: Block, key: Block)
    requires key == KEY && Shows(s, 0xF1, 0x00, 0x6F, 0x55, 0xC1, 0x92, 0x4C, 0xEF, 0x7C, 0xC8, 0x8B, 0x32, 0x5D, 0xB5, 0xD5, 0x0C)
    ensures Shows(Round(s, key, 6), 0x26, 0x0E, 0x2E, 0x17, 0x3D, 0x41, 0xB7, 0x7D, 0xE8, 0x64, 0x72, 0xA9, 0xFD, 0xD2, 0x8B, 0x25)
  {
    hide Round, Word;
    Words6(key);
    Column(s, key, 6, 0, [0x6D, 0x88, 0xA3, 0x7A], 0xA1, 0x4F, 0x3D, 0xFE);
    Column(s, key, 6, 1, [0x11, 0x0B, 0x3E, 0xFD], 0x78, 0xE8, 0x03, 0xFC);
    Column(s, key, 6, 2, [0xDB, 0xF9, 0x86, 0x41], 0x10, 0xD5, 0xA8, 0xDF);
    Column(s, key, 6, 3, [0xCA, 0x00, 0x93, 0xFD], 0x4C, 0x63, 0x29, 0x23);
  }

  lemma Round7(s: Block, key: Block)
    requires key == KEY && Shows(s, 0x26, 0x0E, 0x2E, 0x17, 0x3D, 0x41, 0xB7, 0x7D, 0xE8, 0x64, 0x72, 0xA9, 0xFD, 0xD2, 0x8B, 0x25)
    ensures Shows(Round(s, key, 7), 0x5A, 0x41, 0x42, 0xB1, 0x19, 0x49, 0xDC, 0x1F, 0xA3, 0xE0, 0x19, 0x65, 0x7A, 0x8C, 0x04, 0x0C)
  {
    hide Round, Word;
    Words7(key);
    Column(s, key, 7, 0, [0x4E, 0x54, 0xF7, 0x0E], 0xF7, 0x83, 0x40, 0x3F);
    Column(s, key, 7, 1, [0x5F, 0x5F, 0xC9, 0xF3], 0x27, 0x43, 0x3D, 0xF0);
    Column(s, key, 7, 2, [0x84, 0xA6, 0x4F, 0xB2], 0x9B, 0xB5, 0x31, 0xFF);
    Column(s, key, 7, 3, [0x4E, 0xA6, 0xDC, 0x4F], 0x54, 0xAB, 0xA9, 0xD3);
  }

  lemma Round8(s: Block, key: Block)
    requires key == KEY && Shows(s, 0x5A, 0x41, 0x42, 0xB1, 0x19, 0x49, 0xDC, 0x1F, 0xA3, 0xE0, 0x19, 0x65, 0x7A, 0x8C, 0x04, 0x0C)
    ensures Shows(Round(s, key, 8), 0xEA, 0x83, 0x5C, 0xF0, 0x04, 0x45, 0x33, 0x2D, 0x65, 0x5D, 0x98, 0xAD, 0x85, 0x96, 0xB0, 0xC5)
  {
    hide Round, Word;
    Words8(key);
    Column(s, key, 8, 0, [0xEA, 0xD2, 0x73, 0x21], 0xBE, 0x3B, 0xD4, 0xFE);
    Column(s, key, 8, 1, [0xB5, 0x8D, 0xBA, 0xD2], 0xD4, 0xE1, 0xF2, 0xC8);
    Column(s, key, 8, 2, [0x31, 0x2B, 0xF5, 0x60], 0x0A, 0x64, 0x2C, 0xC0);
    Column(s, key, 8, 3, [0x7F, 0x8D, 0x29, 0x2F], 0xDA, 0x83, 0x86, 0x4D);
  }

  lemma Round9(s: Block, key: Block)
    requires key == KEY && Shows(s, 0xEA, 0x83, 0x5C, 0xF0, 0x04, 0x45, 0x33, 0x2D, 0x65, 0x5D, 0x98, 0xAD, 0x85, 0x96, 0xB0, 0xC5)
    ensures Shows(Round(s, key, 9), 0xEB, 0x40, 0xF2, 0x1E, 0x59, 0x2E, 0x38, 0x84, 0x8B, 0xA1, 0x13, 0xE7, 0x1B, 0xC3, 0x42, 0xD2)
  {
    hide Round, Word;
    Words9(key);
    Column(s, key, 9, 0, [0xAC, 0x77, 0x66, 0xF3], 0x87, 0x6E, 0x46, 0xA6);
    Column(s, key, 9, 1, [0x19, 0xFA, 0xDC, 0x21], 0xF2, 0x4C, 0xE7, 0x8C);
    Column(s, key, 9, 2, [0x28, 0xD1, 0x29, 0x41], 0x4D, 0x90, 0x4A, 0xD8);
    Column(s, key, 9, 3, [0x57, 0x5C, 0x00, 0x6E], 0x97, 0xEC, 0xC3, 0x95);
  }

  lemma Round10(s: Block, key: Block)
    requires key == KEY && Shows(s, 0xEB, 0x40, 0xF2, 0x1E, 0x59, 0x2E, 0x38, 0x84, 0x8B, 0xA1, 0x13, 0xE7, 0x1B, 0xC3, 0x42, 0xD2)
    ensures Shows(LastRound(s, key), 0x39, 0x25, 0x84, 0x1D, 0x02, 0xDC, 0x09, 0xFB, 0xDC, 0x11, 0x85, 0x97, 0x19, 0x6A, 0x0B, 0x32)
  {
    hide LastRound, Word;
    Words10(key);
    LastColumn(s, key, 0, [0xD0, 0x14, 0xF9, 0xA8], 0xE9, 0x31, 0x7D, 0xB5);
    LastColumn(s, key, 1, [0xC9, 0xEE, 0x25, 0x89], 0xCB, 0x32, 0x2C, 0x72);
    LastColumn(s, key, 2, [0xE1, 0x3F, 0x0C, 0xC8], 0x3D, 0x2E, 0x89, 0x5F);
    LastColumn(s, key, 3, [0xB6, 0x63, 0x0C, 0xA6], 0xAF, 0x09, 0x07, 0x94);
  }

  lemma FirstKey(s: Block, key: Block)
    requires key == KEY && Shows(s, 0x32, 0x43, 0xF6, 0xA8, 0x88, 0x5A, 0x30, 0x8D, 0x31, 0x31, 0x98, 0xA2, 0xE0, 0x37, 0x07, 0x34)
    ensures Shows(AddRoundKey(s, ExpandedKey(key), 0), 0x19, 0x3D, 0xE3, 0xBE, 0xA0, 0xF4, 0xE2, 0x2B, 0x9A, 0xC6, 0x8D, 0x2A, 0xE9, 0xF8, 0x48, 0x08)
  {
    hide Word, ExpandedKey, AddRoundKey;
    Words0(key);
    KeyAt(s, key, 0, 0, 0);
    KeyAt(s, key, 0, 0, 1);
    KeyAt(s, key, 0, 0, 2);
    KeyAt(s, key, 0, 0, 3);
    KeyAt(s, key, 0, 1, 0);
    KeyAt(s, key, 0, 1, 1);
    KeyAt(s, key, 0, 1, 2);
    KeyAt(s, key, 0, 1, 3);
    KeyAt(s, key, 0, 2, 0);
    KeyAt(s, key, 0, 2, 1);
    KeyAt(s, key, 0, 2, 2);
    KeyAt(s, key, 0, 2, 3);
    KeyAt(s, key, 0, 3, 0);
    KeyAt(s, key, 0, 3, 1);
    KeyAt(s, key, 0, 3, 2);
    KeyAt(s, key, 0, 3, 3);
  }

  lemma RoundsNext(s: Block, key: Block, n: nat)
    requires 0 < n < NR
    ensures Rounds(s, ExpandedKey(key), n) == Round(Rounds(s, ExpandedKey(key), n - 1), key, n)
    ensures Rounds(s, ExpandedKey(key), 0) == AddRoundKey(s, ExpandedKey(key), 0)
    ensures Cipher(s, ExpandedKey(key)) == LastRound(Rounds(s, ExpandedKey(key), NR - 1), key)
  {
    hide AddRoundKey, MixColumns, ShiftRows, SubBytes, ExpandedKey;
  }

  /** The encryption of appendix B. */
  lemma KnownCipher()
    ensures Cipher(PLAIN, ExpandedKey(KEY)) == CIPHERTEXT
  {
    hide Round, LastRound, Rounds, Cipher, ExpandedKey, AddRoundKey;
    var w := ExpandedKey(KEY);
    FirstKey(PLAIN, KEY);
    RoundsNext(PLAIN, KEY, 1);
    Round1(Rounds(PLAIN, w, 0), KEY);
    RoundsNext(PLAIN, KEY, 2);
    Round2(Rounds(PLAIN, w, 1), KEY);
    RoundsNext(PLAIN, KEY, 3);
    Round3(Rounds(PLAIN, w, 2), KEY);
    RoundsNext(PLAIN, KEY, 4);
    Round4(Rounds(PLAIN, w, 3), KEY);
    RoundsNext(PLAIN, KEY, 5);
    Round5(Rounds(PLAIN, w, 4), KEY);
    RoundsNext(PLAIN, KEY, 6);
    Round6(Rounds(PLAIN, w, 5), KEY);
    RoundsNext(PLAIN, KEY, 7);
    Round7(Rounds(PLAIN, w, 6), KEY);
    RoundsNext(PLAIN, KEY, 8);
    Round8(Rounds(PLAIN, w, 7), KEY);
    RoundsNext(PLAIN, KEY, 9);
    Round9(Rounds(PLAIN, w, 8), KEY);
    Round10(Rounds(PLAIN, w, 9), KEY);
    Shown(Cipher(PLAIN, w));
  }

  lemma Shown(s: Block)
    requires Shows(s, 0x39, 0x25, 0x84, 0x1D, 0x02, 0xDC, 0x09, 0xFB, 0xDC, 0x11, 0x85, 0x97, 0x19, 0x6A, 0x0B, 0x32)
    ensures s == CIPHERTEXT
  {
  }
}
