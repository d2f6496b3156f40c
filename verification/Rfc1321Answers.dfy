/**
 Known answers of RFC 1321: the initial state as section 3.3 gives it, in bytes, and two digests of the test suite of
 section A.5, of a message of one block and of one that fills more. The steps are gone through round by round.
 */
module Rfc1321Answers {
  import opened Rfc1321

  /** The four words of section 3.3, low-order byte first. */
  lemma InitialState()
    ensures Output(INIT) == [0x01, 0x23, 0x45, 0x67, 0x89, 0xAB, 0xCD, 0xEF, 0xFE, 0xDC, 0xBA, 0x98, 0x76, 0x54, 0x32, 0x10]
  {
  }

  /** One step with its sum and its new register worked out. */
  lemma Next(s: Quad, x: Words, r: nat, j: nat, q: Quad, sum: bv32, b: bv32) returns (n: Quad)
    requires r < 4 && j < 16 && q == Steps(s, x, 16 * r + j)
    requires var row := Table(r, j); Sum4(q.a, Aux(r, q.b, q.c, q.d), x[row.k], row.t) == sum && Plus(q.b, Rotate(sum, row.s)) == b
    ensures n == Quad(q.d, b, q.b, q.c) == Steps(s, x, 16 * r + j + 1)
  {
    hide Sum4, Aux, Plus, Rotate, Table;
    n := Quad(q.d, b, q.b, q.c);
    StepIs(s, x, r, j, q);
  }

  lemma StepIs(s: Quad, x: Words, r: nat, j: nat, q: Quad)
    requires r < 4 && j < 16 && q == Steps(s, x, 16 * r + j)
    ensures var row := Table(r, j);
      Steps(s, x, 16 * r + j + 1) == Quad(q.d, Plus(q.b, Rotate(Sum4(q.a, Aux(r, q.b, q.c, q.d), x[row.k], row.t), row.s)), q.b, q.c)
  {
    hide Sum4, Aux, Plus, Rotate, Table;
    assert RoundOf(16 * r + j) == r;
  }

  lemma NoStep(s: Quad, x: Words)
    ensures Steps(s, x, 0) == s
  {
  }

  predicate Holds(x: Words, w0: bv32, w1: bv32, w2: bv32, w3: bv32, w4: bv32, w5: bv32, w6: bv32, w7: bv32,
                  w8: bv32, w9: bv32, w10: bv32, w11: bv32, w12: bv32, w13: bv32, w14: bv32, w15: bv32)
  {
    && x[0] == w0 && x[1] == w1 && x[2] == w2 && x[3] == w3 && x[4] == w4 && x[5] == w5 && x[6] == w6 && x[7] == w7
    && x[8] == w8 && x[9] == w9 && x[10] == w10 && x[11] == w11 && x[12] == w12 && x[13] == w13 && x[14] == w14 && x[15] == w15
  }

  lemma WordIs(b: seq<bv8>, at: nat, w: bv32)
    requires at + 4 <= |b| && WordAt(b, at) == w && |b| == 64 && at % 4 == 0
    ensures WordsOf(b)[at / 4] == w
  {
    hide WordAt;
  }


  /** The length in bits of a message of less than 8192 bytes. */
  lemma ShortLength(n: nat, low: nat, high: nat)
    requires n == low + 256 * high && low < 256 && high < 256
    ensures Length64(n) == [Byte(low), Byte(high), Byte(0), Byte(0), Byte(0), Byte(0), Byte(0), Byte(0)]
  {
    hide Byte;
    assert n % 256 == low && n / 0x100 == high && n / 0x1_0000 == 0;
    SameByte(n, low);
  }

  lemma SameByte(n: nat, low: nat)
    requires n % 256 == low % 256
    ensures Byte(n) == Byte(low)
  {
  }

  lemma KnownBytes()
    ensures Byte(0) == 0 && Byte(2) == 2 && Byte(24) == 24 && Byte(128) == 128
  {
  }

  lemma OneBlock(m: seq<bv8>, b: seq<bv8>, s: Quad)
    requires |m| >= 64 && b == m[0..64] && s == Steps(INIT, WordsOf(b), 64)
    ensures Absorb(m, 1) == Sum(INIT, s)
  {
    hide Steps, WordsOf, Sum;
  }

  lemma TwoBlocks(m: seq<bv8>, b: seq<bv8>, q: Quad, s: Quad)
    requires |m| >= 128 && q == Absorb(m, 1) && b == m[64..128] && s == Steps(q, WordsOf(b), 64)
    ensures Absorb(m, 2) == Sum(q, s)
  {
    hide Steps, WordsOf, Sum;
  }

  // -------------------------------------------------------------- "abc"

  predicate Abc(x: Words) {
    Holds(x, 0x80636261, 0x00000000, 0x00000000, 0x00000000, 0x00000000, 0x00000000, 0x00000000, 0x00000000,
            0x00000000, 0x00000000, 0x00000000, 0x00000000, 0x00000000, 0x00000000, 0x00000018, 0x00000000)
  }

  lemma AbcRound1(x: Words, s: Quad)
    requires Abc(x) && s == Quad(0x67452301, 0xEFCDAB89, 0x98BADCFE, 0x10325476)
    ensures Steps(s, x, 16) == Quad(0xDDA9B9A6, 0x72AFF2E0, 0xE396856B, 0xA1051895)
  {
    hide Steps, Table2, Table3, Table4, G, H, I;
    NoStep(s, x);
    var q := s;
    q := Next(s, x, 0, 0, q, 0x57CE06D8, 0xD6D117B4);
    q := Next(s, x, 0, 1, q, 0xC7E5D796, 0x344A8432);
    q := Next(s, x, 0, 2, q, 0x9CA07D92, 0x2F6FBD72);
    q := Next(s, x, 0, 3, q, 0xA666012D, 0x7AD956F2);
    q := Next(s, x, 0, 4, q, 0xFA98BBD5, 0xC73741EF);
    q := Next(s, x, 0, 5, q, 0xE62C474E, 0x8BAC3051);
    q := Next(s, x, 0, 6, q, 0xCB154A68, 0x207DC67B);
    q := Next(s, x, 0, 7, q, 0x3F4DEDC8, 0x928D99F6);
    q := Next(s, x, 0, 8, q, 0x39E57B3A, 0x854B3712);
    q := Next(s, x, 0, 9, q, 0xB72EF97B, 0x74E2F284);
    q := Next(s, x, 0, 10, q, 0xA6CC5D9E, 0x3020401C);
    q := Next(s, x, 0, 11, q, 0xD155E8BA, 0x5ED49596);
    q := Next(s, x, 0, 12, q, 0x20FDAA48, 0xDDA9B9A6);
    q := Next(s, x, 0, 13, q, 0xEEFC35B5, 0xA1051895);
    q := Next(s, x, 0, 14, q, 0xB66B2148, 0xE396856B);
    q := Next(s, x, 0, 15, q, 0x65B5D63C, 0x72AFF2E0);
  }

  lemma AbcRound2(x: Words, s: Quad)
    requires Abc(x) && s == Quad(0x67452301, 0xEFCDAB89, 0x98BADCFE, 0x10325476)
    requires Steps(s, x, 16) == Quad(0xDDA9B9A6, 0x72AFF2E0, 0xE396856B, 0xA1051895)
    ensures Steps(s, x, 32) == Quad(0x790A77FB, 0x726342D3, 0xA62884AA, 0x9F47E4F8)
  {
    hide Steps, Table1, Table3, Table4, F, H, I;
    var q := Quad(0xDDA9B9A6, 0x72AFF2E0, 0xE396856B, 0xA1051895);
    q := Next(s, x, 1, 0, q, 0x365F74F2, 0x3E9E9126);
    q := Next(s, x, 1, 1, q, 0x9405BF77, 0x4A1D804E);
    q := Next(s, x, 1, 2, q, 0x58126102, 0xE25E1652);
    q := Next(s, x, 1, 3, q, 0x3EE92D35, 0xB5B204E4);
    q := Next(s, x, 1, 4, q, 0xB51FB7D7, 0x59A8FFDA);
    q := Next(s, x, 1, 5, q, 0xA209AB97, 0x6D002F1E);
    q := Next(s, x, 1, 6, q, 0x2808FBF1, 0xABFC7920);
    q := Next(s, x, 1, 7, q, 0xCB2E79B0, 0x47092C07);
    q := Next(s, x, 1, 8, q, 0x438749E6, 0xB7F268CF);
    q := Next(s, x, 1, 9, q, 0x1828A313, 0x09388EFF);
    q := Next(s, x, 1, 10, q, 0x52CBD376, 0xFE1623B1);
    q := Next(s, x, 1, 11, q, 0x4A7DE7A5, 0x786ACB8F);
    q := Next(s, x, 1, 12, q, 0x6004FD63, 0x790A77FB);
    q := Next(s, x, 1, 13, q, 0x7E931EB6, 0x9F47E4F8);
    q := Next(s, x, 1, 14, q, 0x7EC81B82, 0xA62884AA);
    q := Next(s, x, 1, 15, q, 0xABE29CC3, 0x726342D3);
  }

  lemma AbcRound3(x: Words, s: Quad)
    requires Abc(x) && s == Quad(0x67452301, 0xEFCDAB89, 0x98BADCFE, 0x10325476)
    requires Steps(s, x, 32) == Quad(0x790A77FB, 0x726342D3, 0xA62884AA, 0x9F47E4F8)
    ensures Steps(s, x, 48) == Quad(0x7F2E507B, 0x7BEB9700, 0x8FAE6399, 0x99D9679D)
  {
    hide Steps, Table1, Table2, Table4, F, G, I;
    var q := Quad(0x790A77FB, 0x726342D3, 0xA62884AA, 0x9F47E4F8);
    q := Next(s, x, 2, 0, q, 0xC410D3BE, 0xB3707EBF);
    q := Next(s, x, 2, 1, q, 0x8DF5943F, 0x60127B2E);
    q := Next(s, x, 2, 2, q, 0xB4C72D0E, 0x8D212FF5);
    q := Next(s, x, 2, 3, q, 0xCE8BA55B, 0x3B0875C7);
    q := Next(s, x, 2, 4, q, 0x2E6A8A1F, 0x21B117B9);
    q := Next(s, x, 2, 5, q, 0x43899862, 0x6E7429D5);
    q := Next(s, x, 2, 6, q, 0xF8A9C700, 0x3575227E);
    q := Next(s, x, 2, 7, q, 0x74784E49, 0x5A2F5EA5);
    q := Next(s, x, 2, 8, q, 0x4B7AEB8D, 0x11DE1779);
    q := Next(s, x, 2, 9, q, 0x57FD1FD2, 0xFADCAA38);
    q := Next(s, x, 2, 10, q, 0xBB9236E7, 0x31C465CA);
    q := Next(s, x, 2, 11, q, 0x397E5435, 0x4C6124F4);
    q := Next(s, x, 2, 12, q, 0x732CD2B8, 0x7F2E507B);
    q := Next(s, x, 2, 13, q, 0xE4435562, 0x99D9679D);
    q := Next(s, x, 2, 14, q, 0xFBFCF5D4, 0x8FAE6399);
    q := Next(s, x, 2, 15, q, 0x7A66CFD8, 0x7BEB9700);
  }

  lemma AbcRound4(x: Words, s: Quad)
    requires Abc(x) && s == Quad(0x67452301, 0xEFCDAB89, 0x98BADCFE, 0x10325476)
    requires Steps(s, x, 48) == Quad(0x7F2E507B, 0x7BEB9700, 0x8FAE6399, 0x99D9679D)
    ensures Steps(s, x, 64) == Quad(0x310ADE8F, 0xC08226B3, 0xE484B9D8, 0x624D8CB2)
  {
    hide Steps, Table1, Table2, Table3, F, G, H;
    var q := Quad(0x7F2E507B, 0x7BEB9700, 0x8FAE6399, 0x99D9679D);
    q := Next(s, x, 3, 0, q, 0xE3FCD21B, 0x7B201DF8);
    q := Next(s, x, 3, 1, q, 0xDD9E7232, 0xF4E8E96E);
    q := Next(s, x, 3, 2, q, 0xCB1F7B5F, 0xB298CEFD);
    q := Next(s, x, 3, 3, q, 0xBAB63ECA, 0x8BF025C4);
    q := Next(s, x, 3, 4, q, 0x19EB70E3, 0x06CC5E8A);
    q := Next(s, x, 3, 5, q, 0x4815104E, 0x5B0D97AA);
    q := Next(s, x, 3, 6, q, 0x2C4C44AB, 0x7D632DD0);
    q := Next(s, x, 3, 7, q, 0xB7F2BDF4, 0x3BFA2C27);
    q := Next(s, x, 3, 8, q, 0x390E1E80, 0x7F81CC35);
    q := Next(s, x, 3, 9, q, 0x1DA270A2, 0x094454AB);
    q := Next(s, x, 3, 10, q, 0xD3288CB2, 0x4F9DBE3F);
    q := Next(s, x, 3, 11, q, 0x50BE291C, 0x7327D604);
    q := Next(s, x, 3, 12, q, 0x2EF78C22, 0x310ADE8F);
    q := Next(s, x, 3, 13, q, 0x88CC50AB, 0x624D8CB2);
    q := Next(s, x, 3, 14, q, 0x5A4D046E, 0xE484B9D8);
    q := Next(s, x, 3, 15, q, 0xEB66DEDF, 0xC08226B3);
  }

  lemma AbcSteps(x: Words, s: Quad)
    requires Abc(x) && s == Quad(0x67452301, 0xEFCDAB89, 0x98BADCFE, 0x10325476)
    ensures Steps(s, x, 64) == Quad(0x310ADE8F, 0xC08226B3, 0xE484B9D8, 0x624D8CB2)
  {
    hide Steps, Abc;
    AbcRound1(x, s);
    AbcRound2(x, s);
    AbcRound3(x, s);
    AbcRound4(x, s);
  }

  const ABC: seq<bv8> := [0x61, 0x62, 0x63]

  /** The padded message: the text, a one bit, zeros, and 24 bits as the length. */
  function AbcByte(i: nat): bv8 {
    if i == 0 then 0x61 else if i == 1 then 0x62 else if i == 2 then 0x63 else if i == 3 then 0x80 else if i == 56 then 24 else 0
  }

  lemma AbcPadded()
    ensures |Padded(ABC)| == 64 && forall i :: 0 <= i < 64 ==> Padded(ABC)[i] == AbcByte(i)
  {
    hide Length64, Byte;
    ShortLength(24, 24, 0);
    KnownBytes();
  }

  lemma AbcWords1(b: seq<bv8>)
    requires |b| == 64 && forall i :: 0 <= i < 64 ==> b[i] == AbcByte(i)
    ensures var x := WordsOf(b); x[0] == 0x80636261 && x[1] == 0x00000000 && x[2] == 0x00000000 && x[3] == 0x00000000 && x[4] == 0x00000000 && x[5] == 0x00000000 && x[6] == 0x00000000 && x[7] == 0x00000000
  {
    hide WordsOf;
    WordIs(b, 0, 0x80636261);
    WordIs(b, 4, 0x00000000);
    WordIs(b, 8, 0x00000000);
    WordIs(b, 12, 0x00000000);
    WordIs(b, 16, 0x00000000);
    WordIs(b, 20, 0x00000000);
    WordIs(b, 24, 0x00000000);
    WordIs(b, 28, 0x00000000);
  }

  lemma AbcWords2(b: seq<bv8>)
    requires |b| == 64 && forall i :: 0 <= i < 64 ==> b[i] == AbcByte(i)
    ensures var x := WordsOf(b); x[8] == 0x00000000 && x[9] == 0x00000000 && x[10] == 0x00000000 && x[11] == 0x00000000 && x[12] == 0x00000000 && x[13] == 0x00000000 && x[14] == 0x00000018 && x[15] == 0x00000000
  {
    hide WordsOf;
    WordIs(b, 32, 0x00000000);
    WordIs(b, 36, 0x00000000);
    WordIs(b, 40, 0x00000000);
    WordIs(b, 44, 0x00000000);
    WordIs(b, 48, 0x00000000);
    WordIs(b, 52, 0x00000000);
    WordIs(b, 56, 0x00000018);
    WordIs(b, 60, 0x00000000);
  }

  lemma AbcOutput()
    ensures Sum(Quad(0x67452301, 0xEFCDAB89, 0x98BADCFE, 0x10325476), Quad(0x310ADE8F, 0xC08226B3, 0xE484B9D8, 0x624D8CB2)) == Quad(0x98500190, 0xB04FD23C, 0x7D3F96D6, 0x727FE128)
    ensures Output(Quad(0x98500190, 0xB04FD23C, 0x7D3F96D6, 0x727FE128)) == [0x90, 0x01, 0x50, 0x98, 0x3C, 0xD2, 0x4F, 0xB0, 0xD6, 0x96, 0x3F, 0x7D, 0x28, 0xE1, 0x7F, 0x72]
  {
  }

  lemma DigestOfAbc()
    ensures Md5(ABC) == [0x90, 0x01, 0x50, 0x98, 0x3C, 0xD2, 0x4F, 0xB0, 0xD6, 0x96, 0x3F, 0x7D, 0x28, 0xE1, 0x7F, 0x72]
  {
    hide Padded, WordsOf, Steps, Absorb, Output, Sum, AbcByte;
    AbcPadded();
    var b := Padded(ABC)[0..64];
    AbcWords1(b);
    AbcWords2(b);
    AbcSteps(WordsOf(b), INIT);
    OneBlock(Padded(ABC), b, Quad(0x310ADE8F, 0xC08226B3, 0xE484B9D8, 0x624D8CB2));
    AbcOutput();
  }

  // -------------------------------------------------------------- eight times "1234567890", first block

  predicate Front(x: Words) {
    Holds(x, 0x34333231, 0x38373635, 0x32313039, 0x36353433, 0x30393837, 0x34333231, 0x38373635, 0x32313039,
            0x36353433, 0x30393837, 0x34333231, 0x38373635, 0x32313039, 0x36353433, 0x30393837, 0x34333231)
  }

  lemma FrontRound1(x: Words, s: Quad)
    requires Front(x) && s == Quad(0x67452301, 0xEFCDAB89, 0x98BADCFE, 0x10325476)
    ensures Steps(s, x, 16) == Quad(0x5157E49E, 0xAF506A03, 0x27E983A0, 0xFFAC907E)
  {
    hide Steps, Table2, Table3, Table4, G, H, I;
    NoStep(s, x);
    var q := s;
    q := Next(s, x, 0, 0, q, 0x0B9DD6A8, 0xBEB8FF8E);
    q := Next(s, x, 0, 1, q, 0xDFBBEDF9, 0x7D989D89);
    q := Next(s, x, 0, 2, q, 0xADEA3D9A, 0xF8CDF95D);
    q := Next(s, x, 0, 3, q, 0x66794E35, 0x862797B0);
    q := Next(s, x, 0, 4, q, 0xDE0BE08D, 0x8C17DE9F);
    q := Next(s, x, 0, 5, q, 0xEE234DB4, 0xC0F32D81);
    q := Next(s, x, 0, 6, q, 0x5F4D1456, 0xE99FEC1B);
    q := Next(s, x, 0, 7, q, 0x7A329B6F, 0xC57E78C1);
    q := Next(s, x, 0, 8, q, 0xED6D18AB, 0x7C0ACEB7);
    q := Next(s, x, 0, 9, q, 0x4210C5F0, 0x8869D2D8);
    q := Next(s, x, 0, 10, q, 0x6AF1648E, 0x5186A8BA);
    q := Next(s, x, 0, 11, q, 0xB31B4D51, 0xA5F36F8D);
    q := Next(s, x, 0, 12, q, 0x2356C8EA, 0x5157E49E);
    q := Next(s, x, 0, 13, q, 0xBE0AE54A, 0xFFAC907E);
    q := Next(s, x, 0, 14, q, 0x7991141E, 0x27E983A0);
    q := Next(s, x, 0, 15, q, 0x9B998E1D, 0xAF506A03);
  }

  lemma FrontRound2(x: Words, s: Quad)
    requires Front(x) && s == Quad(0x67452301, 0xEFCDAB89, 0x98BADCFE, 0x10325476)
    requires Steps(s, x, 16) == Quad(0x5157E49E, 0xAF506A03, 0x27E983A0, 0xFFAC907E)
    ensures Steps(s, x, 32) == Quad(0xF8BCFBB0, 0x1BF25662, 0x99A0F1B8, 0xD760ED39)
  {
    hide Steps, Table1, Table3, Table4, F, H, I;
    var q := Quad(0x5157E49E, 0xAF506A03, 0x27E983A0, 0xFFAC907E);
    q := Next(s, x, 1, 0, q, 0x2EEE43B7, 0x8D18E0E8);
    q := Next(s, x, 1, 1, q, 0x853D6296, 0x07DE0DF2);
    q := Next(s, x, 1, 2, q, 0x8DD79D10, 0xEF223167);
    q := Next(s, x, 1, 3, q, 0x5D009150, 0x04280170);
    q := Next(s, x, 1, 4, q, 0x83A354EB, 0x78929EE0);
    q := Next(s, x, 1, 5, q, 0xA65F64E6, 0x375C6C2C);
    q := Next(s, x, 1, 6, q, 0x7891E8B9, 0xB18ACA50);
    q := Next(s, x, 1, 7, q, 0x54041FBB, 0xAD400A91);
    q := Next(s, x, 1, 8, q, 0x70702F4D, 0xBB45F43F);
    q := Next(s, x, 1, 9, q, 0xE80D6CCA, 0xD61F8A0F);
    q := Next(s, x, 1, 10, q, 0x729B0A39, 0x98ADE6B5);
    q := Next(s, x, 1, 11, q, 0x04EF41E6, 0xB70E35A9);
    q := Next(s, x, 1, 12, q, 0x3A0D7630, 0xF8BCFBB0);
    q := Next(s, x, 1, 13, q, 0xC4EF51F8, 0xD760ED39);
    q := Next(s, x, 1, 14, q, 0x11FF0900, 0x99A0F1B8);
    q := Next(s, x, 1, 15, q, 0x164AA825, 0x1BF25662);
  }

  lemma FrontRound3(x: Words, s: Quad)
    requires Front(x) && s == Quad(0x67452301, 0xEFCDAB89, 0x98BADCFE, 0x10325476)
    requires Steps(s, x, 32) == Quad(0xF8BCFBB0, 0x1BF25662, 0x99A0F1B8, 0xD760ED39)
    ensures Steps(s, x, 48) == Quad(0x697032EC, 0xDB4197DA, 0xEFC2C171, 0xFA597BFC)
  {
    hide Steps, Table1, Table2, Table4, F, G, I;
    var q := Quad(0xF8BCFBB0, 0x1BF25662, 0x99A0F1B8, 0xD760ED39);
    q := Next(s, x, 2, 0, q, 0x821CB206, 0x3DBD76CA);
    q := Next(s, x, 2, 1, q, 0x54F7E8FD, 0xFD056171);
    q := Next(s, x, 2, 2, q, 0x1ABFCAE8, 0xC7ED7C30);
    q := Next(s, x, 2, 3, q, 0x51663230, 0xE0162F49);
    q := Next(s, x, 2, 4, q, 0xF5B1C94B, 0x3B32C408);
    q := Next(s, x, 2, 5, q, 0x95E700C2, 0x7338D8B7);
    q := Next(s, x, 2, 6, q, 0x98F62BBF, 0x9EF871AD);
    q := Next(s, x, 2, 7, q, 0xA9FB8AFC, 0x1D4D6F72);
    q := Next(s, x, 2, 8, q, 0x8A913D69, 0xC661460A);
    q := Next(s, x, 2, 9, q, 0xD7E18BB7, 0xD2BF04C9);
    q := Next(s, x, 2, 10, q, 0xB3B00416, 0xD6D5B879);
    q := Next(s, x, 2, 11, q, 0x1C18BD66, 0x89E3C4D7);
    q := Next(s, x, 2, 12, q, 0x5DF8C6E1, 0x697032EC);
    q := Next(s, x, 2, 13, q, 0x22121D29, 0xFA597BFC);
    q := Next(s, x, 2, 14, q, 0x4575F569, 0xEFC2C171);
    q := Next(s, x, 2, 15, q, 0xFDACD3D6, 0xDB4197DA);
  }

  lemma FrontRound4(x: Words, s: Quad)
    requires Front(x) && s == Quad(0x67452301, 0xEFCDAB89, 0x98BADCFE, 0x10325476)
    requires Steps(s, x, 48) == Quad(0x697032EC, 0xDB4197DA, 0xEFC2C171, 0xFA597BFC)
    ensures Steps(s, x, 64) == Quad(0x614868EB, 0xB4D33102, 0x5133129B, 0xA09F38A7)
  {
    hide Steps, Table1, Table2, Table3, F, G, H;
    var q := Quad(0x697032EC, 0xDB4197DA, 0xEFC2C171, 0xFA597BFC);
    q := Next(s, x, 3, 0, q, 0xC1F1DE0B, 0x57B91ACA);
    q := Next(s, x, 3, 1, q, 0xFCB254E0, 0x210C9EBC);
    q := Next(s, x, 3, 2, q, 0x3D9801C6, 0x21EFBD88);
    q := Next(s, x, 3, 3, q, 0x94EBCD45, 0xCAA25B01);
    q := Next(s, x, 3, 4, q, 0xEE626B91, 0x633D3F7C);
    q := Next(s, x, 3, 5, q, 0x1BEDC3FF, 0x1A4D3BEB);
    q := Next(s, x, 3, 6, q, 0xB27364B9, 0xCCAA1524);
    q := Next(s, x, 3, 7, q, 0x4F05DD53, 0x7713F5DF);
    q := Next(s, x, 3, 8, q, 0x4434D2F9, 0x8448B430);
    q := Next(s, x, 3, 9, q, 0x0CFB6020, 0x71C93463);
    q := Next(s, x, 3, 10, q, 0x258818C0, 0x7E294727);
    q := Next(s, x, 3, 11, q, 0x09C7B73F, 0x660A801D);
    q := Next(s, x, 3, 12, q, 0x3BECF7A3, 0x614868EB);
    q := Next(s, x, 3, 13, q, 0xEF0FD5B3, 0xA09F38A7);
    q := Next(s, x, 3, 14, q, 0xB3E96127, 0x5133129B);
    q := Next(s, x, 3, 15, q, 0x00F33B1D, 0xB4D33102);
  }

  lemma FrontSteps(x: Words, s: Quad)
    requires Front(x) && s == Quad(0x67452301, 0xEFCDAB89, 0x98BADCFE, 0x10325476)
    ensures Steps(s, x, 64) == Quad(0x614868EB, 0xB4D33102, 0x5133129B, 0xA09F38A7)
  {
    hide Steps, Front;
    FrontRound1(x, s);
    FrontRound2(x, s);
    FrontRound3(x, s);
    FrontRound4(x, s);
  }

  // -------------------------------------------------------------- eight times "1234567890", second block

  predicate Rest(x: Words) {
    Holds(x, 0x38373635, 0x32313039, 0x36353433, 0x30393837, 0x00000080, 0x00000000, 0x00000000, 0x00000000,
            0x00000000, 0x00000000, 0x00000000, 0x00000000, 0x00000000, 0x00000000, 0x00000280, 0x00000000)
  }

  lemma RestRound1(x: Words, s: Quad)
    requires Rest(x) && s == Quad(0xC88D8BEC, 0xA4A0DC8B, 0xE9EDEF99, 0xB0D18D1D)
    ensures Steps(s, x, 16) == Quad(0xDB4FF71C, 0x58B12EAB, 0x04396A39, 0x9B6B4960)
  {
    hide Steps, Table2, Table3, Table4, G, H, I;
    NoStep(s, x);
    var q := s;
    q := Next(s, x, 0, 0, q, 0x89213436, 0x353AF7CF);
    q := Next(s, x, 0, 1, q, 0xB8B05147, 0x3A4F735A);
    q := Next(s, x, 0, 2, q, 0xF8EE9472, 0x63356537);
    q := Next(s, x, 0, 3, q, 0xCCA7D78A, 0x45E88F2C);
    q := Next(s, x, 0, 4, q, 0xA5DE7D74, 0x3527497E);
    q := Next(s, x, 0, 5, q, 0xC90766B1, 0xAB92660E);
    q := Next(s, x, 0, 6, q, 0x70D07478, 0x948347AE);
    q := Next(s, x, 0, 7, q, 0xE4D5728B, 0x377C7D0A);
    q := Next(s, x, 0, 8, q, 0x3B2A2964, 0xCC912F27);
    q := Next(s, x, 0, 9, q, 0x4AE9CB47, 0x6945A3D5);
    q := Next(s, x, 0, 10, q, 0xF2BC226E, 0xAE23894D);
    q := Next(s, x, 0, 11, q, 0x296AFC2F, 0xB9EDE40C);
    q := Next(s, x, 0, 12, q, 0x2042C426, 0xDB4FF71C);
    q := Next(s, x, 0, 13, q, 0x244C01B5, 0x9B6B4960);
    q := Next(s, x, 0, 14, q, 0x106CB467, 0x04396A39);
    q := Next(s, x, 0, 15, q, 0xDF11C951, 0x58B12EAB);
  }

  lemma RestRound2(x: Words, s: Quad)
    requires Rest(x) && s == Quad(0xC88D8BEC, 0xA4A0DC8B, 0xE9EDEF99, 0xB0D18D1D)
    requires Steps(s, x, 16) == Quad(0xDB4FF71C, 0x58B12EAB, 0x04396A39, 0x9B6B4960)
    ensures Steps(s, x, 32) == Quad(0x8761F38E, 0x67092C33, 0x061BC867, 0x7A516116)
  {
    hide Steps, Table1, Table3, Table4, F, H, I;
    var q := Quad(0xDB4FF71C, 0x58B12EAB, 0x04396A39, 0x9B6B4960);
    q := Next(s, x, 1, 0, q, 0x1FD076F0, 0x52C00CAE);
    q := Next(s, x, 1, 1, q, 0xB42C094A, 0xAAD2A216);
    q := Next(s, x, 1, 2, q, 0x3567E690, 0xA476AF6F);
    q := Next(s, x, 1, 3, q, 0x22F1DAC8, 0x50F8DE8C);
    q := Next(s, x, 1, 4, q, 0x2DE3AC78, 0x0D6E6D91);
    q := Next(s, x, 1, 5, q, 0x020533EA, 0x17D64195);
    q := Next(s, x, 1, 6, q, 0x9AEEF785, 0xD5B7A850);
    q := Next(s, x, 1, 7, q, 0x508302E8, 0x043CB080);
    q := Next(s, x, 1, 8, q, 0xF385E437, 0x74F9377E);
    q := Next(s, x, 1, 9, q, 0x2FC67CBB, 0x01F2ADDD);
    q := Next(s, x, 1, 10, q, 0x6BB7960C, 0xE775C8CA);
    q := Next(s, x, 1, 11, q, 0xAF0A4E38, 0xCB00B96E);
    q := Next(s, x, 1, 12, q, 0x05E309D1, 0x8761F38E);
    q := Next(s, x, 1, 13, q, 0xC47977B6, 0x7A516116);
    q := Next(s, x, 1, 14, q, 0x9D462F29, 0x061BC867);
    q := Next(s, x, 1, 15, q, 0xD63CC60E, 0x67092C33);
  }

  lemma RestRound3(x: Words, s: Quad)
    requires Rest(x) && s == Quad(0xC88D8BEC, 0xA4A0DC8B, 0xE9EDEF99, 0xB0D18D1D)
    requires Steps(s, x, 32) == Quad(0x8761F38E, 0x67092C33, 0x061BC867, 0x7A516116)
    ensures Steps(s, x, 48) == Quad(0x71123AFA, 0x1DF7010A, 0xE6A8A386, 0xDC9C8DDB)
  {
    hide Steps, Table1, Table2, Table4, F, G, I;
    var q := Quad(0x8761F38E, 0x67092C33, 0x061BC867, 0x7A516116);
    q := Next(s, x, 2, 0, q, 0xA29FB212, 0x91044D5D);
    q := Next(s, x, 2, 1, q, 0xF1DA00A0, 0x610954EB);
    q := Next(s, x, 2, 2, q, 0x0ABD5F0E, 0xC0175FA8);
    q := Next(s, x, 2, 3, q, 0x9508ACDD, 0x2EE1E3FE);
    q := Next(s, x, 2, 4, q, 0xF7F45097, 0xAE26ED7D);
    q := Next(s, x, 2, 5, q, 0xEDB8763F, 0x71D8ECEA);
    q := Next(s, x, 2, 6, q, 0xA7F28D71, 0xFF4A94DC);
    q := Next(s, x, 2, 7, q, 0x0E5635B9, 0xDBD1BFF6);
    q := Next(s, x, 2, 8, q, 0x2C063403, 0x9C350028);
    q := Next(s, x, 2, 9, q, 0x4D5F761B, 0x97E5DA92);
    q := Next(s, x, 2, 10, q, 0xD47462E4, 0xFACAAF06);
    q := Next(s, x, 2, 11, q, 0xD17452B7, 0x56B3692F);
    q := Next(s, x, 2, 12, q, 0xB1A5ED1C, 0x71123AFA);
    q := Next(s, x, 2, 13, q, 0x5C2D714A, 0xDC9C8DDB);
    q := Next(s, x, 2, 14, q, 0x15AB0A0C, 0xE6A8A386);
    q := Next(s, x, 2, 15, q, 0x9CBB086E, 0x1DF7010A);
  }

  lemma RestRound4(x: Words, s: Quad)
    requires Rest(x) && s == Quad(0xC88D8BEC, 0xA4A0DC8B, 0xE9EDEF99, 0xB0D18D1D)
    requires Steps(s, x, 48) == Quad(0x71123AFA, 0x1DF7010A, 0xE6A8A386, 0xDC9C8DDB)
    ensures Steps(s, x, 64) == Quad(0xDA67616B, 0xB12906A0, 0x44EC5A13, 0xC9E47A04)
  {
    hide Steps, Table1, Table2, Table3, F, G, H;
    var q := Quad(0x71123AFA, 0x1DF7010A, 0xE6A8A386, 0xDC9C8DDB);
    q := Next(s, x, 3, 0, q, 0x76D2641B, 0xD29007E7);
    q := Next(s, x, 3, 1, q, 0xE5E7EC67, 0x7241A77E);
    q := Next(s, x, 3, 2, q, 0xB316C1C5, 0xD3248109);
    q := Next(s, x, 3, 3, q, 0xA7B8FFAA, 0xC8797828);
    q := Next(s, x, 3, 4, q, 0x56C75B4A, 0x7A504ABD);
    q := Next(s, x, 3, 5, q, 0xE829B31E, 0x211CC65D);
    q := Next(s, x, 3, 6, q, 0x20E302E8, 0xA290D6CE);
    q := Next(s, x, 3, 7, q, 0x06D237C5, 0x9B31B114);
    q := Next(s, x, 3, 8, q, 0x675C3884, 0x723FD22D);
    q := Next(s, x, 3, 9, q, 0x0397F766, 0xD21D6A3B);
    q := Next(s, x, 3, 10, q, 0xCA72D6B8, 0x3D79CF74);
    q := Next(s, x, 3, 11, q, 0x591E4882, 0x4DC4F33D);
    q := Next(s, x, 3, 12, q, 0xBA3289B8, 0xDA67616B);
    q := Next(s, x, 3, 13, q, 0x267BDF46, 0xC9E47A04);
    q := Next(s, x, 3, 14, q, 0xC01EF60F, 0x44EC5A13);
    q := Next(s, x, 3, 15, q, 0xE5646B61, 0xB12906A0);
  }

  lemma RestSteps(x: Words, s: Quad)
    requires Rest(x) && s == Quad(0xC88D8BEC, 0xA4A0DC8B, 0xE9EDEF99, 0xB0D18D1D)
    ensures Steps(s, x, 64) == Quad(0xDA67616B, 0xB12906A0, 0x44EC5A13, 0xC9E47A04)
  {
    hide Steps, Rest;
    RestRound1(x, s);
    RestRound2(x, s);
    RestRound3(x, s);
    RestRound4(x, s);
  }

  function Digit(i: nat): bv8 {
    var d := i % 10;
    if d == 0 then 0x31 else if d == 1 then 0x32 else if d == 2 then 0x33 else if d == 3 then 0x34 else if d == 4 then 0x35
    else if d == 5 then 0x36 else if d == 6 then 0x37 else if d == 7 then 0x38 else if d == 8 then 0x39 else 0x30
  }

  const DIGITS: seq<bv8> := seq(80, i requires 0 <= i < 80 => Digit(i))

  /** The padded message: the digits, a one bit, zeros, and 640 bits as the length. */
  function RestByte(i: nat): bv8 {
    if i < 16 then Digit(i + 64) else if i == 16 || i == 56 then 0x80 else if i == 57 then 2 else 0
  }

  lemma DigitsPadded()
    ensures |Padded(DIGITS)| == 128
    ensures forall i :: 0 <= i < 64 ==> Padded(DIGITS)[0..64][i] == Digit(i)
    ensures forall i :: 0 <= i < 64 ==> Padded(DIGITS)[64..128][i] == RestByte(i)
  {
    hide Length64, Byte, Digit;
    ShortLength(640, 128, 2);
    KnownBytes();
  }

  lemma FrontWords1(b: seq<bv8>)
    requires |b| == 64 && forall i :: 0 <= i < 64 ==> b[i] == Digit(i)
    ensures var x := WordsOf(b); x[0] == 0x34333231 && x[1] == 0x38373635 && x[2] == 0x32313039 && x[3] == 0x36353433 && x[4] == 0x30393837 && x[5] == 0x34333231 && x[6] == 0x38373635 && x[7] == 0x32313039
  {
    hide WordsOf;
    WordIs(b, 0, 0x34333231);
    WordIs(b, 4, 0x38373635);
    WordIs(b, 8, 0x32313039);
    WordIs(b, 12, 0x36353433);
    WordIs(b, 16, 0x30393837);
    WordIs(b, 20, 0x34333231);
    WordIs(b, 24, 0x38373635);
    WordIs(b, 28, 0x32313039);
  }

  lemma FrontWords2(b: seq<bv8>)
    requires |b| == 64 && forall i :: 0 <= i < 64 ==> b[i] == Digit(i)
    ensures var x := WordsOf(b); x[8] == 0x36353433 && x[9] == 0x30393837 && x[10] == 0x34333231 && x[11] == 0x38373635 && x[12] == 0x32313039 && x[13] == 0x36353433 && x[14] == 0x30393837 && x[15] == 0x34333231
  {
    hide WordsOf;
    WordIs(b, 32, 0x36353433);
    WordIs(b, 36, 0x30393837);
    WordIs(b, 40, 0x34333231);
    WordIs(b, 44, 0x38373635);
    WordIs(b, 48, 0x32313039);
    WordIs(b, 52, 0x36353433);
    WordIs(b, 56, 0x30393837);
    WordIs(b, 60, 0x34333231);
  }

  lemma RestWords1(b: seq<bv8>)
    requires |b| == 64 && forall i :: 0 <= i < 64 ==> b[i] == RestByte(i)
    ensures var x := WordsOf(b); x[0] == 0x38373635 && x[1] == 0x32313039 && x[2] == 0x36353433 && x[3] == 0x30393837 && x[4] == 0x00000080 && x[5] == 0x00000000 && x[6] == 0x00000000 && x[7] == 0x00000000
  {
    hide WordsOf;
    WordIs(b, 0, 0x38373635);
    WordIs(b, 4, 0x32313039);
    WordIs(b, 8, 0x36353433);
    WordIs(b, 12, 0x30393837);
    WordIs(b, 16, 0x00000080);
    WordIs(b, 20, 0x00000000);
    WordIs(b, 24, 0x00000000);
    WordIs(b, 28, 0x00000000);
  }

  lemma RestWords2(b: seq<bv8>)
    requires |b| == 64 && forall i :: 0 <= i < 64 ==> b[i] == RestByte(i)
    ensures var x := WordsOf(b); x[8] == 0x00000000 && x[9] == 0x00000000 && x[10] == 0x00000000 && x[11] == 0x00000000 && x[12] == 0x00000000 && x[13] == 0x00000000 && x[14] == 0x00000280 && x[15] == 0x00000000
  {
    hide WordsOf;
    WordIs(b, 32, 0x00000000);
    WordIs(b, 36, 0x00000000);
    WordIs(b, 40, 0x00000000);
    WordIs(b, 44, 0x00000000);
    WordIs(b, 48, 0x00000000);
    WordIs(b, 52, 0x00000000);
    WordIs(b, 56, 0x00000280);
    WordIs(b, 60, 0x00000000);
  }

  lemma FrontOutput()
    ensures Sum(Quad(0x67452301, 0xEFCDAB89, 0x98BADCFE, 0x10325476), Quad(0x614868EB, 0xB4D33102, 0x5133129B, 0xA09F38A7)) == Quad(0xC88D8BEC, 0xA4A0DC8B, 0xE9EDEF99, 0xB0D18D1D)
    ensures Output(Quad(0xC88D8BEC, 0xA4A0DC8B, 0xE9EDEF99, 0xB0D18D1D)) == [0xEC, 0x8B, 0x8D, 0xC8, 0x8B, 0xDC, 0xA0, 0xA4, 0x99, 0xEF, 0xED, 0xE9, 0x1D, 0x8D, 0xD1, 0xB0]
  {
  }

  lemma DigitsOutput()
    ensures Sum(Quad(0xC88D8BEC, 0xA4A0DC8B, 0xE9EDEF99, 0xB0D18D1D), Quad(0xDA67616B, 0xB12906A0, 0x44EC5A13, 0xC9E47A04)) == Quad(0xA2F4ED57, 0x55C9E32B, 0x2EDA49AC, 0x7AB60721)
    ensures Output(Quad(0xA2F4ED57, 0x55C9E32B, 0x2EDA49AC, 0x7AB60721)) == [0x57, 0xED, 0xF4, 0xA2, 0x2B, 0xE3, 0xC9, 0x55, 0xAC, 0x49, 0xDA, 0x2E, 0x21, 0x07, 0xB6, 0x7A]
  {
  }

  lemma DigestOfDigits()
    ensures Md5(DIGITS) == [0x57, 0xED, 0xF4, 0xA2, 0x2B, 0xE3, 0xC9, 0x55, 0xAC, 0x49, 0xDA, 0x2E, 0x21, 0x07, 0xB6, 0x7A]
  {
    hide Padded, WordsOf, Steps, Absorb, Output, Sum, Digit, RestByte;
    DigitsPadded();
    var m := Padded(DIGITS);
    var b, c, q := m[0..64], m[64..128], Quad(0xC88D8BEC, 0xA4A0DC8B, 0xE9EDEF99, 0xB0D18D1D);
    FrontWords1(b);
    FrontWords2(b);
    FrontSteps(WordsOf(b), INIT);
    FrontOutput();
    OneBlock(m, b, Quad(0x614868EB, 0xB4D33102, 0x5133129B, 0xA09F38A7));
    RestWords1(c);
    RestWords2(c);
    RestSteps(WordsOf(c), q);
    TwoBlocks(m, c, q, Quad(0xDA67616B, 0xB12906A0, 0x44EC5A13, 0xC9E47A04));
    DigitsOutput();
  }
}
