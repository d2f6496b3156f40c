/**
 The MD5 code: a context of counters, state and a partly filled block, updated in place.
 A byte count is held in two thirty-two-bit words.
 */
module Md5Code {
  import opened Rfc1321

  // -------------------------------------------------------------- the block function

  /** The code's three-operator forms of the first two auxiliary functions. */
  function CodeF(x: bv32, y: bv32, z: bv32): bv32 {
    z ^ (x & (y ^ z))
  }

  function CodeG(x: bv32, y: bv32, z: bv32): bv32 {
    y ^ (z & (x ^ y))
  }

  /** What the macro F stands for in each round. */
  function CodeAux(r: nat, x: bv32, y: bv32, z: bv32): bv32 {
    if r == 0 then CodeF(x, y, z) else if r == 1 then CodeG(x, y, z) else if r == 2 then H(x, y, z) else I(x, y, z)
  }

  lemma CodeFIsF(x: bv32, y: bv32, z: bv32)
    ensures CodeF(x, y, z) == F(x, y, z)
  {
    ChooseForm(x, y, z);
  }

  lemma ChooseForm(x: bv32, y: bv32, z: bv32)
    ensures z ^ (x & (y ^ z)) == (x & y) | (!x & z)
  {
  }

  lemma CodeGIsG(x: bv32, y: bv32, z: bv32)
    ensures CodeG(x, y, z) == G(x, y, z)
  {
    ChooseForm2(x, y, z);
  }

  lemma ChooseForm2(x: bv32, y: bv32, z: bv32)
    ensures y ^ (z & (x ^ y)) == (x & z) | (y & !z)
  {
  }

  lemma CodeAuxIsAux(r: nat, x: bv32, y: bv32, z: bv32)
    ensures CodeAux(r, x, y, z) == Aux(r, x, y, z)
  {
    hide F, G, H, I, CodeF, CodeG;
    CodeFIsF(x, y, z);
    CodeGIsG(x, y, z);
  }

  /** The code's rotation, by two shifts. */
  function S(x: bv32, n: nat): bv32
    requires 0 < n < 32
  {
    (x << n) | ((x & 0xFFFFFFFF) >> (32 - n))
  }

  lemma SIsRotate(x: bv32, n: nat)
    requires 0 < n < 32
    ensures S(x, n) == Rotate(x, n)
  {
    MaskAll(x);
  }

  lemma MaskAll(x: bv32)
    ensures x & 0xFFFFFFFF == x
  {
  }

  /** The operands of the code's `a += F + X[k] + t`. */
  function CodeSum(a: bv32, f: bv32, w: bv32, t: bv32): bv32 {
    a + (f + w + t)
  }

  lemma AddInOrder(a: bv32, f: bv32, w: bv32, t: bv32)
    ensures CodeSum(a, f, w, t) == Sum4(a, f, w, t)
  {
  }

  lemma PlusCommutes(x: bv32, y: bv32)
    ensures Plus(x, y) == Plus(y, x)
  {
  }

  /** One line of the code: the register a of step j of a round. */
  method P(round: nat, a: bv32, b: bv32, c: bv32, d: bv32, x: Words, k: nat, s: nat, t: bv32,
           ghost q: Quad, ghost j: nat) returns (r: bv32)
    requires round < 4 && j < 16 && Row(k, s, t) == Table(round, j)
    requires Quad(a, b, c, d) == Steps(q, x, 16 * round + j)
    ensures Quad(d, r, b, c) == Steps(q, x, 16 * round + j + 1)
  {
    hide CodeAux, Aux, Rotate, S, Table, Plus, Sum4, CodeSum;
    CodeAuxIsAux(round, b, c, d);
    r := CodeSum(a, CodeAux(round, b, c, d), x[k], t);
    AddInOrder(a, CodeAux(round, b, c, d), x[k], t);
    SIsRotate(r, s);
    PlusCommutes(S(r, s), b);
    r := Plus(S(r, s), b);
  }

  method Round1(q: Quad, x: Words, a0: bv32, b0: bv32, c0: bv32, d0: bv32) returns (a: bv32, b: bv32, c: bv32, d: bv32)
    requires Quad(a0, b0, c0, d0) == Steps(q, x, 0)
    ensures Quad(a, b, c, d) == Steps(q, x, 16)
  {
    hide Steps, Table2, Table3, Table4;
    a, b, c, d := a0, b0, c0, d0;
    a := P(0, a, b, c, d, x,  0,  7, 0xD76AA478, q, 0);
    d := P(0, d, a, b, c, x,  1, 12, 0xE8C7B756, q, 1);
    c := P(0, c, d, a, b, x,  2, 17, 0x242070DB, q, 2);
    b := P(0, b, c, d, a, x,  3, 22, 0xC1BDCEEE, q, 3);
    a := P(0, a, b, c, d, x,  4,  7, 0xF57C0FAF, q, 4);
    d := P(0, d, a, b, c, x,  5, 12, 0x4787C62A, q, 5);
    c := P(0, c, d, a, b, x,  6, 17, 0xA8304613, q, 6);
    b := P(0, b, c, d, a, x,  7, 22, 0xFD469501, q, 7);
    a := P(0, a, b, c, d, x,  8,  7, 0x698098D8, q, 8);
    d := P(0, d, a, b, c, x,  9, 12, 0x8B44F7AF, q, 9);
    c := P(0, c, d, a, b, x, 10, 17, 0xFFFF5BB1, q, 10);
    b := P(0, b, c, d, a, x, 11, 22, 0x895CD7BE, q, 11);
    a := P(0, a, b, c, d, x, 12,  7, 0x6B901122, q, 12);
    d := P(0, d, a, b, c, x, 13, 12, 0xFD987193, q, 13);
    c := P(0, c, d, a, b, x, 14, 17, 0xA679438E, q, 14);
    b := P(0, b, c, d, a, x, 15, 22, 0x49B40821, q, 15);
  }

  method Round2(q: Quad, x: Words, a0: bv32, b0: bv32, c0: bv32, d0: bv32) returns (a: bv32, b: bv32, c: bv32, d: bv32)
    requires Quad(a0, b0, c0, d0) == Steps(q, x, 16)
    ensures Quad(a, b, c, d) == Steps(q, x, 32)
  {
    hide Steps, Table1, Table3, Table4;
    a, b, c, d := a0, b0, c0, d0;
    a := P(1, a, b, c, d, x,  1,  5, 0xF61E2562, q, 0);
    d := P(1, d, a, b, c, x,  6,  9, 0xC040B340, q, 1);
    c := P(1, c, d, a, b, x, 11, 14, 0x265E5A51, q, 2);
    b := P(1, b, c, d, a, x,  0, 20, 0xE9B6C7AA, q, 3);
    a := P(1, a, b, c, d, x,  5,  5, 0xD62F105D, q, 4);
    d := P(1, d, a, b, c, x, 10,  9, 0x02441453, q, 5);
    c := P(1, c, d, a, b, x, 15, 14, 0xD8A1E681, q, 6);
    b := P(1, b, c, d, a, x,  4, 20, 0xE7D3FBC8, q, 7);
    a := P(1, a, b, c, d, x,  9,  5, 0x21E1CDE6, q, 8);
    d := P(1, d, a, b, c, x, 14,  9, 0xC33707D6, q, 9);
    c := P(1, c, d, a, b, x,  3, 14, 0xF4D50D87, q, 10);
    b := P(1, b, c, d, a, x,  8, 20, 0x455A14ED, q, 11);
    a := P(1, a, b, c, d, x, 13,  5, 0xA9E3E905, q, 12);
    d := P(1, d, a, b, c, x,  2,  9, 0xFCEFA3F8, q, 13);
    c := P(1, c, d, a, b, x,  7, 14, 0x676F02D9, q, 14);
    b := P(1, b, c, d, a, x, 12, 20, 0x8D2A4C8A, q, 15);
  }

  method Round3(q: Quad, x: Words, a0: bv32, b0: bv32, c0: bv32, d0: bv32) returns (a: bv32, b: bv32, c: bv32, d: bv32)
    requires Quad(a0, b0, c0, d0) == Steps(q, x, 32)
    ensures Quad(a, b, c, d) == Steps(q, x, 48)
  {
    hide Steps, Table1, Table2, Table4;
    a, b, c, d := a0, b0, c0, d0;
    a := P(2, a, b, c, d, x,  5,  4, 0xFFFA3942, q, 0);
    d := P(2, d, a, b, c, x,  8, 11, 0x8771F681, q, 1);
    c := P(2, c, d, a, b, x, 11, 16, 0x6D9D6122, q, 2);
    b := P(2, b, c, d, a, x, 14, 23, 0xFDE5380C, q, 3);
    a := P(2, a, b, c, d, x,  1,  4, 0xA4BEEA44, q, 4);
    d := P(2, d, a, b, c, x,  4, 11, 0x4BDECFA9, q, 5);
    c := P(2, c, d, a, b, x,  7, 16, 0xF6BB4B60, q, 6);
    b := P(2, b, c, d, a, x, 10, 23, 0xBEBFBC70, q, 7);
    a := P(2, a, b, c, d, x, 13,  4, 0x289B7EC6, q, 8);
    d := P(2, d, a, b, c, x,  0, 11, 0xEAA127FA, q, 9);
    c := P(2, c, d, a, b, x,  3, 16, 0xD4EF3085, q, 10);
    b := P(2, b, c, d, a, x,  6, 23, 0x04881D05, q, 11);
    a := P(2, a, b, c, d, x,  9,  4, 0xD9D4D039, q, 12);
    d := P(2, d, a, b, c, x, 12, 11, 0xE6DB99E5, q, 13);
    c := P(2, c, d, a, b, x, 15, 16, 0x1FA27CF8, q, 14);
    b := P(2, b, c, d, a, x,  2, 23, 0xC4AC5665, q, 15);
  }

  method Round4(q: Quad, x: Words, a0: bv32, b0: bv32, c0: bv32, d0: bv32) returns (a: bv32, b: bv32, c: bv32, d: bv32)
    requires Quad(a0, b0, c0, d0) == Steps(q, x, 48)
    ensures Quad(a, b, c, d) == Steps(q, x, 64)
  {
    hide Steps, Table1, Table2, Table3;
    a, b, c, d := a0, b0, c0, d0;
    a := P(3, a, b, c, d, x,  0,  6, 0xF4292244, q, 0);
    d := P(3, d, a, b, c, x,  7, 10, 0x432AFF97, q, 1);
    c := P(3, c, d, a, b, x, 14, 15, 0xAB9423A7, q, 2);
    b := P(3, b, c, d, a, x,  5, 21, 0xFC93A039, q, 3);
    a := P(3, a, b, c, d, x, 12,  6, 0x655B59C3, q, 4);
    d := P(3, d, a, b, c, x,  3, 10, 0x8F0CCC92, q, 5);
    c := P(3, c, d, a, b, x, 10, 15, 0xFFEFF47D, q, 6);
    b := P(3, b, c, d, a, x,  1, 21, 0x85845DD1, q, 7);
    a := P(3, a, b, c, d, x,  8,  6, 0x6FA87E4F, q, 8);
    d := P(3, d, a, b, c, x, 15, 10, 0xFE2CE6E0, q, 9);
    c := P(3, c, d, a, b, x,  6, 15, 0xA3014314, q, 10);
    b := P(3, b, c, d, a, x, 13, 21, 0x4E0811A1, q, 11);
    a := P(3, a, b, c, d, x,  4,  6, 0xF7537E82, q, 12);
    d := P(3, d, a, b, c, x, 11, 10, 0xBD3AF235, q, 13);
    c := P(3, c, d, a, b, x,  2, 15, 0x2AD7D2BB, q, 14);
    b := P(3, b, c, d, a, x,  9, 21, 0xEB86D391, q, 15);
  }

  /** The block function: the state after one more block. */
  method Process(q: Quad, data: seq<bv8>) returns (r: Quad)
    requires |data| == 64
    ensures r == Compress(q, data)
  {
    hide Steps, WordAt;
    var x := Load(data);
    var a, b, c, d := Round1(q, x, q.a, q.b, q.c, q.d) by { StepsStart(q, x); }
    a, b, c, d := Round2(q, x, a, b, c, d);
    a, b, c, d := Round3(q, x, a, b, c, d);
    a, b, c, d := Round4(q, x, a, b, c, d);
    r := Quad(Plus(q.a, a), Plus(q.b, b), Plus(q.c, c), Plus(q.d, d));
  }

  lemma StepsStart(q: Quad, x: Words)
    ensures Steps(q, x, 0) == q
  {
  }

  /** The sixteen word loads, one after another. */
  method Load(data: seq<bv8>) returns (x: Words)
    requires |data| == 64
    ensures x == WordsOf(data)
  {
    hide WordAt;
    var words: seq<bv32> := [];
    for j := 0 to 16
      invariant |words| == j && forall k :: 0 <= k < j ==> words[k] == WordAt(data, 4 * k)
    {
      words := words + [WordAt(data, 4 * j)];
    }
    x := words;
  }

  // -------------------------------------------------------------- the counters

  const WORD := 0x1_0000_0000

  /** Two words hold a count modulo 2^64. */
  predicate Counts(low: nat, high: nat, n: nat) {
    low == n % WORD && high == (n / WORD) % WORD
  }

  lemma AddCarries(low: nat, high: nat, n: nat, length: nat)
    requires Counts(low, high, n) && length < WORD
    ensures var sum := (low + length) % WORD;
            Counts(sum, if sum < length then (high + 1) % WORD else high, n + length)
  {
    var q := n / WORD;
    assert n == q * WORD + low;
    var carry := if low + length >= WORD then 1 else 0;
    Divided(n + length, q + carry, low + length - carry * WORD);
    Divided(low + length, carry, low + length - carry * WORD);
    Divided(q, q / WORD, high);
    if carry == 1 {
      if high + 1 == WORD {
        Divided(q + 1, q / WORD + 1, 0);
        Divided(high + 1, 1, 0);
      } else {
        Divided(q + 1, q / WORD, high + 1);
        Divided(high + 1, 0, high + 1);
      }
    }
  }

  lemma Divided(n: nat, q: nat, r: nat)
    requires n == q * WORD + r && r < WORD
    ensures n / WORD == q && n % WORD == r
  {
  }

  /** The code's two words of the length in bits. */
  lemma BitCount(low: nat, high: nat, n: nat)
    requires Counts(low, high, n)
    ensures Counts((8 * low) % WORD, low / 0x2000_0000 + (8 * high) % WORD, 8 * n)
  {
    var q := n / WORD;
    var top := low / 0x2000_0000;
    var rest := low % 0x2000_0000;
    Divided(8 * low, top, 8 * rest);
    Divided(8 * n, 8 * q + top, 8 * rest);
    var h := high / 0x2000_0000;
    var g := high % 0x2000_0000;
    Divided(8 * high, h, 8 * g);
    Divided(8 * q + top, 8 * (q / WORD) + h, 8 * g + top);
  }

  /** The bytes of the two words, low-order byte first, are those of the number. */
  lemma CountBytes(low: nat, high: nat, n: nat)
    requires Counts(low, high, n)
    ensures Length64(n) == [Byte(low), Byte(low / 0x100), Byte(low / 0x1_0000), Byte(low / 0x100_0000),
                            Byte(high), Byte(high / 0x100), Byte(high / 0x1_0000), Byte(high / 0x100_0000)]
  {
    hide Byte;
    var q := n / WORD;
    LowBytes(n);
    LowBytes(q);
    DivideTwice(n);
  }

  lemma LowBytes(n: nat)
    ensures Byte(n % WORD) == Byte(n)
    ensures Byte(n % WORD / 0x100) == Byte(n / 0x100)
    ensures Byte(n % WORD / 0x1_0000) == Byte(n / 0x1_0000)
    ensures Byte(n % WORD / 0x100_0000) == Byte(n / 0x100_0000)
  {
    ByteOf(n, 0x1, 0x100_0000);
    ByteOf(n, 0x100, 0x1_0000);
    ByteOf(n, 0x1_0000, 0x100);
    ByteOf(n, 0x100_0000, 1);
  }

  lemma ByteOf(n: nat, d: nat, e: nat)
    requires d > 0 && e > 0 && d * e * 256 == WORD
    ensures (n % WORD) / d % 256 == n / d % 256
  {
    var q, r := n / WORD, n % WORD;
    var s, u := r / d, r % d;
    calc {
      n;
      q * WORD + s * d + u;
      q * (d * e * 256) + s * d + u;
      (q * e * 256 + s) * d + u;
    }
    Quotient(n, d, q * e * 256 + s, u);
    Quotient(s, 256, s / 256, s % 256);
    Quotient(q * e * 256 + s, 256, q * e + s / 256, s % 256);
  }

  lemma Quotient(n: nat, d: nat, q: nat, r: nat)
    requires d > 0 && n == q * d + r && r < d
    ensures n / d == q && n % d == r
  {
    Multiples(n / d, q, d);
    Multiples(q, n / d, d);
  }

  lemma Multiples(a: nat, b: nat, d: nat)
    ensures a < b ==> (a + 1) * d <= b * d
  {
    if a < b {
      assert b * d == (a + 1) * d + (b - a - 1) * d;
    }
  }

  lemma DivideTwice(n: nat)
    ensures n / 0x100_0000_0000 == n / WORD / 0x100
    ensures n / 0x1_0000_0000_0000 == n / WORD / 0x1_0000
    ensures n / 0x100_0000_0000_0000 == n / WORD / 0x100_0000
  {
  }

  // -------------------------------------------------------------- the context

  const PADDING := [0x80 as bv8] + seq(63, _ => 0)

  /** Copies s over the elements of a from offset `at`. */
  method CopyBytes(a: array<bv8>, at: nat, s: seq<bv8>)
    requires at + |s| <= a.Length
    modifies a
    ensures a[..] == old(a[..at]) + s + old(a[at + |s|..])
  {
    for i := 0 to |s|
      invariant forall k :: 0 <= k < a.Length ==> a[k] == if at <= k < at + i then s[k - at] else old(a[k])
    {
      a[at + i] := s[i];
    }
  }

  /** The buffer begins with what does not fill a block. */
  ghost predicate Held(buffer: seq<bv8>, message: seq<bv8>) {
    |buffer| == 64 && buffer[..|message| % 64] == message[|message| - |message| % 64..]
  }

  class Md5Context {
    var total0: nat
    var total1: nat
    var state: Quad
    const buffer: array<bv8>
    /** What has been hashed since the context was started. */
    ghost var message: seq<bv8>

    ghost predicate Valid()
      reads this, buffer
    {
      && buffer.Length == 64
      && Counts(total0, total1, |message|)
      && state == Absorb(message, |message| / 64)
      && Held(buffer[..], message)
    }

    constructor ()
      ensures fresh(buffer) && buffer.Length == 64
    {
      buffer := new bv8[64](_ => 0);
      total0, total1, state := 0, 0, Quad(0, 0, 0, 0);
    }

    method Starts()
      requires buffer.Length == 64
      modifies this
      ensures Valid() && message == []
    {
      total0, total1, state := 0, 0, INIT;
      message := [];
    }

    /** Hashes `input` after what was hashed before. */
    method Update(input: seq<bv8>)
      requires Valid() && |input| < WORD
      modifies this, buffer
      ensures Valid() && message == old(message) + input
    {
      hide Counts, Absorb, Compress, Held;
      if |input| == 0 {
        assert message + input == message;
        return;
      }
      CountMod64(total0, total1, |message|);
      var left := total0 % 64;
      Count(|input|);
      HeldTail(buffer[..], message, left);
      var p;
      ghost var was := buffer[..];
      left, p := Advance(left, input);
      ghost var before := buffer[..];
      if |input| - p > 0 {
        CopyBytes(buffer, left, input[p..]);
      }
      HeldAfter(was, before, buffer[..], message, input, left, p);
      message := message + input;
    }

    /** Hashes every block that the input completes; what stays is `left` bytes and the input from p. */
    method Advance(left0: nat, input: seq<bv8>) returns (left: nat, p: nat)
      requires buffer.Length == 64 && left0 == |message| % 64
      requires state == Absorb(message, |message| / 64)
      requires buffer[..left0] == message[|message| - left0..]
      modifies this`state, buffer
      ensures p <= |input| && state == Absorb(message + input, |message + input| / 64)
      ensures left > 0 ==> p == 0 && left == left0 && |input| < 64 - left && buffer[..] == old(buffer[..])
      ensures left == 0 ==> |input| - p == |message + input| % 64
    {
      hide Absorb, Compress;
      ghost var whole := message + input;
      AbsorbPrefix(message, whole, |message| / 64) by {
        assert message[..64 * (|message| / 64)] == whole[..64 * (|message| / 64)];
      }
      left, p := left0, 0;
      if left > 0 && |input| >= 64 - left {
        p := 64 - left;
        FillBuffer(left, input);
        BufferCompleted(|message|);
        left := 0;
      }
      if left == 0 {
        p := WholeBlocks(input, p, whole);
      } else {
        SameBlocks(|message|, |input|);
      }
    }

    /** Completes the block in the buffer and hashes it. */
    method FillBuffer(left: nat, input: seq<bv8>)
      requires buffer.Length == 64 && 0 < left == |message| % 64 && |input| >= 64 - left
      requires buffer[..left] == message[|message| - left..]
      requires state == Absorb(message + input, |message| / 64)
      modifies this`state, buffer
      ensures state == Absorb(message + input, |message| / 64 + 1)
    {
      hide Absorb, Compress;
      CopyBytes(buffer, left, input[..64 - left]);
      assert buffer[..] == message[|message| - left..] + input[..64 - left];
      BlockFilled(message, input, left, |message| / 64);
      state := Process(state, buffer[..]);
      Absorbed(message + input, |message| / 64);
    }

    /** Hashes the whole blocks of the input from offset `start`; returns where the last one ends. */
    method WholeBlocks(input: seq<bv8>, start: nat, ghost whole: seq<bv8>) returns (p: nat)
      requires start <= |input| <= |whole| && (|whole| - |input| + start) % 64 == 0
      requires whole[|whole| - |input|..] == input
      requires state == Absorb(whole, (|whole| - |input| + start) / 64)
      modifies this`state
      ensures p <= |input| && |input| - p == |whole| % 64
      ensures state == Absorb(whole, |whole| / 64)
    {
      hide Absorb, Compress;
      p := start;
      ghost var blocks := (|whole| - |input| + start) / 64;
      while |input| - p >= 64
        invariant p <= |input| && 64 * blocks == |whole| - |input| + p
        invariant state == Absorb(whole, blocks)
      {
        state := Process(state, input[p..p + 64]);
        BlockOfInput(input, p, whole, blocks);
        Absorbed(whole, blocks);
        blocks, p := blocks + 1, p + 64;
      }
    }

    /** Adds to the byte counter. */
    method Count(length: nat)
      requires length < WORD && Counts(total0, total1, |message|)
      modifies this`total0, this`total1
      ensures Counts(total0, total1, |message| + length)
    {
      AddCarries(total0, total1, |message|, length);
      total0 := (total0 + length) % WORD;
      if total0 < length {
        total1 := (total1 + 1) % WORD;
      }
    }

    /** Writes the digest of everything hashed to `output` from offset `at`. */
    method Finish(output: array<bv8>, at: nat)
      requires Valid() && at + 16 <= output.Length && output != buffer
      modifies this, buffer, output
      ensures output[..] == old(output[..at]) + Md5(old(message)) + old(output[at + 16..])
    {
      hide Counts, Absorb, Length64, WordBytes;
      ghost var m := message;
      CountMod64(total0, total1, |m|);
      BitCount(total0, total1, |m|);
      var high := total0 / 0x2000_0000 + (8 * total1) % WORD;
      var low := (8 * total0) % WORD;
      var msglen := [Byte(low), Byte(low / 0x100), Byte(low / 0x1_0000), Byte(low / 0x100_0000),
                     Byte(high), Byte(high / 0x100), Byte(high / 0x1_0000), Byte(high / 0x100_0000)];
      CountBytes(low, high, 8 * |m|);
      var last := total0 % 64;
      var padn := if last < 56 then 56 - last else 120 - last;
      PaddingIs(|m|, padn);
      Update(PADDING[..padn]);
      Update(msglen);
      assert message == Padded(m);
      CopyBytes(output, at, WordBytes(state.a) + WordBytes(state.b) + WordBytes(state.c) + WordBytes(state.d));
    }
  }

  lemma CountMod64(low: nat, high: nat, n: nat)
    requires Counts(low, high, n)
    ensures low % 64 == n % 64
  {
    Quotient(n, 64, n / WORD * 0x400_0000 + low / 64, low % 64);
  }

  lemma PaddingIs(length: nat, padn: nat)
    requires padn == if length % 64 < 56 then 56 - length % 64 else 120 - length % 64
    ensures PADDING[..padn] == Padding(length)
  {
  }

  lemma BlockFilled(message: seq<bv8>, input: seq<bv8>, left: nat, blocks: nat)
    requires |message| == 64 * blocks + left && left < 64 && |input| >= 64 - left
    ensures message[|message| - left..] + input[..64 - left] == (message + input)[64 * blocks..64 * (blocks + 1)]
  {
  }

  lemma BufferCompleted(n: nat)
    requires n % 64 > 0
    ensures (n + 64 - n % 64) % 64 == 0 && (n + 64 - n % 64) / 64 == n / 64 + 1
  {
  }

  /** What is left over after the last whole block. */
  lemma BlockOfInput(input: seq<bv8>, p: nat, whole: seq<bv8>, blocks: nat)
    requires |input| <= |whole| && whole[|whole| - |input|..] == input
    requires p + 64 <= |input| && 64 * blocks == |whole| - |input| + p
    ensures 64 * (blocks + 1) <= |whole| && input[p..p + 64] == whole[64 * blocks..64 * (blocks + 1)]
  {
    assert input[p..p + 64] == whole[|whole| - |input|..][p..p + 64];
  }

  lemma HeldTail(buffer: seq<bv8>, message: seq<bv8>, left: nat)
    requires Held(buffer, message) && left == |message| % 64
    ensures buffer[..left] == message[|message| - left..]
  {
  }

  /** The rest of the input has been put behind what the buffer holds. */
  lemma HeldAfter(was: seq<bv8>, before: seq<bv8>, now: seq<bv8>, message: seq<bv8>, input: seq<bv8>, left: nat, p: nat)
    requires Held(was, message) && |before| == |now| == 64 && p <= |input|
    requires left > 0 ==> p == 0 && left == |message| % 64 && |input| < 64 - left && before == was
    requires left == 0 ==> |input| - p == |message + input| % 64
    requires now == before[..left] + input[p..] + before[left + |input| - p..] || (p == |input| && now == before)
    ensures Held(now, message + input)
  {
    Tail(message, input, left, p);
    assert now[..left + |input| - p] == before[..left] + input[p..];
  }

  lemma Tail(message: seq<bv8>, input: seq<bv8>, left: nat, p: nat)
    requires p <= |input| && left < 64
    requires left > 0 ==> p == 0 && left == |message| % 64 && |input| < 64 - left
    requires left == 0 ==> |input| - p == (|message| + |input|) % 64
    ensures var whole := message + input;
            var rest := |whole| % 64;
            && rest == left + |input| - p
            && whole[|whole| - rest..] == message[|message| - left..] + input[p..]
  {
    if left > 0 {
      SameBlocks(|message|, |input|);
    }
  }

  lemma SameBlocks(n: nat, length: nat)
    requires n % 64 + length < 64
    ensures (n + length) / 64 == n / 64 && (n + length) % 64 == n % 64 + length
  {
  }

  lemma Absorbed(m: seq<bv8>, n: nat)
    requires 64 * (n + 1) <= |m|
    ensures Absorb(m, n + 1) == Compress(Absorb(m, n), m[64 * n..64 * (n + 1)])
  {
  }

  /** The one-shot function. */
  method OneShot(input: seq<bv8>, output: array<bv8>, at: nat)
    requires |input| < WORD && at + 16 <= output.Length
    modifies output
    ensures output[..] == old(output[..at]) + Md5(input) + old(output[at + 16..])
  {
    hide Md5, Absorb, Counts;
    var ctx := new Md5Context();
    ctx.Starts();
    ctx.Update(input);
    assert ctx.message == input;
    ctx.Finish(output, at);
  }

  // -------------------------------------------------------------- every way of splitting

  function Concat(chunks: seq<seq<bv8>>): seq<bv8> {
    if chunks == [] then [] else chunks[0] + Concat(chunks[1..])
  }

  lemma {:induction false} ConcatLast(chunks: seq<seq<bv8>>, c: seq<bv8>)
    ensures Concat(chunks + [c]) == Concat(chunks) + c
  {
    if chunks == [] {
      assert Concat([c]) == c + Concat([]);
    } else {
      ConcatLast(chunks[1..], c);
      assert (chunks + [c])[1..] == chunks[1..] + [c];
    }
  }

  /** However a message of any length is cut into updates, the digest is the RFC's digest of the whole. */
  method Stream(chunks: seq<seq<bv8>>) returns (digest: seq<bv8>)
    requires forall c :: c in chunks ==> |c| < WORD
    ensures digest == Md5(Concat(chunks))
  {
    hide Md5, Absorb, Counts;
    var ctx := new Md5Context();
    var output := new bv8[16](_ => 0);
    ctx.Starts();
    for i := 0 to |chunks|
      invariant ctx.Valid() && ctx.message == Concat(chunks[..i])
      invariant fresh(ctx) && fresh(ctx.buffer) && ctx.buffer != output
    {
      ConcatLast(chunks[..i], chunks[i]);
      assert chunks[..i + 1] == chunks[..i] + [chunks[i]];
      ctx.Update(chunks[i]);
    }
    assert chunks[..|chunks|] == chunks;
    ctx.Finish(output, 0);
    digest := output[..];
  }
}
