/**
 MD5 as RFC 1321 defines it, on values: the padded message is cut into sixty-four-byte
 blocks, and four words of state absorb one block after another.
 */
module Rfc1321 {

  datatype Quad = Quad(a: bv32, b: bv32, c: bv32, d: bv32)

  type Words = x: seq<bv32> | |x| == 16 witness seq(16, _ => 0)

  // -------------------------------------------------------------- section 3.4: one step

  function F(x: bv32, y: bv32, z: bv32): bv32 {
    (x & y) | (!x & z)
  }

  function G(x: bv32, y: bv32, z: bv32): bv32 {
    (x & z) | (y & !z)
  }

  function H(x: bv32, y: bv32, z: bv32): bv32 {
    x ^ y ^ z
  }

  function I(x: bv32, y: bv32, z: bv32): bv32 {
    y ^ (x | !z)
  }

  /** The round, zero to three, that step i belongs to. */
  function RoundOf(i: nat): nat
    requires i < 64
  {
    if i < 16 then 0 else if i < 32 then 1 else if i < 48 then 2 else 3
  }

  /** The auxiliary function of round r. */
  function Aux(r: nat, x: bv32, y: bv32, z: bv32): bv32 {
    if r == 0 then F(x, y, z) else if r == 1 then G(x, y, z) else if r == 2 then H(x, y, z) else I(x, y, z)
  }

  /** What step i of the RFC's table uses: the word k, the rotation s and the sine constant. */
  datatype Row = Row(k: nat, s: nat, t: bv32)

  function Table1(i: nat): (row: Row)
    ensures row.k < 16 && 0 < row.s < 32
  {
    match i
    case 0 => Row(0, 7, 0xD76AA478) case 1 => Row(1, 12, 0xE8C7B756)
    case 2 => Row(2, 17, 0x242070DB) case 3 => Row(3, 22, 0xC1BDCEEE)
    case 4 => Row(4, 7, 0xF57C0FAF) case 5 => Row(5, 12, 0x4787C62A)
    case 6 => Row(6, 17, 0xA8304613) case 7 => Row(7, 22, 0xFD469501)
    case 8 => Row(8, 7, 0x698098D8) case 9 => Row(9, 12, 0x8B44F7AF)
    case 10 => Row(10, 17, 0xFFFF5BB1) case 11 => Row(11, 22, 0x895CD7BE)
    case 12 => Row(12, 7, 0x6B901122) case 13 => Row(13, 12, 0xFD987193)
    case 14 => Row(14, 17, 0xA679438E) case _ => Row(15, 22, 0x49B40821)
  }

  function Table2(i: nat): (row: Row)
    ensures row.k < 16 && 0 < row.s < 32
  {
    match i
    case 0 => Row(1, 5, 0xF61E2562) case 1 => Row(6, 9, 0xC040B340)
    case 2 => Row(11, 14, 0x265E5A51) case 3 => Row(0, 20, 0xE9B6C7AA)
    case 4 => Row(5, 5, 0xD62F105D) case 5 => Row(10, 9, 0x02441453)
    case 6 => Row(15, 14, 0xD8A1E681) case 7 => Row(4, 20, 0xE7D3FBC8)
    case 8 => Row(9, 5, 0x21E1CDE6) case 9 => Row(14, 9, 0xC33707D6)
    case 10 => Row(3, 14, 0xF4D50D87) case 11 => Row(8, 20, 0x455A14ED)
    case 12 => Row(13, 5, 0xA9E3E905) case 13 => Row(2, 9, 0xFCEFA3F8)
    case 14 => Row(7, 14, 0x676F02D9) case _ => Row(12, 20, 0x8D2A4C8A)
  }

  function Table3(i: nat): (row: Row)
    ensures row.k < 16 && 0 < row.s < 32
  {
    match i
    case 0 => Row(5, 4, 0xFFFA3942) case 1 => Row(8, 11, 0x8771F681)
    case 2 => Row(11, 16, 0x6D9D6122) case 3 => Row(14, 23, 0xFDE5380C)
    case 4 => Row(1, 4, 0xA4BEEA44) case 5 => Row(4, 11, 0x4BDECFA9)
    case 6 => Row(7, 16, 0xF6BB4B60) case 7 => Row(10, 23, 0xBEBFBC70)
    case 8 => Row(13, 4, 0x289B7EC6) case 9 => Row(0, 11, 0xEAA127FA)
    case 10 => Row(3, 16, 0xD4EF3085) case 11 => Row(6, 23, 0x04881D05)
    case 12 => Row(9, 4, 0xD9D4D039) case 13 => Row(12, 11, 0xE6DB99E5)
    case 14 => Row(15, 16, 0x1FA27CF8) case _ => Row(2, 23, 0xC4AC5665)
  }

  function Table4(i: nat): (row: Row)
    ensures row.k < 16 && 0 < row.s < 32
  {
    match i
    case 0 => Row(0, 6, 0xF4292244) case 1 => Row(7, 10, 0x432AFF97)
    case 2 => Row(14, 15, 0xAB9423A7) case 3 => Row(5, 21, 0xFC93A039)
    case 4 => Row(12, 6, 0x655B59C3) case 5 => Row(3, 10, 0x8F0CCC92)
    case 6 => Row(10, 15, 0xFFEFF47D) case 7 => Row(1, 21, 0x85845DD1)
    case 8 => Row(8, 6, 0x6FA87E4F) case 9 => Row(15, 10, 0xFE2CE6E0)
    case 10 => Row(6, 15, 0xA3014314) case 11 => Row(13, 21, 0x4E0811A1)
    case 12 => Row(4, 6, 0xF7537E82) case 13 => Row(11, 10, 0xBD3AF235)
    case 14 => Row(2, 15, 0x2AD7D2BB) case _ => Row(9, 21, 0xEB86D391)
  }

  /** The table of round r, whose steps j are zero to fifteen. */
  function Table(r: nat, j: nat): (row: Row)
    ensures row.k < 16 && 0 < row.s < 32
  {
    if r == 0 then Table1(j) else if r == 1 then Table2(j) else if r == 2 then Table3(j) else Table4(j)
  }

  function Plus(x: bv32, y: bv32): bv32 {
    x + y
  }

  function Sum4(x: bv32, y: bv32, z: bv32, w: bv32): bv32 {
    x + y + z + w
  }

  /** Circular shift to the left. */
  function Rotate(x: bv32, s: nat): bv32
    requires 0 < s < 32
  {
    (x << s) | (x >> (32 - s))
  }

  /** The new register of step i: b + ((a + aux(b, c, d) + X[k] + T[i]) <<< s). */
  function Turn(i: nat, a: bv32, b: bv32, c: bv32, d: bv32, x: Words): bv32
    requires i < 64
  {
    var row := Table(RoundOf(i), i - 16 * RoundOf(i));
    Plus(b, Rotate(Sum4(a, Aux(RoundOf(i), b, c, d), x[row.k], row.t), row.s))
  }

  /** Step i; the registers move on by one. */
  function Step(i: nat, q: Quad, x: Words): Quad
    requires i < 64
  {
    Quad(q.d, Turn(i, q.a, q.b, q.c, q.d, x), q.b, q.c)
  }

  function Steps(q: Quad, x: Words, n: nat): Quad
    requires n <= 64
  {
    if n == 0 then q else Step(n - 1, Steps(q, x, n - 1), x)
  }

  // -------------------------------------------------------------- sections 3.1 to 3.5: the digest

  /** The four bytes from offset `at`, low-order byte first, as a word. */
  function WordAt(b: seq<bv8>, at: nat): bv32
    requires at + 4 <= |b|
  {
    (b[at] as bv32) | ((b[at + 1] as bv32) << 8) | ((b[at + 2] as bv32) << 16) | ((b[at + 3] as bv32) << 24)
  }

  function WordsOf(block: seq<bv8>): Words
    requires |block| == 64
  {
    seq(16, j requires 0 <= j < 16 => WordAt(block, 4 * j))
  }

  function Sum(q: Quad, r: Quad): Quad {
    Quad(Plus(q.a, r.a), Plus(q.b, r.b), Plus(q.c, r.c), Plus(q.d, r.d))
  }

  function Compress(q: Quad, block: seq<bv8>): Quad
    requires |block| == 64
  {
    Sum(q, Steps(q, WordsOf(block), 64))
  }

  const INIT := Quad(0x67452301, 0xEFCDAB89, 0x98BADCFE, 0x10325476)

  /** The state after the first n blocks of m. */
  function Absorb(m: seq<bv8>, n: nat): Quad
    requires 64 * n <= |m|
  {
    if n == 0 then INIT else Compress(Absorb(m, n - 1), m[64 * (n - 1)..64 * n])
  }

  function Byte(n: nat): bv8 {
    (n % 256) as bv8
  }

  /** The eight bytes of a number modulo 2^64, low-order byte first. */
  function Length64(n: nat): (b: seq<bv8>)
    ensures |b| == 8
  {
    [Byte(n), Byte(n / 0x100), Byte(n / 0x1_0000), Byte(n / 0x100_0000),
     Byte(n / 0x1_0000_0000), Byte(n / 0x100_0000_0000), Byte(n / 0x1_0000_0000_0000), Byte(n / 0x100_0000_0000_0000)]
  }

  /** A one bit, then zeros up to a length congruent to 56 modulo 64. */
  function Padding(length: nat): (p: seq<bv8>)
    ensures 1 <= |p| <= 64 && (length + |p|) % 64 == 56
  {
    [0x80] + seq((119 - length % 64) % 64, _ => 0)
  }

  lemma FullBlocks(n: nat)
    requires n % 64 == 56
    ensures (n + 8) % 64 == 0
  {
  }

  function Padded(m: seq<bv8>): (p: seq<bv8>)
    ensures |p| == |m| + |Padding(|m|)| + 8
    ensures |p| % 64 == 0
  {
    FullBlocks(|m| + |Padding(|m|)|);
    m + Padding(|m|) + Length64(8 * |m|)
  }

  function WordBytes(w: bv32): (b: seq<bv8>)
    ensures |b| == 4
  {
    [(w & 0xFF) as bv8, ((w >> 8) & 0xFF) as bv8, ((w >> 16) & 0xFF) as bv8, ((w >> 24) & 0xFF) as bv8]
  }

  function Output(q: Quad): (b: seq<bv8>)
    ensures |b| == 16
  {
    WordBytes(q.a) + WordBytes(q.b) + WordBytes(q.c) + WordBytes(q.d)
  }

  /** The MD5 digest of a message. */
  function Md5(m: seq<bv8>): (digest: seq<bv8>)
    ensures |digest| == 16
  {
    Output(Absorb(Padded(m), |Padded(m)| / 64))
  }

  // -------------------------------------------------------------- absorbing

  /** The state depends on the bytes absorbed and on nothing after them. */
  lemma {:induction false} AbsorbPrefix(m: seq<bv8>, m': seq<bv8>, n: nat)
    requires 64 * n <= |m| && 64 * n <= |m'|
    requires m[..64 * n] == m'[..64 * n]
    ensures Absorb(m, n) == Absorb(m', n)
  {
    hide Compress;
    if n > 0 {
      assert m[..64 * (n - 1)] == m[..64 * n][..64 * (n - 1)];
      assert m'[..64 * (n - 1)] == m'[..64 * n][..64 * (n - 1)];
      AbsorbPrefix(m, m', n - 1);
      assert m[64 * (n - 1)..64 * n] == m[..64 * n][64 * (n - 1)..];
      assert m'[64 * (n - 1)..64 * n] == m'[..64 * n][64 * (n - 1)..];
    }
  }
}
