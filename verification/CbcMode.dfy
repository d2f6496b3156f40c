/** The CBC mode of section 6.2 of SP 800-38A over AES-128, block by block. */
module CbcMode {
  import opened Gf256
  import opened Fips197

  /** Block j of a byte string. */
  function BlockOf(s: seq<bv8>, j: nat): Block
    requires 16 * (j + 1) <= |s|
  {
    s[16 * j..16 * j + 16]
  }

  function XorBlock(x: Block, y: Block): Block {
    seq(16, i requires 0 <= i < 16 => Add(x[i], y[i]))
  }

  /** C_j = CIPH(P_j + C_(j-1)), with the initialisation vector for C_(-1). */
  function CipherBlock(p: seq<bv8>, iv: Block, w: Schedule, j: nat): Block
    requires 16 * (j + 1) <= |p|
  {
    Cipher(XorBlock(BlockOf(p, j), if j == 0 then iv else CipherBlock(p, iv, w, j - 1)), w)
  }

  /** P_j = CIPH^-1(C_j) + C_(j-1). */
  function PlainBlock(c: seq<bv8>, iv: Block, w: Schedule, j: nat): Block
    requires 16 * (j + 1) <= |c|
  {
    XorBlock(InvCipher(BlockOf(c, j), w), if j == 0 then iv else BlockOf(c, j - 1))
  }

  /** Byte by byte: what is enciphered is the plaintext with the block before added, or the vector. */
  lemma ChainedByte(p: seq<bv8>, iv: Block, w: Schedule, j: nat, i: nat)
    requires 16 * (j + 1) <= |p| && i < 16
    ensures InvCipher(CipherBlock(p, iv, w, j), w)[i] == p[16 * j + i] ^ (if j == 0 then iv[i] else CipherBlock(p, iv, w, j - 1)[i])
  {
    hide Cipher, InvCipher;
    InvCipherUndoesCipher(XorBlock(BlockOf(p, j), if j == 0 then iv else CipherBlock(p, iv, w, j - 1)), w);
  }

  lemma XorBlockTwice(x: Block, y: Block)
    ensures XorBlock(XorBlock(x, y), y) == x
  {
    hide Add;
    forall i | 0 <= i < 16
      ensures XorBlock(XorBlock(x, y), y)[i] == x[i]
    {
      AddTwice(x[i], y[i]);
    }
  }

  lemma {:induction false} SamePrefix(p: seq<bv8>, p': seq<bv8>, iv: Block, w: Schedule, j: nat)
    requires 16 * (j + 1) <= |p| && 16 * (j + 1) <= |p'| && p[..16 * (j + 1)] == p'[..16 * (j + 1)]
    ensures CipherBlock(p, iv, w, j) == CipherBlock(p', iv, w, j)
    decreases j
  {
    hide Cipher, XorBlock;
    assert BlockOf(p, j) == p[..16 * (j + 1)][16 * j..] == p'[..16 * (j + 1)][16 * j..] == BlockOf(p', j);
    if j > 0 {
      assert p[..16 * j] == p[..16 * (j + 1)][..16 * j] == p'[..16 * (j + 1)][..16 * j] == p'[..16 * j];
      SamePrefix(p, p', iv, w, j - 1);
    }
  }

  /** Encryption can go on from the last ciphertext block of the n blocks of p. */
  lemma {:induction false} CbcContinues(p: seq<bv8>, q: seq<bv8>, iv: Block, w: Schedule, n: nat, j: nat)
    requires n > 0 && |p| == 16 * n && 16 * (j + 1) <= |q|
    ensures CipherBlock(p + q, iv, w, n + j) == CipherBlock(q, CipherBlock(p, iv, w, n - 1), w, j)
    decreases j
  {
    hide Cipher, XorBlock;
    assert BlockOf(p + q, n + j) == BlockOf(q, j);
    if j == 0 {
      assert (p + q)[..16 * n] == p[..16 * n];
      SamePrefix(p + q, p, iv, w, n - 1);
    } else {
      CbcContinues(p, q, iv, w, n, j - 1);
    }
  }

  /** A block that is enciphered with itself for a vector leaves no trace. */
  lemma ItsOwnVector(p: seq<bv8>, w: Schedule)
    requires |p| >= 16
    ensures CipherBlock(p, BlockOf(p, 0), w, 0) == Cipher(seq(16, i => 0), w)
  {
    hide Cipher;
    var b := BlockOf(p, 0);
    assert XorBlock(b, b) == seq(16, i => 0);
  }

  /** Different vectors give different sums. */
  lemma XorBlockInjective(x: Block, u: Block, v: Block)
    requires XorBlock(x, u) == XorBlock(x, v)
    ensures u == v
  {
    hide Add;
    forall i | 0 <= i < 16
      ensures u[i] == v[i]
    {
      assert XorBlock(x, u)[i] == XorBlock(x, v)[i];
      AddSwapped(x[i], u[i]);
      AddSwapped(x[i], v[i]);
      AddTwice(u[i], x[i]);
      AddTwice(v[i], x[i]);
    }
  }

  lemma AddSwapped(a: bv8, b: bv8)
    ensures Add(a, b) == Add(b, a)
  {
  }

  lemma FirstBlock(p: seq<bv8>, iv: Block, w: Schedule)
    requires 16 <= |p|
    ensures CipherBlock(p, iv, w, 0) == Cipher(XorBlock(BlockOf(p, 0), iv), w)
  {
    hide Cipher, XorBlock;
  }

  lemma FirstBlockTells(p: seq<bv8>, u: Block, v: Block, w: Schedule)
    requires 16 <= |p| && CipherBlock(p, u, w, 0) == CipherBlock(p, v, w, 0)
    ensures u == v
  {
    hide Cipher, InvCipher, XorBlock, CipherBlock;
    var b := BlockOf(p, 0);
    FirstBlock(p, u, w);
    FirstBlock(p, v, w);
    InvCipherUndoesCipher(XorBlock(b, u), w);
    InvCipherUndoesCipher(XorBlock(b, v), w);
    XorBlockInjective(b, u, v);
  }

  /** Two vectors give the same n blocks of ciphertext only if they are the same. */
  lemma CipherTellsVector(p: seq<bv8>, u: Block, v: Block, w: Schedule, n: nat)
    requires n > 0 && 16 * n <= |p|
    ensures u == v ==> forall j :: 0 <= j < n ==> CipherBlock(p, u, w, j) == CipherBlock(p, v, w, j)
    ensures u != v ==> exists j :: 0 <= j < n && CipherBlock(p, u, w, j) != CipherBlock(p, v, w, j)
  {
    hide CipherBlock;
    if u != v {
      assert CipherBlock(p, u, w, 0) != CipherBlock(p, v, w, 0) by {
        if CipherBlock(p, u, w, 0) == CipherBlock(p, v, w, 0) {
          FirstBlockTells(p, u, v, w);
        }
      }
    }
  }

  lemma PlainTellsVector(c: seq<bv8>, u: Block, v: Block, w: Schedule, n: nat)
    requires n > 0 && 16 * n <= |c|
    ensures u == v ==> forall j :: 0 <= j < n ==> PlainBlock(c, u, w, j) == PlainBlock(c, v, w, j)
    ensures u != v ==> exists j :: 0 <= j < n && PlainBlock(c, u, w, j) != PlainBlock(c, v, w, j)
  {
    hide InvCipher, XorBlock;
    if u != v {
      assert PlainBlock(c, u, w, 0) != PlainBlock(c, v, w, 0) by {
        if PlainBlock(c, u, w, 0) == PlainBlock(c, v, w, 0) {
          XorBlockInjective(InvCipher(BlockOf(c, 0), w), u, v);
        }
      }
    }
  }

  /** Decryption goes on from the last ciphertext block of the n blocks of c. */
  lemma PlainContinues(c: seq<bv8>, d: seq<bv8>, iv: Block, w: Schedule, n: nat, j: nat)
    requires n > 0 && |c| == 16 * n && 16 * (j + 1) <= |d|
    ensures PlainBlock(c + d, iv, w, n + j) == PlainBlock(d, BlockOf(c, n - 1), w, j)
  {
    hide InvCipher, XorBlock;
    assert BlockOf(c + d, n + j) == BlockOf(d, j);
    if j == 0 {
      assert BlockOf(c + d, n - 1) == BlockOf(c, n - 1);
    } else {
      assert BlockOf(c + d, n + (j - 1)) == BlockOf(d, j - 1);
    }
  }

  /** Decrypting the first n blocks of a CBC ciphertext gives the first n blocks of the plaintext back. */
  lemma CbcRoundTrip(p: seq<bv8>, c: seq<bv8>, iv: Block, w: Schedule, n: nat)
    requires 16 * n <= |p| && 16 * n <= |c|
    requires forall j :: 0 <= j < n ==> BlockOf(c, j) == CipherBlock(p, iv, w, j)
    ensures forall j :: 0 <= j < n ==> PlainBlock(c, iv, w, j) == BlockOf(p, j)
  {
    hide Cipher, InvCipher, XorBlock;
    forall j | 0 <= j < n
      ensures PlainBlock(c, iv, w, j) == BlockOf(p, j)
    {
      var previous := if j == 0 then iv else BlockOf(c, j - 1);
      var x := XorBlock(BlockOf(p, j), previous);
      assert BlockOf(c, j) == Cipher(x, w);
      InvCipherUndoesCipher(x, w);
      XorBlockTwice(BlockOf(p, j), previous);
    }
  }
}
