/**
 The CBC entry points of the AES code. The initialisation vector is a pointer that moves
 through the caller's buffers from one block, and from one call, to the next.
 */
module AesCbc {
  import opened Gf256
  import opened Fips197
  import opened CbcMode
  import opened Aes

  /** Full and partial blocks of a buffer: the loop runs once for each. */
  function Blocks(length: nat): nat {
    (length + 15) / 16
  }

  lemma BlocksIs(length: nat, n: nat)
    requires 16 * n >= length && (n > 0 ==> 16 * (n - 1) < length)
    ensures n == Blocks(length)
  {
  }

  lemma BlocksAbove(length: nat, n: nat)
    requires 16 * n < length
    ensures 16 * n + 16 <= 16 * Blocks(length)
  {
  }

  /** Bytes of either buffer that a call touches: the tail branch adds a block of its own. */
  function Room(length: nat): nat {
    if length == 0 then 16 else 16 * Blocks(length) + if length % 16 == 0 then 0 else 16
  }

  /** The tail block: the bytes that remain, then zeros. */
  function ZeroPadded(b: Block, remainders: nat): Block {
    seq(16, i requires 0 <= i < 16 => if i < remainders then b[i] else 0)
  }

  /** The block that block j of the plaintext is added to. */
  ghost function Previous(p: seq<bv8>, iv: Block, w: Schedule, j: nat): Block
    requires 16 * j <= |p|
  {
    if j == 0 then iv else CipherBlock(p, iv, w, j - 1)
  }

  /** A buffer with another block at a given place. */
  function WithBlock(s: seq<bv8>, at: nat, b: Block): (r: seq<bv8>)
    requires at + 16 <= |s|
    ensures |r| == |s|
  {
    s[..at] + b + s[at + 16..]
  }

  lemma ReplacedIs(before: seq<bv8>, at: nat, b: Block, after: seq<bv8>)
    requires Replaced(before, at, b, after)
    ensures after == WithBlock(before, at, b)
  {
  }

  /** The first i bytes of a block added to a vector. */
  function Xored(s: seq<bv8>, at: nat, vector: Block, i: nat): (r: seq<bv8>)
    requires at + 16 <= |s| && i <= 16
    ensures |r| == |s|
  {
    seq(|s|, k requires 0 <= k < |s| => if at <= k < at + i then Add(s[k], vector[k - at]) else s[k])
  }

  lemma XoredNone(s: seq<bv8>, at: nat, vector: Block)
    requires at + 16 <= |s|
    ensures Xored(s, at, vector, 0) == s
  {
    hide Add;
  }

  lemma XoredOne(s: seq<bv8>, at: nat, vector: Block, i: nat, later: nat)
    requires at + 16 <= |s| && i < 16 && at + i <= later < |s|
    ensures Xored(s, at, vector, i)[later] == s[later] && Xored(s, at, vector, i)[at + i] == s[at + i]
    ensures Xored(s, at, vector, i + 1) == Xored(s, at, vector, i)[at + i := Add(s[at + i], vector[i])]
  {
    hide Add;
  }

  lemma XoredAll(s: seq<bv8>, at: nat, vector: Block)
    requires at + 16 <= |s|
    ensures Replaced(s, at, XorBlock(BlockAt(s, at), vector), Xored(s, at, vector, 16))
  {
    hide Add;
  }

  class CbcCode {
    const aes: Aes128
    var iv: array<bv8>
    var ivAt: nat

    constructor ()
      ensures fresh(aes) && fresh(aes.roundKey) && aes.roundKey.Length == 176
      ensures fresh(iv) && iv.Length == 16 && ivAt == 0
    {
      aes := new Aes128();
      iv := new bv8[16];
      ivAt := 0;
    }

    /** The vector may stand in the buffer itself, as long as it does not begin before the block. */
    method XorWithIv(buf: array<bv8>, at: nat)
      requires at + 16 <= buf.Length && ivAt + 16 <= iv.Length && (iv == buf ==> at <= ivAt)
      modifies buf
      ensures Replaced(old(buf[..]), at, XorBlock(old(BlockAt(buf[..], at)), old(BlockAt(iv[..], ivAt))), buf[..])
    {
      hide Add, Xored, XorBlock;
      ghost var was, vector := buf[..], BlockAt(iv[..], ivAt);
      XoredNone(was, at, vector);
      for i := 0 to 16
        invariant buf[..] == Xored(was, at, vector, i)
      {
        XoredOne(was, at, vector, i, if iv == buf then ivAt + i else at + i);
        assert iv[ivAt + i] == vector[i];
        buf[at + i] := Add(buf[at + i], iv[ivAt + i]);
      }
      XoredAll(was, at, vector);
    }

    /** One pass of the encryption loop, on the block at offset i of both buffers. */
    method EncryptBlock(output: array<bv8>, input: array<bv8>, i: nat)
      requires aes.roundKey.Length == 176 && aes.roundKey !in {output, input} && output != input && (iv == input ==> i <= ivAt)
      requires i + 16 <= output.Length && i + 16 <= input.Length && ivAt + 16 <= iv.Length
      modifies this, output, input
      ensures iv == output && ivAt == i
      ensures Replaced(old(input[..]), i, XorBlock(old(BlockAt(input[..], i)), old(BlockAt(iv[..], ivAt))), input[..])
      ensures Replaced(old(output[..]), i,
                       Fips197.Cipher(XorBlock(old(BlockAt(input[..], i)), old(BlockAt(iv[..], ivAt))), aes.roundKey[..]), output[..])
    {
      hide Fips197.Cipher, XorBlock, Replaced, BlockAt;
      XorWithIv(input, i);
      ghost var x := XorBlock(old(BlockAt(input[..], i)), old(BlockAt(iv[..], ivAt)));
      InPlace(old(input[..]), i, x, input[..]);
      aes.BlockCopy(output, i, input, i);
      ghost var copied := output[..];
      aes.Cipher(output, i);
      Then(old(output[..]), i, x, copied, Fips197.Cipher(BlockAt(copied, i), aes.roundKey[..]), output[..]);
      iv, ivAt := output, i;
    }

    /** One pass of the decryption loop. */
    method DecryptBlock(output: array<bv8>, input: array<bv8>, i: nat)
      requires aes.roundKey.Length == 176 && aes.roundKey !in {output, input} && output != input && (iv == output ==> i <= ivAt)
      requires i + 16 <= output.Length && i + 16 <= input.Length && ivAt + 16 <= iv.Length
      modifies this, output
      ensures iv == input && ivAt == i
      ensures var plain := Fips197.InvCipher(BlockAt(input[..], i), aes.roundKey[..]);
        Replaced(old(output[..]), i, XorBlock(plain, old(VectorIn(output, WithBlock(output[..], i, plain)))), output[..])
    {
      hide Fips197.InvCipher, XorBlock;
      aes.BlockCopy(output, i, input, i);
      ghost var copied := output[..];
      aes.InvCipher(output, i);
      ghost var plain := output[..];
      Then(old(output[..]), i, BlockAt(input[..], i), copied, Fips197.InvCipher(BlockAt(copied, i), aes.roundKey[..]), plain);
      ghost var vector := BlockAt(iv[..], ivAt);
      assert plain == WithBlock(old(output[..]), i, Fips197.InvCipher(BlockAt(input[..], i), aes.roundKey[..]));
      XorWithIv(output, i);
      Then(old(output[..]), i, BlockAt(plain, i), plain, XorBlock(BlockAt(plain, i), vector), output[..]);
      iv, ivAt := input, i;
    }

    /**
     Encrypts `length` bytes of input into output. The input buffer is overwritten too, and
     a null key or iv keeps the one of the previous call.
     */
    method EncryptBuffer(output: array<bv8>, input: array<bv8>, length: nat, key: array?<bv8>, newIv: array?<bv8>)
      requires aes.roundKey.Length == 176 && aes.roundKey !in {output, input} && output != input
      requires Room(length) <= output.Length && Room(length) <= input.Length
      requires key != null ==> key.Length >= 16 && key !in {aes.roundKey, output, input}
      requires newIv != null ==> newIv.Length >= 16 && newIv != aes.roundKey
      requires newIv == null ==> ivAt + 16 <= iv.Length && iv != aes.roundKey
      modifies this, aes.roundKey, output, input
      ensures aes.roundKey[..] == if key != null then ExpandedKey(key[..16]) else old(aes.roundKey[..])
      ensures var w, start := aes.roundKey[..], old(StartIv(newIv, output, WithBlock(output[..], 0, BlockOf(input[..], 0))));
              && Encrypted(old(input[..]), start, w, Blocks(length), input[..])
              && (forall j :: 0 <= j < Blocks(length) ==> BlockOf(output[..], j) == CipherBlock(old(input[..]), start, w, j))
              && (length % 16 != 0 ==>
                    BlockOf(output[..], Blocks(length)) == Fips197.Cipher(ZeroPadded(BlockOf(old(input[..]), Blocks(length)), length % 16), w))
      ensures forall k :: Room(length) <= k < output.Length ==> output[k] == old(output[k])
      ensures length > 0 ==> iv == output && ivAt == 16 * (Blocks(length) - 1)
    {
      hide Fips197.Cipher, CipherBlock, ExpandedKey, XorBlock, Encrypted, EncryptedOut, Replaced, WithBlock;
      ghost var p, start := input[..], StartIv(newIv, output, WithBlock(output[..], 0, BlockOf(input[..], 0)));
      aes.BlockCopy(output, 0, input, 0);
      ReplacedIs(old(output[..]), 0, BlockOf(p, 0), output[..]);
      SetKeyAndIv(key, newIv);
      ghost var out0, w := output[..], aes.roundKey[..];
      var i := EncryptBlocks(output, input, length, p, start);
      if length % 16 != 0 {
        ghost var out1 := output[..];
        assert BlockAt(input[..], i) == BlockAt(p, i) by { UntouchedBlock(p, start, w, i / 16, input[..]); }
        EncryptTail(output, input, i, length % 16);
        TailStep(p, start, w, i / 16, length % 16, out0, out1, output[..]);
      } else {
        NoTail(p, start, w, i / 16, out0, output[..]);
      }
    }

    /** Key expansion and the new vector, unless the caller passes null. */
    method SetKeyAndIv(key: array?<bv8>, newIv: array?<bv8>)
      requires aes.roundKey.Length == 176
      requires key != null ==> key.Length >= 16 && key != aes.roundKey
      requires newIv != null ==> newIv.Length >= 16 && newIv != aes.roundKey
      requires newIv == null ==> ivAt + 16 <= iv.Length && iv != aes.roundKey
      modifies this, aes.roundKey
      ensures aes.roundKey[..] == if key != null then ExpandedKey(key[..16]) else old(aes.roundKey[..])
      ensures if newIv != null then iv == newIv && ivAt == 0 else iv == old(iv) && ivAt == old(ivAt)
      ensures ivAt + 16 <= iv.Length && iv != aes.roundKey
    {
      hide ExpandedKey;
      if key != null {
        aes.KeyExpansion(key);
      }
      if newIv != null {
        iv, ivAt := newIv, 0;
      }
    }

    /** The loop: every block, the last one possibly partial, is chained. */
    method EncryptBlocks(output: array<bv8>, input: array<bv8>, length: nat, ghost p: seq<bv8>, ghost start: Block) returns (i: nat)
      requires aes.roundKey.Length == 176 && aes.roundKey !in {output, input} && output != input
      requires 16 * Blocks(length) <= output.Length && 16 * Blocks(length) <= input.Length
      requires iv != aes.roundKey && ivAt + 16 <= iv.Length
      requires p == input[..] && start == BlockAt(iv[..], ivAt)
      modifies this, output, input
      ensures i == 16 * Blocks(length)
      ensures Encrypted(p, start, aes.roundKey[..], Blocks(length), input[..])
      ensures EncryptedOut(p, start, aes.roundKey[..], Blocks(length), output[..], old(output[..]))
      ensures length > 0 ==> iv == output && ivAt == 16 * (Blocks(length) - 1)
    {
      hide Fips197.Cipher, CipherBlock, XorBlock, Encrypted, EncryptedOut, Replaced, Blocks;
      ghost var out0, w, n := output[..], aes.roundKey[..], 0;
      i := 0;
      NothingEncrypted(p, start, w, out0);
      while i < length
        invariant i == 16 * n && (n > 0 ==> 16 * (n - 1) < length)
        invariant Encrypted(p, start, w, n, input[..])
        invariant EncryptedOut(p, start, w, n, output[..], out0)
        invariant n == 0 ==> iv != aes.roundKey && ivAt + 16 <= iv.Length && BlockAt(iv[..], ivAt) == start
        invariant n > 0 ==> iv == output && ivAt == i - 16
      {
        BlocksAbove(length, n);
        ghost var in1, out1 := input[..], output[..];
        UntouchedBlock(p, start, w, n, in1);
        PreviousIs(p, start, w, n, out1, out0, BlockAt(iv[..], ivAt));
        EncryptBlock(output, input, i);
        NextCipherBlock(p, start, w, n);
        EncryptStepIn(p, start, w, n, in1, input[..]);
        EncryptStepOut(p, start, w, n, out1, output[..], out0, CipherBlock(p, start, w, n));
        i := i + 16;
        n := n + 1;
      }
      BlocksIs(length, n);
    }

    /** The tail branch: one more block, its missing bytes zeroed, enciphered without chaining. */
    method EncryptTail(output: array<bv8>, input: array<bv8>, i: nat, remainders: nat)
      requires aes.roundKey.Length == 176 && aes.roundKey !in {output, input} && output != input
      requires i + 16 <= output.Length && i + 16 <= input.Length && remainders < 16
      modifies output
      ensures Replaced(old(output[..]), i,
                       Fips197.Cipher(ZeroPadded(BlockAt(input[..], i), remainders), aes.roundKey[..]), output[..])
    {
      hide Fips197.Cipher;
      aes.BlockCopy(output, i, input, i);
      ZeroTail(output, i, remainders, BlockAt(input[..], i));
      ghost var padded := output[..];
      ghost var b := ZeroPadded(BlockAt(input[..], i), remainders);
      aes.Cipher(output, i);
      Then(old(output[..]), i, b, padded, Fips197.Cipher(BlockAt(padded, i), aes.roundKey[..]), output[..]);
    }

    /** The memset that pads the last block. */
    method ZeroTail(output: array<bv8>, i: nat, remainders: nat, ghost b: Block)
      requires i + 16 <= output.Length && remainders < 16
      requires BlockAt(output[..], i) == b
      modifies output
      ensures Replaced(old(output[..]), i, ZeroPadded(b, remainders), output[..])
    {
      for k := remainders to 16
        invariant forall m :: 0 <= m < output.Length ==>
          output[m] == if i + remainders <= m < i + k then 0 else old(output[m])
      {
        output[i + k] := 0;
      }
      assert forall k :: 0 <= k < 16 ==> old(output[..])[i + k] == b[k];
    }

    /** Decrypts `length` bytes of input into output; input is left alone. */
    method DecryptBuffer(output: array<bv8>, input: array<bv8>, length: nat, key: array?<bv8>, newIv: array?<bv8>)
      requires aes.roundKey.Length == 176 && aes.roundKey !in {output, input} && output != input
      requires Room(length) <= output.Length && Room(length) <= input.Length
      requires key != null ==> key.Length >= 16 && key !in {aes.roundKey, output, input}
      requires newIv != null ==> newIv.Length >= 16 && newIv != aes.roundKey
      requires newIv == null ==> ivAt + 16 <= iv.Length && iv != aes.roundKey
      modifies this, aes.roundKey, output
      ensures aes.roundKey[..] == if key != null then ExpandedKey(key[..16]) else old(aes.roundKey[..])
      ensures var w := aes.roundKey[..];
              var first := Fips197.InvCipher(BlockOf(input[..], 0), w);
              var start := old(StartIv(newIv, output, WithBlock(output[..], 0, first)));
              && (forall j :: 0 <= j < Blocks(length) ==> BlockOf(output[..], j) == PlainBlock(input[..], start, w, j))
              && (length % 16 != 0 ==>
                    BlockOf(output[..], Blocks(length)) == Fips197.InvCipher(ZeroPadded(BlockOf(input[..], Blocks(length)), length % 16), w))
      ensures forall k :: Room(length) <= k < output.Length ==> output[k] == old(output[k])
      ensures length > 0 ==> iv == input && ivAt == 16 * (Blocks(length) - 1)
    {
      hide Fips197.InvCipher, PlainBlock, ExpandedKey, DecryptedOut;
      aes.BlockCopy(output, 0, input, 0);
      SetKeyAndIv(key, newIv);
      ghost var out0, w := output[..], aes.roundKey[..];
      ghost var first := Fips197.InvCipher(BlockOf(input[..], 0), w);
      assert WithBlock(out0, 0, first) == WithBlock(old(output[..]), 0, first);
      ghost var start := old(StartIv(newIv, output, WithBlock(output[..], 0, first)));
      var i := DecryptBlocks(output, input, length, start);
      ghost var out1 := output[..];
      if length % 16 != 0 {
        DecryptTail(output, input, i, length % 16);
        PlainTail(input[..], start, w, i / 16, length % 16, out0, out1, output[..]);
      } else {
        NoPlainTail(input[..], start, w, i / 16, out0, out1);
      }
    }

    /** The decryption loop. */
    method DecryptBlocks(output: array<bv8>, input: array<bv8>, length: nat, ghost start: Block) returns (i: nat)
      requires aes.roundKey.Length == 176 && aes.roundKey !in {output, input} && output != input
      requires 16 * Blocks(length) <= output.Length && 16 * Blocks(length) <= input.Length
      requires iv != aes.roundKey && ivAt + 16 <= iv.Length
      requires length > 0 ==> start == VectorIn(output, WithBlock(output[..], 0, Fips197.InvCipher(BlockOf(input[..], 0), aes.roundKey[..])))
      modifies this, output
      ensures i == 16 * Blocks(length)
      ensures DecryptedOut(input[..], start, aes.roundKey[..], Blocks(length), output[..], old(output[..]))
      ensures length > 0 ==> iv == input && ivAt == 16 * (Blocks(length) - 1)
    {
      hide Fips197.InvCipher, PlainBlock, XorBlock, DecryptedOut, Replaced, Blocks;
      ghost var out0, w, c := output[..], aes.roundKey[..], input[..];
      ghost var n := 0;
      i := 0;
      NothingDecrypted(c, start, w, out0);
      while i < length
        invariant i == 16 * n && (n > 0 ==> 16 * (n - 1) < length)
        invariant DecryptedOut(c, start, w, n, output[..], out0)
        invariant n == 0 ==> iv == old(iv) && ivAt == old(ivAt) && output[..] == out0
        invariant n > 0 ==> iv == input && ivAt == i - 16
      {
        BlocksAbove(length, n);
        ghost var out1 := output[..];
        ghost var current := VectorIn(output, WithBlock(output[..], i, Fips197.InvCipher(BlockAt(c, i), w)));
        DecryptBlock(output, input, i);
        NextPlainBlock(c, start, w, n, current);
        DecryptStep(c, start, w, n, out1, output[..], out0, PlainBlock(c, start, w, n));
        i := i + 16;
        n := n + 1;
      }
      BlocksIs(length, n);
    }

    /** The tail branch of decryption: the ciphertext block is padded before it is deciphered. */
    method DecryptTail(output: array<bv8>, input: array<bv8>, i: nat, remainders: nat)
      requires aes.roundKey.Length == 176 && aes.roundKey !in {output, input} && output != input
      requires i + 16 <= output.Length && i + 16 <= input.Length && remainders < 16
      modifies output
      ensures Replaced(old(output[..]), i,
                       Fips197.InvCipher(ZeroPadded(BlockAt(input[..], i), remainders), aes.roundKey[..]), output[..])
    {
      hide Fips197.InvCipher;
      aes.BlockCopy(output, i, input, i);
      ZeroTail(output, i, remainders, BlockAt(input[..], i));
      ghost var padded := output[..];
      ghost var b := ZeroPadded(BlockAt(input[..], i), remainders);
      aes.InvCipher(output, i);
      Then(old(output[..]), i, b, padded, Fips197.InvCipher(BlockAt(padded, i), aes.roundKey[..]), output[..]);
    }

    /** The vector that stands where the pointer points, when the output buffer holds `now`. */
    ghost function VectorIn(output: array<bv8>, now: seq<bv8>): Block
      requires ivAt + 16 <= iv.Length && |now| == output.Length
      reads this, iv
    {
      if iv == output then BlockAt(now, ivAt) else BlockAt(iv[..], ivAt)
    }

    /** The initialisation vector that a call works with; if that stands in the output buffer, which holds `now` when it is read. */
    ghost function StartIv(newIv: array?<bv8>, output: array<bv8>, now: seq<bv8>): Block
      requires newIv != null ==> newIv.Length >= 16
      requires newIv == null ==> ivAt + 16 <= iv.Length
      requires |now| == output.Length
      reads this, newIv, iv
    {
      if newIv == null then VectorIn(output, now) else if newIv == output then BlockAt(now, 0) else BlockAt(newIv[..], 0)
    }
  }

  /** The block that a call puts at the front of its output leaves the vector of the call before as it is. */
  ghost predicate VectorSurvives(code: CbcCode, output: array<bv8>, first: Block)
    requires output.Length >= 16
    reads code, output
  {
    code.iv != output || code.ivAt >= 16 || first[code.ivAt..] == output[code.ivAt..16]
  }

  lemma SurvivesIff(code: CbcCode, output: array<bv8>, first: Block)
    requires code.ivAt + 16 <= code.iv.Length && output.Length >= 16
    ensures code.StartIv(null, output, WithBlock(output[..], 0, first)) == BlockAt(code.iv[..], code.ivAt)
       <==> VectorSurvives(code, output, first)
  {
    var now := WithBlock(output[..], 0, first);
    if code.iv == output {
      var at := code.ivAt;
      if at < 16 {
        assert BlockAt(now, at) == first[at..] + output[16..at + 16];
        assert BlockAt(output[..], at) == output[at..16] + output[16..at + 16];
        SameFront(first[at..], output[at..16], output[16..at + 16]);
      } else {
        assert BlockAt(now, at) == BlockAt(output[..], at);
      }
    }
  }

  lemma SameFront<T>(a: seq<T>, b: seq<T>, c: seq<T>)
    requires |a| == |b|
    ensures a + c == b + c <==> a == b
  {
    assert (a + c)[..|a|] == a && (b + c)[..|b|] == b;
  }

  /** A vector of its own array is the one that the call works with. */
  lemma GivenVector(code: CbcCode, iv: array<bv8>, output: array<bv8>, now: seq<bv8>)
    requires iv.Length >= 16 && iv != output && |now| == output.Length
    ensures code.StartIv(iv, output, now) == iv[..16]
  {
    assert BlockAt(iv[..], 0) == iv[..16];
  }

  lemma WholeRoom(n: nat)
    ensures Room(64 * n + 16) == 64 * n + 16 && Blocks(64 * n + 16) == 4 * n + 1
  {
  }

  /** After n passes the first n input blocks hold what was enciphered, the rest the plaintext. */
  ghost predicate Encrypted(p: seq<bv8>, iv: Block, w: Schedule, n: nat, inp: seq<bv8>) {
    && |inp| == |p| && 16 * n <= |p|
    && (forall j :: 0 <= j < n ==> BlockOf(inp, j) == XorBlock(BlockOf(p, j), Previous(p, iv, w, j)))
    && (forall k :: 16 * n <= k < |p| ==> inp[k] == p[k])
  }

  /** After n passes the first n output blocks are the ciphertext. */
  ghost predicate EncryptedOut(p: seq<bv8>, iv: Block, w: Schedule, n: nat, out: seq<bv8>, out0: seq<bv8>) {
    && |out| == |out0| && 16 * n <= |p| && 16 * n <= |out|
    && (forall j :: 0 <= j < n ==> BlockOf(out, j) == CipherBlock(p, iv, w, j))
    && (forall k :: 16 * n <= k < |out| ==> out[k] == out0[k])
  }

  lemma NothingEncrypted(p: seq<bv8>, iv: Block, w: Schedule, out: seq<bv8>)
    ensures Encrypted(p, iv, w, 0, p) && EncryptedOut(p, iv, w, 0, out, out)
  {
  }

  lemma PreviousIs(p: seq<bv8>, start: Block, w: Schedule, n: nat, out: seq<bv8>, out0: seq<bv8>, current: Block)
    requires EncryptedOut(p, start, w, n, out, out0)
    requires current == if n == 0 then start else BlockOf(out, n - 1)
    ensures current == Previous(p, start, w, n)
  {
  }

  lemma EncryptStepIn(p: seq<bv8>, iv: Block, w: Schedule, n: nat, in1: seq<bv8>, in2: seq<bv8>)
    requires Encrypted(p, iv, w, n, in1) && 16 * n + 16 <= |p|
    requires Replaced(in1, 16 * n, XorBlock(BlockAt(in1, 16 * n), Previous(p, iv, w, n)), in2)
    ensures Encrypted(p, iv, w, n + 1, in2)
  {
    hide XorBlock, Previous;
    assert BlockAt(in1, 16 * n) == BlockOf(p, n);
    forall j | 0 <= j < n + 1
      ensures BlockOf(in2, j) == XorBlock(BlockOf(p, j), Previous(p, iv, w, j))
    {
      if j < n {
        assert BlockOf(in2, j) == BlockOf(in1, j);
      } else {
        assert BlockOf(in2, n) == XorBlock(BlockOf(p, n), Previous(p, iv, w, n));
      }
    }
  }

  lemma EncryptStepOut(p: seq<bv8>, iv: Block, w: Schedule, n: nat, out1: seq<bv8>, out2: seq<bv8>, out0: seq<bv8>, c: Block)
    requires EncryptedOut(p, iv, w, n, out1, out0)
    requires 16 * n + 16 <= |p| && 16 * n + 16 <= |out1|
    requires c == CipherBlock(p, iv, w, n)
    requires Replaced(out1, 16 * n, c, out2)
    ensures EncryptedOut(p, iv, w, n + 1, out2, out0)
  {
    hide CipherBlock;
    forall j | 0 <= j < n + 1
      ensures BlockOf(out2, j) == CipherBlock(p, iv, w, j)
    {
      if j < n {
        assert BlockOf(out2, j) == BlockOf(out1, j);
      } else {
        assert BlockOf(out2, n) == c;
      }
    }
  }

  lemma NextCipherBlock(p: seq<bv8>, iv: Block, w: Schedule, n: nat)
    requires 16 * n + 16 <= |p|
    ensures CipherBlock(p, iv, w, n) == Fips197.Cipher(XorBlock(BlockOf(p, n), Previous(p, iv, w, n)), w)
  {
    hide Fips197.Cipher, XorBlock;
  }

  lemma UntouchedBlock(p: seq<bv8>, iv: Block, w: Schedule, n: nat, inp: seq<bv8>)
    requires Encrypted(p, iv, w, n, inp) && 16 * n + 16 <= |p|
    ensures BlockAt(inp, 16 * n) == BlockAt(p, 16 * n)
  {
    hide XorBlock, Previous;
  }

  lemma NoTail(p: seq<bv8>, iv: Block, w: Schedule, n: nat, out0: seq<bv8>, out1: seq<bv8>)
    requires EncryptedOut(p, iv, w, n, out1, out0)
    ensures forall j :: 0 <= j < n ==> BlockOf(out1, j) == CipherBlock(p, iv, w, j)
    ensures forall k :: 16 * n <= k < |out1| ==> out1[k] == out0[k]
  {
  }

  lemma TailStep(p: seq<bv8>, iv: Block, w: Schedule, n: nat, remainders: nat, out0: seq<bv8>, out1: seq<bv8>, out2: seq<bv8>)
    requires 16 * n + 16 <= |p| && remainders < 16
    requires EncryptedOut(p, iv, w, n, out1, out0)
    requires Replaced(out1, 16 * n, Fips197.Cipher(ZeroPadded(BlockAt(p, 16 * n), remainders), w), out2)
    ensures forall j :: 0 <= j < n ==> BlockOf(out2, j) == CipherBlock(p, iv, w, j)
    ensures BlockOf(out2, n) == Fips197.Cipher(ZeroPadded(BlockOf(p, n), remainders), w)
    ensures forall k :: 16 * n + 16 <= k < |out2| ==> out2[k] == out0[k]
  {
    hide Fips197.Cipher, CipherBlock;
    assert BlockAt(p, 16 * n) == BlockOf(p, n);
    assert BlockOf(out2, n) == BlockAt(out2, 16 * n);
    forall j | 0 <= j < n
      ensures BlockOf(out2, j) == CipherBlock(p, iv, w, j)
    {
      assert BlockOf(out2, j) == BlockOf(out1, j);
    }
  }

  /** After n passes of decryption the first n output blocks are the plaintext. */
  ghost predicate DecryptedOut(c: seq<bv8>, iv: Block, w: Schedule, n: nat, out: seq<bv8>, out0: seq<bv8>) {
    && |out| == |out0| && 16 * n <= |c| && 16 * n <= |out|
    && (forall j :: 0 <= j < n ==> BlockOf(out, j) == PlainBlock(c, iv, w, j))
    && (forall k :: 16 * n <= k < |out| ==> out[k] == out0[k])
  }

  lemma NothingDecrypted(c: seq<bv8>, iv: Block, w: Schedule, out: seq<bv8>)
    ensures DecryptedOut(c, iv, w, 0, out, out)
  {
  }

  lemma NextPlainBlock(c: seq<bv8>, iv: Block, w: Schedule, n: nat, current: Block)
    requires 16 * n + 16 <= |c|
    requires current == if n == 0 then iv else BlockOf(c, n - 1)
    ensures PlainBlock(c, iv, w, n) == XorBlock(Fips197.InvCipher(BlockOf(c, n), w), current)
  {
    hide Fips197.InvCipher, XorBlock;
  }

  lemma DecryptStep(c: seq<bv8>, iv: Block, w: Schedule, n: nat, out1: seq<bv8>, out2: seq<bv8>, out0: seq<bv8>, b: Block)
    requires DecryptedOut(c, iv, w, n, out1, out0)
    requires 16 * n + 16 <= |c| && 16 * n + 16 <= |out1|
    requires b == PlainBlock(c, iv, w, n)
    requires Replaced(out1, 16 * n, b, out2)
    ensures DecryptedOut(c, iv, w, n + 1, out2, out0)
  {
    hide PlainBlock;
    forall j | 0 <= j < n + 1
      ensures BlockOf(out2, j) == PlainBlock(c, iv, w, j)
    {
      if j < n {
        assert BlockOf(out2, j) == BlockOf(out1, j);
      } else {
        assert BlockOf(out2, n) == b;
      }
    }
  }

  lemma PlainTail(c: seq<bv8>, iv: Block, w: Schedule, n: nat, remainders: nat, out0: seq<bv8>, out1: seq<bv8>, out2: seq<bv8>)
    requires 16 * n + 16 <= |c| && remainders < 16
    requires DecryptedOut(c, iv, w, n, out1, out0)
    requires Replaced(out1, 16 * n, Fips197.InvCipher(ZeroPadded(BlockAt(c, 16 * n), remainders), w), out2)
    ensures forall j :: 0 <= j < n ==> BlockOf(out2, j) == PlainBlock(c, iv, w, j)
    ensures BlockOf(out2, n) == Fips197.InvCipher(ZeroPadded(BlockOf(c, n), remainders), w)
    ensures forall k :: 16 * n + 16 <= k < |out2| ==> out2[k] == out0[k]
  {
    hide Fips197.InvCipher, PlainBlock;
    assert BlockAt(c, 16 * n) == BlockOf(c, n);
    assert BlockOf(out2, n) == BlockAt(out2, 16 * n);
    forall j | 0 <= j < n
      ensures BlockOf(out2, j) == PlainBlock(c, iv, w, j)
    {
      assert BlockOf(out2, j) == BlockOf(out1, j);
    }
  }

  lemma NoPlainTail(c: seq<bv8>, iv: Block, w: Schedule, n: nat, out0: seq<bv8>, out1: seq<bv8>)
    requires DecryptedOut(c, iv, w, n, out1, out0)
    ensures forall j :: 0 <= j < n ==> BlockOf(out1, j) == PlainBlock(c, iv, w, j)
    ensures forall k :: 16 * n <= k < |out1| ==> out1[k] == out0[k]
  {
  }

  // -------------------------------------------------------------- both directions

  /** The block that the tail branches add is restored only if its encryption happens to end in zeros. */
  lemma TailBlockIff(b: Block, remainders: nat, w: Schedule)
    ensures var p := ZeroPadded(b, remainders);
            var c := Fips197.Cipher(p, w);
            Fips197.InvCipher(ZeroPadded(c, remainders), w) == p <==> forall i :: remainders <= i < 16 ==> c[i] == 0
  {
    PaddedIff(Fips197.Cipher(ZeroPadded(b, remainders), w), remainders);
    hide Fips197.Cipher, Fips197.InvCipher, ZeroPadded;
    var p := ZeroPadded(b, remainders);
    InvCipherUndoesCipher(p, w);
    CipherUndoesInvCipher(ZeroPadded(Fips197.Cipher(p, w), remainders), w);
  }

  lemma PaddedIff(c: Block, remainders: nat)
    ensures ZeroPadded(c, remainders) == c <==> forall i :: remainders <= i < 16 ==> c[i] == 0
  {
    if forall i :: remainders <= i < 16 ==> c[i] == 0 {
      assert ZeroPadded(c, remainders) == c;
    }
    if ZeroPadded(c, remainders) == c {
      forall i | remainders <= i < 16
        ensures c[i] == 0
      {
        assert ZeroPadded(c, remainders)[i] == 0;
      }
    }
  }

  lemma BytesOfBlocks(a: seq<bv8>, b: seq<bv8>, length: nat)
    requires 16 * Blocks(length) <= |a| && 16 * Blocks(length) <= |b|
    requires forall j :: 0 <= j < Blocks(length) ==> BlockOf(a, j) == BlockOf(b, j)
    ensures length <= |a| && length <= |b| && a[..length] == b[..length]
  {
    forall k | 0 <= k < length
      ensures a[k] == b[k]
    {
      var j := k / 16;
      assert BlockOf(a, j)[k - 16 * j] == BlockOf(b, j)[k - 16 * j];
    }
  }

  /**
   * Whatever the length, decryption restores what was encrypted: the loop chains a partial block like the others, and the
   * tail branch only adds a block of its own behind the data.
   */
  method EncryptThenDecrypt(code: CbcCode, plain: array<bv8>, hidden: array<bv8>, restored: array<bv8>, length: nat,
                            key: array<bv8>, iv: array<bv8>)
    requires code.aes.roundKey.Length == 176 && key.Length >= 16 && iv.Length >= 16
    requires code.aes.roundKey !in {plain, hidden, restored, key, iv} && plain !in {hidden, restored, key, iv}
    requires hidden !in {restored, key, iv} && restored !in {key, iv}
    requires Room(length) <= plain.Length && Room(length) <= hidden.Length && Room(length) <= restored.Length
    modifies code, code.aes.roundKey, plain, hidden, restored
    ensures restored[..length] == old(plain[..length])
  {
    hide Fips197.Cipher, Fips197.InvCipher, ExpandedKey, CipherBlock, PlainBlock, BlockOf, ZeroPadded, Encrypted;
    ghost var p, start, n := plain[..], iv[..16], Blocks(length);
    code.EncryptBuffer(hidden, plain, length, key, iv);
    ghost var c, w := hidden[..], code.aes.roundKey[..];
    code.DecryptBuffer(restored, hidden, length, key, iv);
    CbcRoundTrip(p, c, start, w, n);
    BytesOfBlocks(restored[..], p, length);
  }

  /** Encrypting whole blocks and then, with a null vector and in other buffers, more data, is encrypting them in one go. */
  method EncryptInTwoCalls(code: CbcCode, in1: array<bv8>, out1: array<bv8>, n: nat, in2: array<bv8>, out2: array<bv8>, length: nat,
                           key: array<bv8>, iv: array<bv8>)
    requires code.aes.roundKey.Length == 176 && key.Length >= 16 && iv.Length >= 16 && n > 0
    requires code.aes.roundKey !in {in1, out1, in2, out2, key, iv} && key !in {in1, out1} && iv !in {in1, out1}
    requires in1 !in {out1, in2, out2} && out1 !in {in2, out2} && in2 != out2
    requires 16 * n <= in1.Length && 16 * n <= out1.Length && Room(length) <= in2.Length && Room(length) <= out2.Length
    modifies code, code.aes.roundKey, in1, out1, in2, out2
    ensures var p, c := old(in1[..16 * n]) + old(in2[..]), out1[..16 * n] + out2[..];
      forall j :: 0 <= j < n + Blocks(length) ==> BlockOf(c, j) == CipherBlock(p, old(iv[..16]), ExpandedKey(old(key[..16])), j)
  {
    hide Fips197.Cipher, ExpandedKey, CipherBlock, ZeroPadded, Encrypted;
    ghost var start, w := iv[..16], ExpandedKey(key[..16]);
    ghost var whole, q := in1[..], in2[..];
    code.EncryptBuffer(out1, in1, 16 * n, key, iv);
    ghost var c1 := out1[..];
    assert code.ivAt == 16 * (n - 1) && BlockAt(c1, 16 * (n - 1)) == BlockOf(c1, n - 1);
    code.EncryptBuffer(out2, in2, length, null, null);
    TwoCalls(whole, q, c1, out2[..], start, w, n, Blocks(length));
  }

  lemma BlockBehind(a: seq<bv8>, b: seq<bv8>, n: nat, j: nat)
    requires |a| == 16 * n && n <= j && 16 * (j - n) + 16 <= |b|
    ensures BlockOf(a + b, j) == BlockOf(b, j - n)
  {
    var x, at := a + b, 16 * (j - n);
    assert 16 * j == |a| + at;
    assert x[|a| + at..|a| + at + 16] == b[at..at + 16];
  }

  lemma BlockInFront(c: seq<bv8>, q: seq<bv8>, n: nat, j: nat)
    requires j < n && 16 * n <= |c|
    ensures BlockOf(c[..16 * n] + q, j) == BlockOf(c, j)
    ensures (c[..16 * n] + q)[..16 * (j + 1)] == c[..16 * (j + 1)]
  {
    var x, at := c[..16 * n] + q, 16 * j;
    assert at + 16 <= 16 * n;
    assert x[at..at + 16] == c[at..at + 16];
  }

  lemma TwoCalls(p: seq<bv8>, q: seq<bv8>, c1: seq<bv8>, c2: seq<bv8>, start: Block, w: Schedule, n: nat, m: nat)
    requires n > 0 && 16 * n <= |p| && 16 * n <= |c1| && 16 * m <= |q| && 16 * m <= |c2|
    requires forall j :: 0 <= j < n ==> BlockOf(c1, j) == CipherBlock(p, start, w, j)
    requires forall j :: 0 <= j < m ==> BlockOf(c2, j) == CipherBlock(q, BlockOf(c1, n - 1), w, j)
    ensures forall j :: 0 <= j < n + m ==> BlockOf(c1[..16 * n] + c2, j) == CipherBlock(p[..16 * n] + q, start, w, j)
  {
    hide CipherBlock;
    var c, p1 := c1[..16 * n] + c2, p[..16 * n];
    SamePrefix(p, p1, start, w, n - 1);
    forall j | 0 <= j < n + m
      ensures BlockOf(c, j) == CipherBlock(p1 + q, start, w, j)
    {
      if j < n {
        BlockInFront(c1, c2, n, j);
        BlockInFront(p, q, n, j);
        SamePrefix(p, p1 + q, start, w, j);
      } else {
        BlockBehind(c1[..16 * n], c2, n, j);
        CbcContinues(p1, q, start, w, n, j - n);
      }
    }
  }

  /** In a buffer of one block that is used again, the vector is overwritten by the data before it is read. */
  method EncryptAgainInPlace(code: CbcCode, input: array<bv8>, output: array<bv8>)
    requires code.aes.roundKey.Length == 176 && code.aes.roundKey !in {input, output} && input != output
    requires code.iv == output && code.ivAt == 0 && 16 <= input.Length && 16 <= output.Length
    modifies code, code.aes.roundKey, input, output
    ensures output[..16] == Fips197.Cipher(seq(16, i => 0), old(code.aes.roundKey[..]))
  {
    hide Fips197.Cipher, CipherBlock, Encrypted;
    ghost var p := input[..];
    code.EncryptBuffer(output, input, 16, null, null);
    assert BlockOf(output[..], 0) == output[..16];
    ItsOwnVector(p, code.aes.roundKey[..]);
  }

  /**
   After whole blocks have been encrypted, a call with null key and vector goes on from them, in whatever buffers, if and only
   if the block that it copies to the front of its output does not change the vector that the call before left.
   */
  method EncryptMore(code: CbcCode, output: array<bv8>, input: array<bv8>, length: nat, ghost p: seq<bv8>, ghost start: Block, ghost n: nat)
    requires code.aes.roundKey.Length == 176 && code.aes.roundKey !in {output, input} && output != input
    requires length > 0 && Room(length) <= output.Length && Room(length) <= input.Length
    requires code.ivAt + 16 <= code.iv.Length && code.iv != code.aes.roundKey && n > 0 && |p| == 16 * n
    requires BlockAt(code.iv[..], code.ivAt) == CipherBlock(p, start, code.aes.roundKey[..], n - 1)
    modifies code, code.aes.roundKey, output, input
    ensures (forall j :: 0 <= j < Blocks(length) ==>
               BlockOf(output[..], j) == CipherBlock(p + old(input[..]), start, old(code.aes.roundKey[..]), n + j))
       <==> old(VectorSurvives(code, output, BlockOf(input[..], 0)))
  {
    hide Fips197.Cipher, CipherBlock, ZeroPadded, Encrypted, VectorSurvives, CbcCode.StartIv, WithBlock;
    ghost var q, w, m := input[..], code.aes.roundKey[..], Blocks(length);
    ghost var vector, used := BlockAt(code.iv[..], code.ivAt), code.StartIv(null, output, WithBlock(output[..], 0, BlockOf(q, 0)));
    SurvivesIff(code, output, BlockOf(q, 0));
    code.EncryptBuffer(output, input, length, null, null);
    CipherTellsVector(q, used, vector, w, m);
    forall j | 0 <= j < m
      ensures CipherBlock(p + q, start, w, n + j) == CipherBlock(q, vector, w, j)
    {
      CbcContinues(p, q, start, w, n, j);
    }
  }

  /** The same for decryption; what it puts at the front of its output is the block as deciphered. */
  method DecryptMore(code: CbcCode, output: array<bv8>, input: array<bv8>, length: nat, ghost c: seq<bv8>, ghost start: Block, ghost n: nat)
    requires code.aes.roundKey.Length == 176 && code.aes.roundKey !in {output, input} && output != input
    requires length > 0 && Room(length) <= output.Length && Room(length) <= input.Length
    requires code.ivAt + 16 <= code.iv.Length && code.iv != code.aes.roundKey && n > 0 && |c| == 16 * n
    requires BlockAt(code.iv[..], code.ivAt) == BlockOf(c, n - 1)
    modifies code, code.aes.roundKey, output
    ensures (forall j :: 0 <= j < Blocks(length) ==>
               BlockOf(output[..], j) == PlainBlock(c + input[..], start, old(code.aes.roundKey[..]), n + j))
       <==> old(VectorSurvives(code, output, Fips197.InvCipher(BlockOf(input[..], 0), code.aes.roundKey[..])))
  {
    hide Fips197.InvCipher, PlainBlock, ZeroPadded, VectorSurvives, CbcCode.StartIv, WithBlock;
    ghost var d, w, m := input[..], code.aes.roundKey[..], Blocks(length);
    ghost var first := Fips197.InvCipher(BlockOf(d, 0), w);
    ghost var vector, used := BlockAt(code.iv[..], code.ivAt), code.StartIv(null, output, WithBlock(output[..], 0, first));
    SurvivesIff(code, output, first);
    code.DecryptBuffer(output, input, length, null, null);
    PlainTellsVector(d, used, vector, w, m);
    forall j | 0 <= j < m
      ensures PlainBlock(c + d, start, w, n + j) == PlainBlock(d, vector, w, j)
    {
      PlainContinues(c, d, start, w, n, j);
    }
  }
}
