/** The allocator of memory for processes: aligned blocks in a pool, and a bit for each kilobyte. */
module PoolBlocks {
  import opened PoolMap

  ghost predicate IsBlock(base: nat, poolSize: nat, p: nat, size: nat) {
    && size >= BLOCK && size % BLOCK == 0 && PowerOfTwo(size) && Rest(p, size) == 0
    && base <= p && (p - base) % BLOCK == 0 && p + size <= base + poolSize
  }

  /** The blocks handed out lie in the pool, are aligned to their sizes, and are disjoint. */
  ghost predicate Live(base: nat, poolSize: nat, blocks: map<nat, nat>) {
    && (forall p :: p in blocks ==> IsBlock(base, poolSize, p, blocks[p]))
    && (forall p, q :: p in blocks && q in blocks && p != q ==> p + blocks[p] <= q || q + blocks[q] <= p)
  }

  ghost predicate InSome(base: nat, blocks: map<nat, nat>, k: nat) {
    exists p :: p in blocks && p <= base + BLOCK * k < p + blocks[p]
  }

  /** The bits that are set are those of the blocks handed out, and no others. */
  ghost predicate Shows(used: seq<bool>, base: nat, blocks: map<nat, nat>) {
    forall k :: 0 <= k < |used| ==> (used[k] <==> InSome(base, blocks, k))
  }

  function Marked(used: seq<bool>, i: nat, n: nat, mark: bool): (marked: seq<bool>)
    ensures |marked| == |used|
  {
    seq(|used|, k requires 0 <= k < |used| => if i <= k < i + n then mark else used[k])
  }

  lemma MarkedNone(used: seq<bool>, i: nat, mark: bool)
    ensures Marked(used, i, 0, mark) == used
  {
  }

  lemma MarkedOne(used: seq<bool>, i: nat, n: nat, mark: bool)
    requires i + n < |used|
    ensures Marked(used, i, n + 1, mark) == Marked(used, i, n, mark)[i + n := mark]
  {
  }

  /** Giving a run back undoes taking it. */
  lemma MarkedBack(used: seq<bool>, i: nat, n: nat)
    requires RunFree(used, i, n)
    ensures Marked(Marked(used, i, n, true), i, n, false) == used
  {
  }

  // -------------------------------------------------------------- what an allocation looks for

  ghost predicate FitsAt(used: seq<bool>, base: nat, size: nat, i: nat)
    requires size > 0
  {
    Rest(base + BLOCK * i, size) == 0 && RunFree(used, i, size / BLOCK)
  }

  ghost predicate NothingFits(used: seq<bool>, base: nat, size: nat)
    requires size > 0
  {
    forall i: nat :: !FitsAt(used, base, size, i)
  }

  ghost predicate Lowest(used: seq<bool>, base: nat, size: nat, i: nat)
    requires size > 0
  {
    FitsAt(used, base, size, i) && forall q: nat :: FitsAt(used, base, size, q) ==> i <= q
  }

  /** From the last aligned positions in the pool, and from its end, up to the end of the map: something there is in use. */
  ghost predicate EndUsed(used: seq<bool>, base: nat, size: nat, limit: nat)
    requires size > 0
  {
    forall q: nat :: Rest(base + BLOCK * q, size) == 0 && q <= limit && |used| < q + size / BLOCK ==> UsedFrom(used, q)
  }

  function Sought(used: seq<bool>, base: nat, size: nat, limit: nat): Search
    requires size >= BLOCK
  {
    FirstFree(used, FirstAligned(base, size), size / BLOCK, limit)
  }

  /** The search is exact; without a fitting run it stays inside the map exactly when the end of the pool is in use. */
  lemma SearchIsExact(used: seq<bool>, base: nat, size: nat, limit: nat)
    requires size >= BLOCK && size % BLOCK == 0 && base % BLOCK == 0 && |used| <= limit
    ensures var r := Sought(used, base, size, limit);
      && (r.Found? <==> !NothingFits(used, base, size))
      && (r.Found? ==> Lowest(used, base, size, r.at))
      && (r.Strayed? <==> NothingFits(used, base, size) && !EndUsed(used, base, size, limit))
  {
    var start, n := FirstAligned(base, size), size / BLOCK;
    assert BLOCK * n == size;
    StartsAligned(base, size);
    SearchFinds(used, start, n, limit);
    hide Rest, FirstAligned, RunFree, UsedFrom, Passed, FirstFree;
    forall q: nat
      ensures Rest(base + BLOCK * q, size) == 0 <==> Passed(q, start, n)
    {
      if q >= start {
        PassedIsAligned(q, start, n, base);
      } else {
        NotBefore(q, start, n);
      }
    }
    forall q: nat
      ensures FitsAt(used, base, size, q) <==> Fits(used, q, start, n)
    {
    }
  }

  /** A pool that is free but too badly aligned for the request: the search runs off its end. */
  lemma FreePoolStrays()
    ensures Sought(seq(32, k => false), BLOCK, 32 * BLOCK, 32) == Strayed
  {
    var used := seq(32, k => false);
    assert FirstAligned(BLOCK, 32 * BLOCK) == 31;
    assert Probe(used, 32, 63) == PastEnd;
    assert Probe(used, 31, 63) == PastEnd;
  }

  /** In a free pool of 64 KiB at 0x6400_0400, four KiB are found at 0x6400_1000, three blocks further on. */
  lemma FreePoolServes()
    ensures Sought(seq(64, k => false), 0x6400_0400, 4096, 64) == Found(3) && 0x6400_0400 + 3 * BLOCK == 0x6400_1000
  {
    var used := seq(64, k => false);
    assert FirstAligned(0x6400_0400, 4096) == 3;
    assert Probe(used, 7, 7) == Free && Probe(used, 6, 7) == Free && Probe(used, 5, 7) == Free && Probe(used, 4, 7) == Free;
  }

  lemma NotBefore(q: nat, i: nat, n: nat)
    requires n > 0 && q < i
    ensures !Passed(q, i, n)
  {
  }

  // -------------------------------------------------------------- taking a block and giving it back

  lemma InBlock(base: nat, p: nat, size: nat, k: nat)
    requires base <= p && (p - base) % BLOCK == 0 && size % BLOCK == 0
    ensures p <= base + BLOCK * k < p + size <==> (p - base) / BLOCK <= k < (p - base) / BLOCK + size / BLOCK
  {
  }

  lemma TakenRun(used: seq<bool>, base: nat, poolSize: nat, blocks: map<nat, nat>, size: nat, i: nat)
    requires Live(base, poolSize, blocks) && Shows(used, base, blocks) && BLOCK * |used| == poolSize && base % BLOCK == 0
    requires size >= BLOCK && size % BLOCK == 0 && PowerOfTwo(size) && FitsAt(used, base, size, i)
    ensures var p := base + BLOCK * i; var later := blocks[p := size];
      p !in blocks && Live(base, poolSize, later) && Shows(Marked(used, i, size / BLOCK, true), base, later)
  {
    hide PowerOfTwo, Rest;
    var p, n := base + BLOCK * i, size / BLOCK;
    var later := blocks[p := size];
    forall q | q in blocks
      ensures p + size <= q || q + blocks[q] <= p
    {
      BlockApart(used, base, poolSize, blocks, size, i, q);
    }
    var marked := Marked(used, i, n, true);
    forall k | 0 <= k < |used|
      ensures marked[k] <==> InSome(base, later, k)
    {
      InBlock(base, p, size, k);
      InSomeWith(base, blocks, p, size, k);
    }
  }

  lemma InSomeWith(base: nat, blocks: map<nat, nat>, p: nat, size: nat, k: nat)
    requires p !in blocks
    ensures InSome(base, blocks[p := size], k) <==> InSome(base, blocks, k) || p <= base + BLOCK * k < p + size
  {
    var later := blocks[p := size];
    assert p in later && later[p] == size;
    if InSome(base, blocks, k) {
      var q :| q in blocks && q <= base + BLOCK * k < q + blocks[q];
      assert q in later && later[q] == blocks[q];
    }
  }

  lemma InSomeWithout(base: nat, poolSize: nat, blocks: map<nat, nat>, p: nat, k: nat)
    requires Live(base, poolSize, blocks) && p in blocks
    ensures InSome(base, blocks - {p}, k) <==> InSome(base, blocks, k) && !(p <= base + BLOCK * k < p + blocks[p])
  {
    hide IsBlock;
    var later, a := blocks - {p}, base + BLOCK * k;
    if q :| q in blocks && q <= a < q + blocks[q] {
      assert q != p ==> q in later && later[q] == blocks[q];
    }
    if q :| q in later && q <= a < q + later[q] {
      assert q in blocks && blocks[q] == later[q];
    }
  }

  lemma BlockApart(used: seq<bool>, base: nat, poolSize: nat, blocks: map<nat, nat>, size: nat, i: nat, q: nat)
    requires Live(base, poolSize, blocks) && Shows(used, base, blocks) && BLOCK * |used| == poolSize
    requires size >= BLOCK && size % BLOCK == 0 && RunFree(used, i, size / BLOCK) && q in blocks
    ensures base + BLOCK * i + size <= q || q + blocks[q] <= base + BLOCK * i
  {
    hide PowerOfTwo, Rest;
    var p, j := base + BLOCK * i, (q - base) / BLOCK;
    assert IsBlock(base, poolSize, q, blocks[q]);
    assert q <= base + BLOCK * j < q + blocks[q];
    assert InSome(base, blocks, j) && used[j];
    assert !used[i] && !InSome(base, blocks, i);
  }

  lemma BlockStart(base: nat, poolSize: nat, blocks: map<nat, nat>, p: nat)
    requires Live(base, poolSize, blocks) && p in blocks
    ensures base <= p
  {
    assert IsBlock(base, poolSize, p, blocks[p]);
  }

  lemma GivenBack(used: seq<bool>, base: nat, poolSize: nat, blocks: map<nat, nat>, p: nat)
    requires Live(base, poolSize, blocks) && Shows(used, base, blocks) && BLOCK * |used| == poolSize && p in blocks
    ensures var i, n := (p - base) / BLOCK, blocks[p] / BLOCK;
      Live(base, poolSize, blocks - {p}) && Shows(Marked(used, i, n, false), base, blocks - {p}) && i + n <= |used|
  {
    hide PowerOfTwo, Rest;
    assert IsBlock(base, poolSize, p, blocks[p]);
    var i, n, later := (p - base) / BLOCK, blocks[p] / BLOCK, blocks - {p};
    var marked := Marked(used, i, n, false);
    forall k | 0 <= k < |used|
      ensures marked[k] <==> InSome(base, later, k)
    {
      InBlock(base, p, blocks[p], k);
      InSomeWithout(base, poolSize, blocks, p, k);
    }
  }
}

module Pool {
  import opened PoolMap
  import opened PoolBlocks

  /** An address, or what is thrown: a request that is not valid, or no memory; or the search has run off the map. */
  datatype Allocation = Allocated(ptr: nat) | BadRequest | OutOfMemory | OffTheMap

  class ProcessPool {
    const poolBase: nat
    const poolSize: nat
    const bitmap: array<bv32>
    var allocatedBlocks: map<nat, nat>

    ghost function Used(): seq<bool>
      reads bitmap
    {
      Bits(bitmap[..])
    }

    ghost predicate Valid()
      reads this, bitmap
    {
      && poolBase % BLOCK == 0 && poolSize % BLOCK == 0 && poolBase + poolSize <= TWO_32
      && |Used()| <= poolSize / BLOCK
      && Live(poolBase, Mapped(), allocatedBlocks) && Shows(Used(), poolBase, allocatedBlocks)
    }

    /** How many bytes of the pool the map stands for: not all, if the blocks do not fill whole words. */
    ghost function Mapped(): nat
      reads bitmap
    {
      BLOCK * |Used()|
    }

    constructor (poolBase: nat, poolSize: nat)
      requires poolBase % BLOCK == 0 && poolSize % BLOCK == 0 && poolBase + poolSize <= TWO_32
      ensures this.poolBase == poolBase && this.poolSize == poolSize
      ensures Valid() && allocatedBlocks == map[] && forall k :: 0 <= k < |Used()| ==> !Used()[k]
    {
      var numBytes := poolSize / BLOCK / 8;
      this.poolBase, this.poolSize, allocatedBlocks := poolBase, poolSize, map[];
      var words := new bv32[numBytes / 4];
      for i := 0 to words.Length
        invariant forall j :: 0 <= j < i ==> words[j] == 0
      {
        words[i] := 0;
      }
      bitmap := words;
      NoneSet(words[..]);
      MapCoversPool(poolSize);
    }

    method TestBit(bit: nat) returns (taken: bool)
      requires bit < 32 * bitmap.Length
      ensures taken == Used()[bit]
    {
      taken := Meets(bitmap[bit / 32], Mask(bit % 32));
    }

    method SetBit(bit: nat)
      requires bit < 32 * bitmap.Length
      modifies bitmap
      ensures Used() == old(Used())[bit := true]
    {
      SetIn(bitmap[..], bit);
      bitmap[bit / 32] := With(bitmap[bit / 32], Mask(bit % 32));
      assert bitmap[..] == old(bitmap[..])[bit / 32 := bitmap[bit / 32]];
    }

    method ClearBit(bit: nat)
      requires bit < 32 * bitmap.Length
      modifies bitmap
      ensures Used() == old(Used())[bit := false]
    {
      ClearedIn(bitmap[..], bit);
      bitmap[bit / 32] := Without(bitmap[bit / 32], Mask(bit % 32));
      assert bitmap[..] == old(bitmap[..])[bit / 32 := bitmap[bit / 32]];
    }

    /** What a request for a valid size leads to, before and after. */
    twostate predicate Served(bytes: nat, r: Allocation)
      requires bytes > 0
      reads this, bitmap
    {
      && !r.BadRequest?
      && (r.Allocated? <==> !NothingFits(old(Used()), poolBase, bytes))
      && (r.OffTheMap? <==> NothingFits(old(Used()), poolBase, bytes) && !EndUsed(old(Used()), poolBase, bytes, poolSize / BLOCK))
      && (!r.Allocated? ==> allocatedBlocks == old(allocatedBlocks) && Used() == old(Used()))
      && (r.Allocated? ==>
            && r.ptr >= poolBase && (r.ptr - poolBase) % BLOCK == 0
            && Lowest(old(Used()), poolBase, bytes, (r.ptr - poolBase) / BLOCK)
            && r.ptr !in old(allocatedBlocks) && allocatedBlocks == old(allocatedBlocks)[r.ptr := bytes]
            && Used() == Marked(old(Used()), (r.ptr - poolBase) / BLOCK, bytes / BLOCK, true))
    }

    method Allocate(size: bv32) returns (r: Allocation)
      requires Valid()
      modifies `allocatedBlocks, bitmap
      ensures Valid()
      ensures r.BadRequest? <==> !(PowerOfTwo(size as nat) && BLOCK <= size as nat <= poolSize)
      ensures r.BadRequest? ==> allocatedBlocks == old(allocatedBlocks) && Used() == old(Used())
      ensures !r.BadRequest? ==> Served(size as nat, r)
    {
      var bytes := size as nat;
      PowerTest(size);
      if !OneBitOnly(size) || bytes > poolSize || bytes < BLOCK {
        return BadRequest;
      }
      hide OneBitOnly, PowerOfTwo, Shows, Live, Bits, Lowest, Marked, NothingFits;
      r := AllocateRun(bytes);
    }

    /** Whether one of the bits of a run is set; stops at the first, or where the map ends. */
    method AnySet(i: nat, sizeBit: nat) returns (notEmpty: bool, pastEnd: bool)
      ensures notEmpty == (Probe(Used(), i, i + sizeBit) == PoolMap.Taken)
      ensures pastEnd == (Probe(Used(), i, i + sizeBit) == PastEnd)
    {
      hide Probe;
      var j := 0;
      while j < sizeBit
        invariant j <= sizeBit && Probe(Used(), i + j, i + sizeBit) == Probe(Used(), i, i + sizeBit)
      {
        ProbeStep(Used(), i + j, i + sizeBit);
        if i + j >= 32 * bitmap.Length {
          return false, true;
        }
        var taken := TestBit(i + j);
        if !taken {
          j := j + 1;
          continue;
        }
        return true, false;
      }
      ProbeStep(Used(), i + j, i + sizeBit);
      return false, false;
    }

    /** Marks a run that was found free, and records it. */
    method TakeRun(i: nat, bytes: nat) returns (result: nat)
      requires Valid() && PowerOfTwo(bytes) && bytes >= BLOCK && bytes % BLOCK == 0
      requires FitsAt(Used(), poolBase, bytes, i) && i + bytes / BLOCK <= |Used()|
      modifies `allocatedBlocks, bitmap
      ensures Valid() && result == poolBase + BLOCK * i
      ensures result !in old(allocatedBlocks) && allocatedBlocks == old(allocatedBlocks)[result := bytes]
      ensures Used() == Marked(old(Used()), i, bytes / BLOCK, true)
    {
      hide PowerOfTwo, Shows, Live, Bits, Rest, FitsAt, Marked;
      ghost var used := Used();
      MarkedNone(used, i, true);
      for k := 0 to bytes / BLOCK
        invariant Used() == Marked(used, i, k, true) && allocatedBlocks == old(allocatedBlocks)
      {
        MarkedOne(used, i, k, true);
        SetBit(i + k);
      }
      result := poolBase + i * BLOCK;
      TakenRun(used, poolBase, Mapped(), allocatedBlocks, bytes, i);
      allocatedBlocks := allocatedBlocks[result := bytes];
    }

    /** The search, for a size that is valid. */
    method AllocateRun(bytes: nat) returns (r: Allocation)
      requires Valid() && PowerOfTwo(bytes) && BLOCK <= bytes <= poolSize
      modifies `allocatedBlocks, bitmap
      ensures Valid() && Served(bytes, r)
    {
      hide OneBitOnly, PowerOfTwo, Shows, Live, Bits, FirstFree, Probe, Rest, Lowest, FitsAt, NothingFits, EndUsed, Marked;
      ghost var used, limit := Used(), poolSize / BLOCK;
      PowerOfBlocks(bytes);
      SearchIsExact(used, poolBase, bytes, limit);
      var offset := 0;
      if Rest(poolBase, bytes) != 0 {
        RestBelow(poolBase, bytes);
        offset := bytes - Rest(poolBase, bytes);
      }
      var startBit, sizeBit := offset / BLOCK, bytes / BLOCK;
      var i := startBit;
      while i <= poolSize / BLOCK
        invariant Used() == used && allocatedBlocks == old(allocatedBlocks)
        invariant FirstFree(used, i, sizeBit, limit) == Sought(used, poolBase, bytes, limit)
        decreases poolSize / BLOCK + sizeBit - i
      {
        SearchStep(used, i, sizeBit, limit);
        var notEmpty, pastEnd := AnySet(i, sizeBit);
        if pastEnd {
          return OffTheMap;
        }
        if notEmpty {
          i := i + sizeBit;
          continue;
        }
        LowestFits(used, poolBase, bytes, i);
        var result := TakeRun(i, bytes);
        return Allocated(result);
      }
      SearchStep(used, i, sizeBit, limit);
      return OutOfMemory;
    }

    method Deallocate(ptr: nat) returns (known: bool)
      requires Valid()
      modifies `allocatedBlocks, bitmap
      ensures Valid()
      ensures known == (ptr in old(allocatedBlocks))
      ensures !known ==> allocatedBlocks == old(allocatedBlocks) && Used() == old(Used())
      ensures known ==>
        && allocatedBlocks == old(allocatedBlocks) - {ptr}
        && Used() == Marked(old(Used()), (ptr - poolBase) / BLOCK, old(allocatedBlocks)[ptr] / BLOCK, false)
    {
      if ptr !in allocatedBlocks {
        return false;
      }
      hide PowerOfTwo, Shows, Live, Bits, Marked;
      ghost var used := Used();
      BlockStart(poolBase, Mapped(), allocatedBlocks, ptr);
      GivenBack(used, poolBase, Mapped(), allocatedBlocks, ptr);
      var size := allocatedBlocks[ptr] / BLOCK;
      var firstBit := (ptr - poolBase) / BLOCK;
      MarkedNone(used, firstBit, false);
      for i := firstBit to firstBit + size
        invariant Used() == Marked(used, firstBit, i - firstBit, false) && allocatedBlocks == old(allocatedBlocks)
      {
        MarkedOne(used, firstBit, i - firstBit, false);
        ClearBit(i);
      }
      allocatedBlocks := allocatedBlocks - {ptr};
      return true;
    }
  }

  /** Whatever was live before, taking a block and giving it back leaves the allocator as it was. */
  method TakeAndReturn(pool: ProcessPool, bytes: nat) returns (r: Allocation)
    requires pool.Valid() && PowerOfTwo(bytes) && BLOCK <= bytes <= pool.poolSize
    modifies pool, pool.bitmap
    ensures pool.Valid() && pool.allocatedBlocks == old(pool.allocatedBlocks) && pool.Used() == old(pool.Used())
  {
    hide PowerOfTwo, Live, Shows, Bits, Marked, Lowest, NothingFits, RunFree;
    ghost var used, blocks := pool.Used(), pool.allocatedBlocks;
    r := pool.AllocateRun(bytes);
    if r.Allocated? {
      ghost var i := (r.ptr - pool.poolBase) / BLOCK;
      LowestIsFree(used, pool.poolBase, bytes, i);
      MarkedBack(used, i, bytes / BLOCK);
      assert blocks[r.ptr := bytes] - {r.ptr} == blocks;
      assert pool.allocatedBlocks[r.ptr] == bytes;
      var known := pool.Deallocate(r.ptr);
    }
  }

  lemma LowestIsFree(used: seq<bool>, base: nat, size: nat, i: nat)
    requires size > 0 && Lowest(used, base, size, i)
    ensures RunFree(used, i, size / BLOCK)
  {
  }

  lemma RestBelow(x: nat, s: nat)
    requires s > 0
    ensures Rest(x, s) < s
  {
  }

  lemma PowerOfBlocks(n: nat)
    requires PowerOfTwo(n) && n >= BLOCK
    ensures n % BLOCK == 0
  {
    hide Power;
    var k: nat :| n == Power(k);
    SmallPowers();
    if k >= 10 {
      PowerSum(k - 10);
      var m := Power(k - 10);
      assert n == BLOCK * m;
    } else {
      PowersGrow(k, 9);
    }
  }

  lemma SmallPowers()
    ensures Power(9) == 512 && Power(10) == BLOCK
  {
    assert Power(5) == 32;
  }

  lemma {:induction false} PowerSum(k: nat)
    ensures Power(k + 10) == BLOCK * Power(k)
  {
    if k == 0 {
      assert Power(10) == BLOCK;
    } else {
      PowerSum(k - 1);
    }
  }

  lemma ProbeStep(used: seq<bool>, k: nat, end: nat)
    ensures k >= end ==> Probe(used, k, end) == PoolMap.Free
    ensures k < end && k >= |used| ==> Probe(used, k, end) == PastEnd
    ensures k < end && k < |used| ==> Probe(used, k, end) == if used[k] then PoolMap.Taken else Probe(used, k + 1, end)
  {
  }

  lemma SearchStep(used: seq<bool>, i: nat, n: nat, limit: nat)
    requires n > 0
    ensures i > limit ==> FirstFree(used, i, n, limit) == Exhausted
    ensures i <= limit && Probe(used, i, i + n) == PoolMap.Free ==> FirstFree(used, i, n, limit) == Found(i)
    ensures i <= limit && Probe(used, i, i + n) == PoolMap.Taken ==> FirstFree(used, i, n, limit) == FirstFree(used, i + n, n, limit)
    ensures i <= limit && Probe(used, i, i + n) == PastEnd ==> FirstFree(used, i, n, limit) == Strayed
  {
  }

  lemma LowestFits(used: seq<bool>, base: nat, size: nat, i: nat)
    requires size > 0 && Lowest(used, base, size, i)
    ensures FitsAt(used, base, size, i) && i + size / BLOCK <= |used|
  {
  }
}
