/**
 The flash driver: a megabyte of memory in twelve sectors, where erasing sets every bit of
 a sector and programming can only clear bits.
 */
module Flash {

  const BASE := 0x0800_0000
  const SIZE := 0x10_0000

  /** Where sector n starts; sector twelve would start at the end of the flash. */
  function SectorStart(n: nat): nat {
    if n <= 4 then BASE + 0x4000 * n else BASE + 0x2_0000 * (n - 4)
  }

  /** The sector that really holds an address. */
  predicate InSector(a: nat, n: nat) {
    n < 12 && SectorStart(n) <= a < SectorStart(n + 1)
  }

  const SECTOR_11_BOUND := SectorStart(11) + 128000

  /** The driver's case analysis; it gives sector eleven 128000 bytes, not 131072. */
  function GetSectorNumber(a: nat): (n: int)
    ensures -1 <= n < 12
  {
    if 0x0800_0000 <= a < 0x0800_4000 then 0
    else if 0x0800_4000 <= a < 0x0800_8000 then 1
    else if 0x0800_8000 <= a < 0x0800_C000 then 2
    else if 0x0800_C000 <= a < 0x0801_0000 then 3
    else if 0x0801_0000 <= a < 0x0802_0000 then 4
    else if 0x0802_0000 <= a < 0x0804_0000 then 5
    else if 0x0804_0000 <= a < 0x0806_0000 then 6
    else if 0x0806_0000 <= a < 0x0808_0000 then 7
    else if 0x0808_0000 <= a < 0x080A_0000 then 8
    else if 0x080A_0000 <= a < 0x080C_0000 then 9
    else if 0x080C_0000 <= a < 0x080E_0000 then 10
    else if 0x080E_0000 <= a < 0x080E_0000 + 128000 then 11
    else -1
  }

  /** Four sectors of 16 KiB, one of 64 and seven of 128 lie behind one another and are the whole flash. */
  lemma SectorLayout(n: nat)
    requires n < 12
    ensures SectorStart(0) == 0x0800_0000 && SectorStart(12) == 0x0810_0000
    ensures SectorStart(n + 1) - SectorStart(n) == 1024 * if n < 4 then 16 else if n == 4 then 64 else 128
    ensures forall a: nat :: InSector(a, n) <==> SectorStart(n) <= a < SectorStart(n + 1)
  {
  }

  lemma SectorsDisjoint(a: nat, m: nat, n: nat)
    requires InSector(a, m) && InSector(a, n)
    ensures m == n
  {
    EndsBefore(m, n);
    EndsBefore(n, m);
  }

  lemma EndsBefore(m: nat, n: nat)
    ensures m < n ==> SectorStart(m + 1) <= SectorStart(n)
  {
    if m < n {
      SectorsOrdered(m + 1, n);
    }
  }

  lemma SectorsOrdered(m: nat, n: nat)
    requires m <= n
    ensures SectorStart(m) <= SectorStart(n)
  {
  }

  /** The driver finds the sector of an address exactly when it is not in the last 3072 bytes of the flash. */
  lemma SectorNumberExact(a: nat, n: nat)
    requires InSector(a, n)
    ensures GetSectorNumber(a) == n <==> a < SECTOR_11_BOUND
    ensures GetSectorNumber(a) == -1 <==> a >= SECTOR_11_BOUND
  {
    var m := GetSectorNumber(a);
    if m != -1 {
      assert InSector(a, m);
      SectorsDisjoint(a, m, n);
    }
    assert a < SectorStart(12) by { SectorsOrdered(n + 1, 12); }
  }

  /** What remains of a byte when another is programmed over it. */
  function Programmed(x: bv8, data: bv8): bv8 {
    x & data
  }

  lemma ProgramErased(data: bv8)
    ensures Programmed(0xFF, data) == data
  {
  }

  lemma ProgramBlank(x: bv8)
    ensures Programmed(x, 0xFF) == x
  {
  }

  class FlashDriver {
    const memory: array<bv8>
    /** Whether the controller always unlocks and is never busy when asked. */
    const reliable: bool

    constructor (reliable: bool)
      ensures memory.Length == SIZE && fresh(memory) && this.reliable == reliable
      ensures forall k :: 0 <= k < SIZE ==> memory[k] == 0xFF
    {
      memory := new bv8[SIZE](_ => 0xFF);
      this.reliable := reliable;
    }

    /** Erases a sector, unless the controller stays locked or is busy. */
    method Erase(sector: nat) returns (ok: bool)
      requires memory.Length == SIZE && sector < 12
      modifies memory
      ensures reliable ==> ok
      ensures forall k :: 0 <= k < SIZE ==>
        memory[k] == if ok && InSector(BASE + k, sector) then 0xFF else old(memory[k])
    {
      ok := *;
      ok := ok || reliable;
      if !ok {
        return;
      }
      var start, end := SectorStart(sector), SectorStart(sector + 1);
      SectorsOrdered(sector + 1, 12);
      for a := start to end
        invariant forall k :: 0 <= k < SIZE ==>
          memory[k] == if start <= BASE + k < a then 0xFF else old(memory[k])
      {
        memory[a - BASE] := 0xFF;
      }
    }

    /** Programs one byte, unless the controller stays locked or is busy. */
    method ProgramByte(address: nat, data: bv8) returns (ok: bool)
      requires memory.Length == SIZE && BASE <= address < BASE + SIZE
      modifies memory
      ensures reliable ==> ok
      ensures memory[..] == if ok then old(memory[..])[address - BASE := old(memory[address - BASE]) & data] else old(memory[..])
    {
      ok := *;
      ok := ok || reliable;
      if ok {
        memory[address - BASE] := Programmed(memory[address - BASE], data);
      }
    }

    /** Programs the bytes of `data` from an address on, but skips those that are 0xFF; stops at the first failure. */
    method Write(address: nat, data: seq<bv8>) returns (ok: bool)
      requires memory.Length == SIZE && BASE <= address && address + |data| <= BASE + SIZE
      modifies memory
      ensures reliable ==> ok
      ensures exists written: nat ::
        written <= |data| && (ok ==> written == |data|) && WrittenOver(old(memory[..]), address - BASE, data[..written], memory[..])
    {
      hide Programmed;
      ghost var before := memory[..];
      for i := 0 to |data|
        invariant WrittenOver(before, address - BASE, data[..i], memory[..])
      {
        ghost var now := memory[..];
        if data[i] != 0xFF {
          ok := ProgramByte(address + i, data[i]);
          if !ok {
            return;
          }
        }
        WriteNext(before, address - BASE, data, i, now, memory[..]);
      }
      ok := true;
      assert data[..|data|] == data;
    }
  }

  /** `after` is `before` with the bytes of `data` programmed from offset `at`. */
  ghost predicate WrittenOver(before: seq<bv8>, at: nat, data: seq<bv8>, after: seq<bv8>) {
    && |after| == |before| && at + |data| <= |before|
    && forall k :: 0 <= k < |before| ==>
         after[k] == if at <= k < at + |data| then Programmed(before[k], data[k - at]) else before[k]
  }

  lemma WriteNext(before: seq<bv8>, at: nat, data: seq<bv8>, i: nat, now: seq<bv8>, next: seq<bv8>)
    requires i < |data| && at + |data| <= |before|
    requires WrittenOver(before, at, data[..i], now)
    requires next == if data[i] != 0xFF then now[at + i := now[at + i] & data[i]] else now
    ensures WrittenOver(before, at, data[..i + 1], next)
  {
    assert Programmed(now[at + i], data[i]) == now[at + i] & data[i];
    hide Programmed;
    ProgramBlank(before[at + i]);
  }
}
