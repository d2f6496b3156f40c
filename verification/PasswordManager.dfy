/**
 The password manager: a table of entries in memory, a key made from the master password,
 and the commands that commit the table to the flash and load it again.
 */
module PasswordManager {
  import opened Fips197
  import opened CbcMode
  import opened Rfc1321
  import opened Md5Code
  import opened AesCbc
  import opened Flash
  import opened PasswordTable

  const CAPACITY := 32656
  const IDENT: seq<bv8> := [0x50, 0x57, 0x4D, 0x00]

  /** The documented demand on a slot's address: thirty-two KiB in one sector. */
  ghost predicate GoodAddress(a: nat) {
    BASE <= a && a + 0x8000 <= BASE + SIZE && exists n: nat :: InSector(a, n) && a + 0x8000 <= SectorStart(n + 1)
  }

  /** Such an address is never in the part of sector eleven that the driver misses. */
  lemma SectorOfSlot(a: nat, n: nat)
    requires InSector(a, n) && a + 0x8000 <= SectorStart(n + 1)
    ensures GetSectorNumber(a) == n && a + 0x8000 <= BASE + SIZE && BASE <= a
  {
    SectorNumberExact(a, n);
    SectorsOrdered(n + 1, 12);
    SectorsOrdered(0, n);
  }

  // -------------------------------------------------------------- the layout on the flash

  function ShortOf(low: bv8, high: bv8): int {
    var v := (low as int) + 256 * (high as int);
    if v < 0x8000 then v else v - 0x1_0000
  }

  lemma NextByte(b: bv8)
    requires b as int < 255
    ensures (b + 1) as int == b as int + 1
  {
    assert b < 255;
  }

  lemma ByteOfInt(b: bv8)
    ensures (b as int) as bv8 == b
  {
  }

  lemma {:induction false} ByteWith(m: nat) returns (b: bv8)
    requires m < 256
    ensures b as int == m
  {
    if m == 0 {
      b := 0;
    } else {
      b := ByteWith(m - 1);
      NextByte(b);
      b := b + 1;
    }
  }

  /** A number below 256 survives being stored in a byte. */
  lemma ByteValue(m: nat)
    requires m < 256
    ensures (m as bv8) as int == m
  {
    var b := ByteWith(m);
    ByteOfInt(b);
  }

  lemma ShortBytes(n: nat)
    requires n <= MAXSTORED
    ensures ShortOf(Byte(n), Byte(n / 256)) == n
  {
    ByteValue(n % 256);
    ByteValue(n / 256);
    ShortParts(n, Byte(n), Byte(n / 256));
  }

  lemma ShortParts(n: nat, low: bv8, high: bv8)
    requires n <= MAXSTORED && low as int == n % 256 && high as int == n / 256
    ensures ShortOf(low, high) == n
  {
  }

  /** The marker at an offset of the flash, and the count of entries after it. */
  predicate Marked(memory: seq<bv8>, at: nat)
    requires at + 0x8000 <= |memory|
  {
    memory[at..at + 4] == IDENT
  }

  function CountAt(memory: seq<bv8>, at: nat): int
    requires at + 0x8000 <= |memory|
  {
    ShortOf(memory[at + 4], memory[at + 5])
  }

  /** What the loading code does not check: behind the marker is a count that the table has room for. */
  predicate Loadable(memory: seq<bv8>, at: nat)
    requires at + 0x8000 <= |memory|
  {
    Marked(memory, at) ==> 0 <= CountAt(memory, at) <= MAXSTORED
  }

  /** The marker, the count n and the first bytes of `enc` are at an offset of the flash. */
  predicate Stored(memory: seq<bv8>, at: nat, n: nat, enc: seq<bv8>)
    requires at + 0x8000 <= |memory| && n <= MAXSTORED && |enc| == CAPACITY
  {
    && Marked(memory, at)
    && CountAt(memory, at) == n
    && memory[at + 6..at + 6 + 64 * n + 16] == enc[..64 * n + 16]
  }

  /** The bytes of a slot: "PWM" and a zero, the count, low-order byte first, and the ciphertext of so many entries and a digest. */
  lemma StoredBytes(memory: seq<bv8>, at: nat, n: nat, enc: seq<bv8>)
    requires at + 0x8000 <= |memory| && n <= MAXSTORED && |enc| == CAPACITY
    ensures Stored(memory, at, n, enc) <==>
      && memory[at] == 0x50 && memory[at + 1] == 0x57 && memory[at + 2] == 0x4D && memory[at + 3] == 0
      && memory[at + 4] as int + 256 * (memory[at + 5] as int) == n
      && forall k :: 0 <= k < 64 * n + 16 ==> memory[at + 6 + k] == enc[k]
  {
    var s, e := memory[at + 6..at + 6 + 64 * n + 16], enc[..64 * n + 16];
    assert |s| == |e| && forall k :: 0 <= k < |s| ==> s[k] == memory[at + 6 + k] && e[k] == enc[k];
    assert memory[at..at + 4] == [memory[at], memory[at + 1], memory[at + 2], memory[at + 3]];
  }

  // -------------------------------------------------------------- the manager

  predicate Apart(bytes: array<bv8>, entries: array<WPTuple>) {
    bytes as object != entries as object
  }

  class PasswordManager {
    var changed: bool
    var firstUse: bool
    var numOfPass: nat
    const address: nat
    const key: array<bv8>
    const checksum: array<bv8>
    const encryptedData: array<bv8>
    const passwords: array<WPTuple>
    const cbc: CbcCode
    const flash: FlashDriver

    ghost predicate Valid()
      reads this
    {
      && numOfPass <= MAXSTORED && GoodAddress(address)
      && key.Length == 32 && checksum.Length == 16 && encryptedData.Length == CAPACITY
      && passwords.Length == MAXSTORED && cbc.aes.roundKey.Length == 176 && flash.memory.Length == SIZE
      && key !in {checksum, encryptedData, cbc.aes.roundKey, flash.memory}
      && checksum !in {encryptedData, cbc.aes.roundKey, flash.memory}
      && encryptedData !in {cbc.aes.roundKey, flash.memory}
      && cbc.aes.roundKey != flash.memory
      && Apart(key, passwords) && Apart(checksum, passwords) && Apart(encryptedData, passwords)
      && Apart(cbc.aes.roundKey, passwords) && Apart(flash.memory, passwords)
    }

    ghost function Table(): seq<WPTuple>
      requires Valid()
      reads this, passwords
    {
      passwords[..numOfPass]
    }

    constructor (address: nat, flash: FlashDriver, cbc: CbcCode)
      requires GoodAddress(address) && flash.memory.Length == SIZE && cbc.aes.roundKey.Length == 176
      requires cbc.aes.roundKey != flash.memory
      ensures Valid() && Table() == [] && !changed && !firstUse
      ensures this.address == address && this.flash == flash && this.cbc == cbc
      ensures fresh(key) && fresh(checksum) && fresh(encryptedData) && fresh(passwords)
    {
      this.address, this.flash, this.cbc := address, flash, cbc;
      changed, firstUse, numOfPass := false, false, 0;
      key := new bv8[32](_ => 0);
      checksum := new bv8[16](_ => 0);
      encryptedData := new bv8[CAPACITY](_ => 0);
      passwords := new WPTuple[MAXSTORED](_ => EMPTY);
    }

    // ------------------------------------------------------------ flat form

    /** The entries one after another, byte by byte. */
    method StructToArray() returns (output: array<bv8>)
      requires Valid()
      ensures fresh(output) && output[..] == Flat(Table())
    {
      output := new bv8[64 * numOfPass](_ => 0);
      var z := 0;
      for i := 0 to numOfPass
        invariant z == 64 * i && output[..z] == Flat(passwords[..i])
      {
        CopyBytes(output, z, passwords[i].website);
        CopyBytes(output, z + 32, passwords[i].password);
        assert passwords[..i + 1][..i] == passwords[..i];
        z := z + 64;
      }
    }

    /** Takes the first numOfPass entries from their flat form. */
    method ArrayToStruct(input: array<bv8>)
      requires Valid() && input.Length == 64 * numOfPass && Apart(input, passwords)
      modifies passwords
      ensures forall i :: 0 <= i < numOfPass ==> passwords[i] == EntryAt(input[..], i)
      ensures forall i :: numOfPass <= i < MAXSTORED ==> passwords[i] == old(passwords[i])
    {
      var z := 0;
      for i := 0 to numOfPass
        invariant z == 64 * i
        invariant forall k :: 0 <= k < i ==> passwords[k] == EntryAt(input[..], k)
        invariant forall k :: i <= k < MAXSTORED ==> passwords[k] == old(passwords[k])
      {
        TakeWebsite(i, input, z);
        TakePassword(i, input, z + 32);
        z := z + 64;
      }
    }

    method TakeWebsite(i: nat, input: array<bv8>, z: nat)
      requires i < passwords.Length && z + 32 <= input.Length && Apart(input, passwords)
      modifies passwords
      ensures passwords[i] == old(passwords[i]).(website := input[z..z + 32])
      ensures forall k :: 0 <= k < passwords.Length && k != i ==> passwords[k] == old(passwords[k])
    {
      for j := 0 to 32
        invariant passwords[i].password == old(passwords[i].password)
        invariant forall k :: 0 <= k < j ==> passwords[i].website[k] == input[z + k]
        invariant forall k :: 0 <= k < passwords.Length && k != i ==> passwords[k] == old(passwords[k])
      {
        passwords[i] := passwords[i].(website := passwords[i].website[j := input[z + j]]);
      }
      assert passwords[i].website == input[z..z + 32];
    }

    method TakePassword(i: nat, input: array<bv8>, z: nat)
      requires i < passwords.Length && z + 32 <= input.Length && Apart(input, passwords)
      modifies passwords
      ensures passwords[i] == old(passwords[i]).(password := input[z..z + 32])
      ensures forall k :: 0 <= k < passwords.Length && k != i ==> passwords[k] == old(passwords[k])
    {
      for j := 0 to 32
        invariant passwords[i].website == old(passwords[i].website)
        invariant forall k :: 0 <= k < j ==> passwords[i].password[k] == input[z + k]
        invariant forall k :: 0 <= k < passwords.Length && k != i ==> passwords[k] == old(passwords[k])
      {
        passwords[i] := passwords[i].(password := passwords[i].password[j := input[z + j]]);
      }
      assert passwords[i].password == input[z..z + 32];
    }

    // ------------------------------------------------------------ encryption

    method CreateKey(password: seq<bv8>)
      requires Valid() && Fits(password)
      modifies key
      ensures key[..] == KeyOf(password)
      ensures exists b: Field :: TextThenOnes(b, password) && key[..16] == Md5(b) == key[16..]
    {
      hide Md5;
      var filled := AddCharacters(password);
      var hashed := new bv8[16](_ => 0);
      OneShot(filled[..], hashed, 0);
      CopyBytes(key, 0, hashed[..]);
      CopyBytes(key, 16, hashed[..]);
      FilledIs(password);
      assert key[..16] == Md5(filled[..]) == key[16..];
    }

    /** The digest of the whole key. */
    method MakeVector() returns (iv: array<bv8>)
      requires Valid()
      ensures fresh(iv) && iv.Length == 16 && iv[..] == Vector(key[..]) == Md5(key[..])
    {
      hide Md5;
      iv := new bv8[16](_ => 0);
      OneShot(key[..], iv, 0);
    }

    /** The table in its flat form, with its digest after it. */
    method Assemble() returns (toEncrypt: array<bv8>)
      requires Valid()
      modifies checksum
      ensures fresh(toEncrypt) && toEncrypt[..] == Plain(Table())
    {
      hide Md5, Flat;
      ghost var flat := Flat(Table());
      var inputEn := StructToArray();
      OneShot(inputEn[..], checksum, 0);
      assert checksum[..] == Md5(flat);
      toEncrypt := new bv8[inputEn.Length + 16](_ => 0);
      CopyBytes(toEncrypt, 0, inputEn[..]);
      assert toEncrypt[..inputEn.Length] == flat;
      CopyBytes(toEncrypt, inputEn.Length, checksum[..]);
      assert Table() == old(Table());
    }

    /** Enciphers the table into encryptedData. */
    method Encrypt()
      requires Valid()
      modifies cbc, cbc.aes.roundKey, checksum, encryptedData
      ensures Valid() && Sealed(encryptedData[..], Table(), key[..])
    {
      hide Md5, Plain, Flat, Vector, CipherBlock, ExpandedKey, Encrypted, Fips197.Cipher, ZeroPadded, Sealed, WithBlock, CbcCode.StartIv;
      hide BlockOf, Room, Blocks;
      WholeRoom(numOfPass);
      var toEncrypt := Assemble();
      var iv := MakeVector();
      ghost var p, start := toEncrypt[..], iv[..16];
      assert start == iv[..];
      GivenVector(cbc, iv, encryptedData, WithBlock(encryptedData[..], 0, BlockOf(p, 0)));
      cbc.EncryptBuffer(encryptedData, toEncrypt, 64 * numOfPass + 16, key, iv);
      SealedBlocks(encryptedData[..], Table(), key[..], p, start, cbc.aes.roundKey[..]);
    }

    /** Deciphers `input`; if the digest in it fits, takes the table from it. */
    method Decrypt(input: array<bv8>) returns (ok: bool)
      requires Valid() && 64 * numOfPass + 16 <= input.Length && input !in {cbc.aes.roundKey, checksum, key} && Apart(input, passwords)
      modifies cbc, cbc.aes.roundKey, checksum, passwords
      ensures Valid() && numOfPass == old(numOfPass) && key[..] == old(key[..])
      ensures var p := Opened(input[..], numOfPass, key[..]);
              && ok == (Md5(p[..64 * numOfPass]) == p[64 * numOfPass..])
              && (ok ==> forall i :: 0 <= i < numOfPass ==> passwords[i] == EntryAt(p, i))
      ensures forall i :: 0 <= i < MAXSTORED && (!ok || numOfPass <= i) ==> passwords[i] == old(passwords[i])
    {
      hide Md5, Opened;
      ghost var enc, k := input[..], key[..];
      var outputEn := Decipher(input);
      assert input[..] == enc && key[..] == k;
      var toTransform := new bv8[64 * numOfPass](_ => 0);
      CopyBytes(toTransform, 0, outputEn[..64 * numOfPass]);
      CopyBytes(checksum, 0, outputEn[64 * numOfPass..]);
      ghost var p := Opened(enc, numOfPass, k);
      assert toTransform[..] == p[..64 * numOfPass] && checksum[..] == p[64 * numOfPass..];
      ok := DigestIs(toTransform[..]);
      if ok {
        ArrayToStruct(toTransform);
        EntriesOfPrefix(p, numOfPass);
      }
      assert input[..] == enc && key[..] == k;
    }

    /** Compares the digest of a byte string with the checksum. */
    method DigestIs(s: seq<bv8>) returns (same: bool)
      requires checksum.Length == 16 && |s| < WORD
      ensures same == (Md5(s) == checksum[..])
    {
      hide Md5;
      var toCheck := new bv8[16](_ => 0);
      OneShot(s, toCheck, 0);
      assert toCheck[..] == Md5(s);
      for i := 0 to 16
        invariant toCheck[..] == Md5(s) && toCheck[..i] == checksum[..i]
      {
        if toCheck[i] != checksum[i] {
          assert toCheck[..][i] != checksum[..][i];
          return false;
        }
      }
      assert toCheck[..] == checksum[..];
      same := true;
    }

    method Decipher(input: array<bv8>) returns (outputEn: array<bv8>)
      requires Valid() && 64 * numOfPass + 16 <= input.Length && input !in {cbc.aes.roundKey, key}
      modifies cbc, cbc.aes.roundKey
      ensures fresh(outputEn) && outputEn[..] == Opened(input[..], numOfPass, key[..])
    {
      hide Md5, Vector, PlainBlock, ExpandedKey, Fips197.InvCipher, ZeroPadded, OpenedByte, WithBlock, CbcCode.StartIv, BlockOf, Room, Blocks;
      WholeRoom(numOfPass);
      outputEn := new bv8[64 * numOfPass + 16](_ => 0);
      var iv := MakeVector();
      GivenVector(cbc, iv, outputEn, WithBlock(outputEn[..], 0, Fips197.InvCipher(BlockOf(input[..], 0), ExpandedKey(key[..16]))));
      cbc.DecryptBuffer(outputEn, input, 64 * numOfPass + 16, key, iv);
      assert iv[..16] == iv[..];
      OpenedBlocks(input[..], numOfPass, key[..], outputEn[..]);
    }

    // ------------------------------------------------------------ the flash

    /** Marker, count and ciphertext are in the slot. */
    ghost predicate InFlash()
      requires Valid()
      reads this, flash.memory, encryptedData
    {
      Stored(flash.memory[..], address - BASE, numOfPass, encryptedData[..])
    }

    /** Erases the slot's sector and programs marker, count and ciphertext into it. */
    method StoreData() returns (success: bool)
      requires Valid()
      modifies flash.memory
      ensures Valid()
      ensures flash.reliable ==> success
      ensures success ==> InFlash()
      ensures SameOutside(old(flash.memory[..]), flash.memory[..], GetSectorNumber(address))
    {
      ghost var n: nat :| InSector(address, n) && address + 0x8000 <= SectorStart(n + 1);
      SectorOfSlot(address, n);
      success := flash.Erase(GetSectorNumber(address));
      var written := ProgramSlot(n, success);
      success := success && written;
    }

    /** The three writes into the slot's sector. */
    method ProgramSlot(ghost n: nat, ghost erased: bool) returns (success: bool)
      requires Valid() && InSector(address, n) && address + 0x8000 <= SectorStart(n + 1)
      requires erased ==> forall k :: 0 <= k < SIZE && InSector(BASE + k, n) ==> flash.memory[k] == 0xFF
      modifies flash.memory
      ensures Valid() && (flash.reliable ==> success)
      ensures erased && success ==> InFlash()
      ensures SameOutside(old(flash.memory[..]), flash.memory[..], n)
    {
      hide Stored, WrittenOver, SameOutside, Byte;
      ghost var m1 := flash.memory[..];
      success := WriteInSlot(0, IDENT, n);
      ghost var m2 := flash.memory[..];
      var written := WriteInSlot(4, [Byte(numOfPass), Byte(numOfPass / 256)], n);
      success := success && written;
      ghost var m3 := flash.memory[..];
      SameOutsideTwice(m1, m2, m3, n);
      written := WriteInSlot(6, encryptedData[..64 * numOfPass + 16], n);
      success := success && written;
      SameOutsideTwice(m1, m3, flash.memory[..], n);
      if erased && success {
        WrittenIsStored(m1, m2, m3, flash.memory[..], address - BASE, numOfPass, encryptedData[..]);
      }
    }

    method WriteInSlot(at: nat, data: seq<bv8>, ghost n: nat) returns (ok: bool)
      requires flash.memory.Length == SIZE && InSector(address, n) && address + 0x8000 <= SectorStart(n + 1) && at + |data| <= 0x8000
      modifies flash.memory
      ensures flash.reliable ==> ok
      ensures ok ==> BASE <= address && WrittenOver(old(flash.memory[..]), address - BASE + at, data, flash.memory[..])
      ensures SameOutside(old(flash.memory[..]), flash.memory[..], n)
    {
      hide Programmed;
      SectorOfSlot(address, n);
      ghost var before := flash.memory[..];
      ok := flash.Write(address + at, data);
      ghost var written: nat :| written <= |data| && (ok ==> written == |data|)
        && WrittenOver(before, address + at - BASE, data[..written], flash.memory[..]);
      assert data[..|data|] == data;
    }

    method LoadCiphertext(at: nat)
      requires at + 0x8000 <= flash.memory.Length && encryptedData.Length == CAPACITY && numOfPass <= MAXSTORED
      requires encryptedData != flash.memory
      requires Marked(flash.memory[..], at) && CountAt(flash.memory[..], at) == numOfPass
      modifies encryptedData
      ensures Stored(flash.memory[..], at, numOfPass, encryptedData[..])
    {
      hide ShortOf, Stored, Marked, CountAt;
      var m := 64 * numOfPass + 16;
      CopyBytes(encryptedData, 0, flash.memory[at + 6..at + 6 + m]);
      assert encryptedData[..m] == flash.memory[..][at + 6..at + 6 + m];
      LoadedIsStored(flash.memory[..], at, numOfPass, encryptedData[..]);
    }

    /**
     Loads count and ciphertext if the marker is there. The count is taken as it is: one that the table has no room for would
     make the copy leave the buffer, and that is where this stops.
     */
    method LoadData() returns (overrun: bool)
      requires Valid()
      modifies this`firstUse, this`numOfPass, encryptedData
      ensures Valid() && overrun == !Loadable(flash.memory[..], address - BASE)
      ensures firstUse == !Marked(flash.memory[..], address - BASE)
      ensures firstUse ==> numOfPass == 0
      ensures firstUse || overrun ==> encryptedData[..] == old(encryptedData[..])
      ensures !firstUse && !overrun ==> Stored(flash.memory[..], address - BASE, numOfPass, encryptedData[..])
    {
      ghost var n: nat :| InSector(address, n) && address + 0x8000 <= SectorStart(n + 1);
      SectorOfSlot(address, n);
      hide ShortOf, InSector, Stored, SectorStart;
      var at := address - BASE;
      assert flash.memory[..][at..at + 4] == flash.memory[at..at + 4];
      assert CountAt(flash.memory[..], at) == ShortOf(flash.memory[at + 4], flash.memory[at + 5]);
      assert Marked(flash.memory[..], at) == (flash.memory[at..at + 4] == IDENT);
      hide Marked, CountAt;
      overrun := false;
      if flash.memory[at..at + 4] == IDENT {
        firstUse := false;
        var count := ShortOf(flash.memory[at + 4], flash.memory[at + 5]);
        if count < 0 || count > MAXSTORED {
          return true;
        }
        numOfPass := count;
        LoadCiphertext(at);
      } else {
        firstUse := true;
        numOfPass := 0;
      }
    }

    // ------------------------------------------------------------ the commands

    ghost predicate Terminated()
      requires Valid()
      reads this, passwords
    {
      AllTerminated(Table())
    }

    /** The table as the user sees it. */
    ghost function Contents(): seq<(seq<bv8>, seq<bv8>)>
      requires Valid() && Terminated()
      reads this, passwords
    {
      ContentsOf(Table())
    }

    method AddPassword(website: seq<bv8>, password: seq<bv8>) returns (ok: bool)
      requires Valid() && Terminated() && Fits(website) && Fits(password)
      modifies this`numOfPass, this`changed, passwords
      ensures Valid() && Terminated() && ok == (old(numOfPass) < MAXSTORED)
      ensures Contents() == if ok then old(Contents()) + [(Text(website), Text(password))] else old(Contents())
      ensures changed == (ok || old(changed))
    {
      if numOfPass == MAXSTORED {
        return false;
      }
      var web := AddCharacters(website);
      var pass := AddCharacters(password);
      var e := passwords[numOfPass];
      FilledText(website);
      FilledText(password);
      CopiedText(e.website, web[..]);
      CopiedText(e.password, pass[..]);
      passwords[numOfPass] := WPTuple(StrCopied(e.website, web[..]), StrCopied(e.password, pass[..]));
      numOfPass := numOfPass + 1;
      changed := true;
      ok := true;
      ContentsAppend(old(Table()), passwords[numOfPass - 1]);
      assert Table() == old(Table()) + [passwords[numOfPass - 1]];
    }

    /** The last entry for a website, or -1. */
    method GetPosition(input: seq<bv8>) returns (position: int)
      requires Valid() && Terminated() && Fits(input)
      ensures -1 <= position < numOfPass
      ensures position >= 0 ==> Contents()[position].0 == Text(input)
      ensures forall i :: position < i < numOfPass ==> Contents()[i].0 != Text(input)
    {
      var toSearch := AddCharacters(input);
      FilledText(input);
      position := -1;
      for i := 0 to numOfPass
        invariant -1 <= position < i
        invariant position >= 0 ==> Contents()[position].0 == Text(input)
        invariant forall k :: position < k < i ==> Contents()[k].0 != Text(input)
      {
        if Text(passwords[i].website) == Text(toSearch[..]) {
          position := i;
        }
      }
    }

    /** Removes the last entry for a website: the last entry of the table takes its place. */
    method Remove(website: seq<bv8>) returns (ok: bool, ghost position: nat)
      requires Valid() && Terminated() && Fits(website)
      modifies this`numOfPass, this`changed, passwords
      ensures Valid() && Terminated()
      ensures ok == exists i :: 0 <= i < |old(Contents())| && old(Contents())[i].0 == Text(website)
      ensures ok ==> position < |old(Contents())| && old(Contents())[position].0 == Text(website)
      ensures ok ==> forall i :: position < i < |old(Contents())| ==> old(Contents())[i].0 != Text(website)
      ensures Contents() == if ok then SwapRemoved(old(Contents()), position) else old(Contents())
      ensures changed == (ok || old(changed))
    {
      hide ContentsOf, Text, StrLen;
      var toRemove := GetPosition(website);
      if toRemove == -1 {
        return false, 0;
      }
      position := toRemove;
      assert Contents()[position].0 == Text(website);
      ContentsSwapRemoved(Table(), position);
      ok := true;
      changed := true;
      if numOfPass == 1 {
        numOfPass := 0;
        assert Table() == SwapRemoved(old(Table()), position);
        return;
      }
      passwords[toRemove] := passwords[numOfPass - 1];
      numOfPass := numOfPass - 1;
      assert Table() == SwapRemoved(old(Table()), position);
    }
  }

  /** Nothing changed but in one sector. */
  ghost predicate SameOutside(before: seq<bv8>, after: seq<bv8>, sector: int)
    requires |before| == |after| == SIZE
  {
    forall k :: 0 <= k < SIZE && !(0 <= sector && InSector(BASE + k, sector)) ==> after[k] == before[k]
  }

  lemma SameOutsideTwice(before: seq<bv8>, mid: seq<bv8>, after: seq<bv8>, sector: int)
    requires |before| == |mid| == |after| == SIZE && SameOutside(before, mid, sector) && SameOutside(mid, after, sector)
    ensures SameOutside(before, after, sector)
  {
  }

  /** Programming the three pieces over erased flash stores them. */
  lemma WrittenIsStored(m1: seq<bv8>, m2: seq<bv8>, m3: seq<bv8>, m4: seq<bv8>, at: nat, n: nat, enc: seq<bv8>)
    requires at + 0x8000 <= |m1| && n <= MAXSTORED && |enc| == CAPACITY
    requires forall k :: at <= k < at + 0x8000 ==> m1[k] == 0xFF
    requires WrittenOver(m1, at, IDENT, m2)
    requires WrittenOver(m2, at + 4, [Byte(n), Byte(n / 256)], m3)
    requires WrittenOver(m3, at + 6, enc[..64 * n + 16], m4)
    ensures |m4| == |m1| && Stored(m4, at, n, enc)
  {
    hide Programmed, Byte;
    WrittenOnErased(m1, at, IDENT, m2);
    WrittenOnErased(m2, at + 4, [Byte(n), Byte(n / 256)], m3);
    WrittenOnErased(m3, at + 6, enc[..64 * n + 16], m4);
    assert m4[at..at + 4] == m2[at..at + 4];
    assert m4[at + 4..at + 6] == m3[at + 4..at + 6];
    ShortBytes(n);
  }

  lemma WrittenOnErased(before: seq<bv8>, at: nat, data: seq<bv8>, after: seq<bv8>)
    requires WrittenOver(before, at, data, after)
    requires forall k :: at <= k < at + |data| ==> before[k] == 0xFF
    ensures after[at..at + |data|] == data
  {
    hide Programmed;
    forall k | 0 <= k < |data|
      ensures after[at + k] == data[k]
    {
      ProgramErased(data[k]);
    }
  }

  lemma FilledText(s: seq<bv8>)
    requires Fits(s)
    ensures Fits(Filled(s)) && Text(Filled(s)) == Text(s)
  {
    SameText(s, Filled(s));
    var n := StrLen(s);
    assert Filled(s)[..n] == s[..n];
    assert forall i :: 0 <= i <= n ==> Filled(s)[i] == s[i];
    LengthUnique(Filled(s), n, StrLen(Filled(s)));
  }

  lemma CopiedText(field: Field, s: seq<bv8>)
    requires Fits(s)
    ensures 0 in StrCopied(field, s) && Text(StrCopied(field, s)) == Text(s)
  {
    SameText(s, StrCopied(field, s));
  }

  lemma EntriesOfPrefix(p: seq<bv8>, n: nat)
    requires 64 * n <= |p|
    ensures forall i :: 0 <= i < n ==> EntryAt(p[..64 * n], i) == EntryAt(p, i)
  {
  }

  lemma SealedBlocks(enc: seq<bv8>, table: seq<WPTuple>, key: seq<bv8>, p: seq<bv8>, iv: Block, w: Schedule)
    requires |key| == 32 && p == Plain(table) && iv == Vector(key) && w == KeySchedule(key)
    requires 64 * |table| + 16 <= |enc|
    requires forall j :: 0 <= j < 4 * |table| + 1 ==> BlockOf(enc, j) == CipherBlock(p, iv, w, j)
    ensures Sealed(enc, table, key)
  {
    hide Plain, Vector, KeySchedule, CipherBlock;
  }

  lemma OpenedBlocks(enc: seq<bv8>, n: nat, key: seq<bv8>, p: seq<bv8>)
    requires |key| == 32 && 64 * n + 16 <= |enc| && |p| == 64 * n + 16
    requires forall j :: 0 <= j < 4 * n + 1 ==> BlockOf(p, j) == PlainBlock(enc, Vector(key), KeySchedule(key), j)
    ensures p == Opened(enc, n, key)
  {
    hide Vector, KeySchedule, PlainBlock;
    forall k | 0 <= k < |p|
      ensures p[k] == Opened(enc, n, key)[k]
    {
      hide OpenedByte, BlockOf;
      InRoom(n, k);
      assert BlockOf(p, k / 16) == PlainBlock(enc, Vector(key), KeySchedule(key), k / 16);
      OpenedByteIs(enc, key, p, k);
    }
  }

  /** A string with its terminator in a field of all ones. */
  method AddCharacters(input: seq<bv8>) returns (output: array<bv8>)
    requires Fits(input)
    ensures fresh(output) && output[..] == Filled(input)
  {
    output := new bv8[PASSWORDLENGTH](_ => 0);
    var size := StrLen(input);
    for i := 0 to size + 1
      invariant output[..i] == input[..i]
    {
      output[i] := input[i];
    }
    for i := size + 1 to PASSWORDLENGTH
      invariant output[..i] == input[..size + 1] + seq(i - size - 1, _ => 0xFF)
    {
      output[i] := 0xFF;
    }
  }

  // -------------------------------------------------------------- from one session to the next

  /** Committing: the key is made from the master password, the table enciphered and stored. */
  method Commit(first: PasswordManager, password: seq<bv8>) returns (committed: bool)
    requires first.Valid() && Fits(password)
    modifies first.key, first.checksum, first.encryptedData, first.cbc, first.cbc.aes.roundKey, first.flash.memory
    ensures first.Valid() && first.Table() == old(first.Table())
    ensures Sealed(first.encryptedData[..], first.Table(), KeyOf(password))
    ensures first.flash.reliable ==> committed
    ensures committed ==> first.InFlash()
    ensures SameOutside(old(first.flash.memory[..]), first.flash.memory[..], GetSectorNumber(first.address))
  {
    hide KeyOf, Sealed, Stored;
    first.CreateKey(password);
    first.Encrypt();
    committed := first.StoreData();
  }

  /** Starting: the slot is loaded, the key made from the master password, the table deciphered. */
  method Start(second: PasswordManager, password: seq<bv8>, ghost table: seq<WPTuple>, ghost enc: seq<bv8>) returns (unlocked: bool)
    requires second.Valid() && Fits(password) && |table| <= MAXSTORED && |enc| == CAPACITY
    requires Stored(second.flash.memory[..], second.address - BASE, |table|, enc)
    requires Sealed(enc, table, KeyOf(password))
    modifies second, second.key, second.checksum, second.encryptedData, second.passwords, second.cbc, second.cbc.aes.roundKey
    ensures second.Valid() && unlocked && !second.firstUse && second.Table() == table
  {
    hide KeyOf, Sealed, Opened, Stored, Plain, Flat, EntryAt, Marked, Loadable, Md5;
    StoredIsLoadable(second.flash.memory[..], second.address - BASE, |table|, enc);
    var overrun := second.LoadData();
    StoredTwice(second.flash.memory[..], second.address - BASE, |table|, enc, second.numOfPass, second.encryptedData[..]);
    SealedPrefix(enc, second.encryptedData[..], table, KeyOf(password));
    second.CreateKey(password);
    OpenSealed(second.encryptedData[..], table, KeyOf(password));
    unlocked := second.Decrypt(second.encryptedData);
    PlainParts(table);
    OpenedTable(second, table);
  }

  lemma OpenedTable(manager: PasswordManager, table: seq<WPTuple>)
    requires manager.Valid() && manager.numOfPass == |table|
    requires forall i :: 0 <= i < |table| ==> manager.passwords[i] == EntryAt(Plain(table), i)
    ensures manager.Table() == table
  {
    hide Plain, EntryAt;
    PlainParts(table);
  }

  /**
   The table is committed under a master password; a manager created afterwards for the same
   address loads the slot, is given the same password, and has exactly the same entries.
   */
  method CommitAndReload(first: PasswordManager, password: seq<bv8>, cbc: CbcCode)
    returns (committed: bool, second: PasswordManager, unlocked: bool)
    requires first.Valid() && Fits(password)
    requires cbc.aes.roundKey.Length == 176 && cbc.aes.roundKey != first.flash.memory
    modifies first.key, first.checksum, first.encryptedData, first.cbc, first.cbc.aes.roundKey, first.flash.memory
    modifies cbc, cbc.aes.roundKey
    ensures second.Valid() && fresh(second)
    ensures first.flash.reliable ==> committed
    ensures committed ==> unlocked && !second.firstUse && second.Table() == old(first.Table())
    ensures SameOutside(old(first.flash.memory[..]), first.flash.memory[..], GetSectorNumber(first.address))
  {
    hide KeyOf, Sealed, Stored;
    committed := Commit(first, password);
    second := new PasswordManager(first.address, first.flash, cbc);
    unlocked := false;
    if committed {
      unlocked := Start(second, password, first.Table(), first.encryptedData[..]);
    }
  }

  // -------------------------------------------------------------- slots

  /** The four slots of the multi-user program. */
  function SlotAddress(slot: nat): nat
    requires 1 <= slot <= 4
  {
    match slot
    case 1 => 0x080F_8000
    case 2 => 0x080C_0000
    case 3 => 0x080A_0000
    case _ => 0x0809_8000
  }

  predicate InSectorOf(a: nat, slot: nat)
    requires 1 <= slot <= 4
  {
    InSector(a, 12 - slot)
  }

  lemma SlotsApart(slot: nat, other: nat)
    requires 1 <= slot <= 4 && 1 <= other <= 4
    ensures GoodAddress(SlotAddress(slot)) && GetSectorNumber(SlotAddress(slot)) == 12 - slot
    ensures slot != other ==>
      forall a :: SlotAddress(other) <= a < SlotAddress(other) + 0x8000 ==> !InSectorOf(a, slot)
  {
    assert InSector(SlotAddress(slot), 12 - slot) && SlotAddress(slot) + 0x8000 <= SectorStart(12 - slot + 1);
  }

  /** A commit to one slot leaves what is stored in every other slot. */
  lemma OtherSlotsKept(slot: nat, other: nat, before: seq<bv8>, after: seq<bv8>, n: nat, enc: seq<bv8>)
    requires 1 <= slot <= 4 && 1 <= other <= 4 && slot != other
    requires |before| == |after| == SIZE && n <= MAXSTORED && |enc| == CAPACITY
    requires SameOutside(before, after, GetSectorNumber(SlotAddress(slot)))
    ensures SlotAddress(other) - BASE + 0x8000 <= SIZE
    ensures Stored(before, SlotAddress(other) - BASE, n, enc) <==> Stored(after, SlotAddress(other) - BASE, n, enc)
    ensures Loadable(before, SlotAddress(other) - BASE) <==> Loadable(after, SlotAddress(other) - BASE)
  {
    hide ShortOf;
    SlotsApart(slot, other);
    var at := SlotAddress(other) - BASE;
    assert forall k :: at <= k < at + 0x8000 ==> after[k] == before[k] by {
      forall k | at <= k < at + 0x8000
        ensures after[k] == before[k]
      {
        assert !InSectorOf(BASE + k, slot);
      }
    }
    assert after[at..at + 4] == before[at..at + 4];
    assert after[at + 6..at + 6 + 64 * n + 16] == before[at + 6..at + 6 + 64 * n + 16];
  }

  lemma LoadedIsStored(memory: seq<bv8>, at: nat, n: nat, enc: seq<bv8>)
    requires at + 0x8000 <= |memory| && n <= MAXSTORED && |enc| == CAPACITY
    requires Marked(memory, at) && CountAt(memory, at) == n && enc[..64 * n + 16] == memory[at + 6..at + 6 + (64 * n + 16)]
    ensures Stored(memory, at, n, enc)
  {
  }

  lemma StoredIsLoadable(memory: seq<bv8>, at: nat, n: nat, enc: seq<bv8>)
    requires at + 0x8000 <= |memory| && n <= MAXSTORED && |enc| == CAPACITY
    requires Stored(memory, at, n, enc)
    ensures Marked(memory, at) && Loadable(memory, at)
  {
  }

  lemma StoredTwice(memory: seq<bv8>, at: nat, n: nat, enc: seq<bv8>, n': nat, enc': seq<bv8>)
    requires at + 0x8000 <= |memory| && n <= MAXSTORED && n' <= MAXSTORED && |enc| == |enc'| == CAPACITY
    requires Stored(memory, at, n, enc) && Stored(memory, at, n', enc')
    ensures n == n' && enc'[..64 * n + 16] == enc[..64 * n + 16]
  {
  }

  lemma PlainParts(table: seq<WPTuple>)
    ensures Plain(table)[..64 * |table|] == Flat(table)
    ensures Md5(Plain(table)[..64 * |table|]) == Plain(table)[64 * |table|..]
    ensures forall i :: 0 <= i < |table| ==> EntryAt(Plain(table), i) == table[i]
  {
    hide Md5;
    assert Plain(table)[..64 * |table|] == Flat(table);
    forall i | 0 <= i < |table|
      ensures EntryAt(Plain(table), i) == table[i]
    {
      EntryOfFlat(table, i);
      EntriesOfPrefix(Plain(table), |table|);
    }
  }
}
