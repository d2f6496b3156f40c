# Password-manager firmware: a verified model

The repository is the firmware of a hardware password manager on the Miosix kernel. This project models its hard parts in Dafny and
proves what they are for. Code that works in place (on buffers, linked lists, object fields) is modelled as classes and methods over
arrays and fields, each proved against a specification on values; the theorems about whole runs, round trips and equivalences are
lemmas about those specifications.

`dafny verify dfyconfig.toml` checks the whole project.

## What is modelled

- **Storage of the password table** (`Gf256`, `Fips197`, `Fips197Answers`, `Aes`, `CbcMode`, `AesCbc`, `Rfc1321`, `Rfc1321Answers`, `Md5Code`,
  `Flash`, `PasswordTable`, `PasswordManager`). FIPS 197 and RFC 1321 are written down on values, with the known answers that these standards
  give; the code of `aes.c` and `md5.c` is proved to compute them in place; the inverse of AES is proved from the algebra of GF(2^8). On top of this stands the main theorem of the application,
  `PasswordManager.CommitAndReload`: what is encrypted, signed with its MD5 digest and written to the flash in one session is unlocked by the
  same master password in the next one and is the same table, and the sectors of the other slots are as they were. Nothing about
  MD5 is used there but that it is a function. The key is the digest of the password's text in a field of ones
  (`PasswordManager.PasswordManager.CreateKey`), and two passwords fill that field alike exactly when their texts are the same.
- **Mutexes with priority inheritance** (`MutexGraph`, `MutexRuns`, `Sync`). The state is a graph of owners, lists of held mutexes, heaps of
  waiters and priorities. Every run keeps the graph consistent and acyclic, hands a mutex to a waiter of the greatest priority, and
  has exact priorities as long as no thread on a blocking chain exceeds the new waiter. The walk of `PKlock` assigns the waiter's priority
  along the whole chain without comparing (`miosix/kernel/sync.cpp:88`), so exactness is false in general: `MutexRuns.WalkCanLower` is an input for
  which a thread falls below its own priority, `MutexRuns.WalkLowersInRun` the run of four locks that leads there, and
  `MutexRuns.BlockedExactIff` the exact condition. Over every interleaving, waiting on a condition variable returns with the mutex at the depth
  that it had before (`MutexRuns.WaitReturns`), and whatever the walk does in between, a thread that gives its last mutex back has the
  priority that it last set itself (`MutexRuns.OwnPriorityKept`).
- **The event queue** (`EventQueue`): a ring, and waiter lists with tokens; no wakeup is lost over any interleaving.
- **The process table** (`ProcessTable`, `ProcessWaiting`, `ProcessReports`, `ProcessCode`): parents, children, zombies and waiting parents over
  any run. Whoever a wait reports is a child of the caller that has ended with the code reported, and was the first of them to do so
  (`ProcessReports.ReportedHasEnded`). A process that sleeps in `waitpid(-1)` is always woken in time (`ProcessWaiting.NeverMissed`). A thread of the kernel is not: the end of a
  process that somebody waits for in particular wakes nobody else (`miosix/kernel/process.cpp:257-260`), though it can give the kernel
  zombies or take its last child, and neither does a creation that fails (`ProcessWaiting.MissedIff`). A process is created in two parts with the table's mutex free in between; a kernel thread that waits for it there, before its own thread turns out not to be
  possible, is forgotten (`ProcessTable.WaiterForgotten`; `ProcessTable.AwaitedStays` says that nothing else is).
- **Path resolution** (`PathSpec`, `PathResolution`): the in-place editing of a path refines a walk over components with a stack.
  What the walk comes to, whatever the links and mounts, is given by its first component that it cannot just pass (`PathSpec.WalkIsExact`).
  For a path that ends in ".." the filesystem found can be one above the longest mounted prefix
  (`PathSpec.UpFromMountToMount`; the exact condition on the components of the path is `PathSpec.ChosenIsLongestIff`).
- **Unicode** (`Unicode`, `UnicodeOrder`, `UnicodeCode`): the decoder accepts the table of section 4 of RFC 3629, the encodings keep the order of
  the code points, conversions write all that fits, and the two directions undo each other.
- **The terminal** (`Terminal`, `TerminalScreen`): line editing in the reader's buffer is a left fold over the bytes received, echo included.
  What is kept is what the keys behind the bytes leave, and what the echo makes a terminal show is the line that is kept.
- **The process pool** (`PoolMap`, `Pool`): a bitmap allocator of aligned blocks.
- **ADPCM** (`Adpcm`): encoder and decoder adapt in step, with a bound on the error that is attained.
- **The sleeping list** (`SleepingList`): every sleeper is woken at its tick and not before.

## What the code does otherwise than one expects

The model follows the code, also where its comments say something else.

- Symbolic links: `maxLinkToFollow` is 2 and is compared after the increment, so that one link is followed and the second gives ELOOP.
  The results of `lstat` are tested as `int res=fs->lstat(...)<0`, which is 1 and never an error, so that a failing `lstat` makes a
  component that is not a link.
- `getSectorNumber` bounds sector 11 by 128000 bytes instead of 131072; the addresses for which it gives the right sector are exactly those
  below this bound (`Flash.SectorNumberExact`).
- `Mutex::PKlock` walks the owners of the mutexes that owners wait for. The walk ends exactly when the new waiter is not on that chain
  (`MutexRuns.WalkTerminatesIff`); a deadlocked chain is walked for ever.
- The allocator's loop also tries the position behind the last block; the case in which it tests a bit behind the end of the map is
  characterized exactly (`PoolBlocks.SearchIsExact`), and a free pool in which it happens is given (`PoolBlocks.FreePoolStrays`). The map
  has a bit for each block only if the blocks fill whole words (`PoolMap.MapCoversPool`). `Pool.ProcessPool.Allocate` stops where the loop
  leaves the map and says so.
- `loadData` takes the count in the flash as it is; with one that the table has no room for, the copy would leave its buffer.
  `PasswordManager.LoadData` stops there and says so, exactly then.
- The search for a new pid ends exactly if some positive pid is free (`ProcessTable.SearchEndsIff`).
- After a backspace the terminal moves one byte more than there is. The buffer is given a byte to spare, and `Normalize` tells exactly
  when this byte is read; it is never written, and never kept.
- `validateUtf8` answers a length that counts the terminator.
- `Thread::sleep` multiplies in 32 bits: the delay is the one asked for exactly up to the documented maximum (`Sleepers.DelayIsExact`).
- The CBC code claims to pad a partial block with zeros. The loop has then already chained the partial block like the others, with
  whatever is behind it in the buffer, and the tail branch encrypts 16 bytes behind the data, without chaining. Decryption therefore
  restores the data for every length (`AesCbc.EncryptThenDecrypt`), but both buffers need room for the extra block, which itself
  is restored only under the condition of `AesCbc.TailBlockIff`.
- With a null iv, encryption goes on from the last block of the call before, which `Iv` points to in that call's output buffer
  (`AesCbc.EncryptInTwoCalls`). A call puts its first block at the front of its output buffer before reading the vector, and continues
  the call before if and only if that block leaves the 16 bytes at `Iv` as they are: always when `Iv` points elsewhere or 16 bytes or more
  into the buffer, else only if the bytes that overlap agree (`AesCbc.EncryptMore`, and `AesCbc.DecryptMore` for decryption). After a call
  for one block the new block is enciphered with itself for a vector, so that the output does not depend on it
  (`AesCbc.EncryptAgainInPlace`).

## Model

| member | source | states |
|---|---|---|
| Gf256.SboxInverse | aes.c:82-121 | the two tables undo each other, in both orders |
| Gf256.SboxIsAffineInverse | aes.c:82-98 | every entry of the S-box is the affine transform of the multiplicative inverse in GF(2^8) of its index (section 5.1.1 of FIPS 197) |
| Gf256.MultiplyIsGfMul | aes.c:303-310 | the five-term product is multiplication modulo the AES polynomial for every factor below 32 |
| Gf256.MixShortcut | aes.c:286-300 | the byte that the optimized column mix stores is the row of the matrix 2, 3, 1, 1 |
| Gf256.UnmixMix | aes.c:324-340 | the matrix 14, 11, 13, 9 undoes the matrix 2, 3, 1, 1 on every column |
| Fips197.UnmixColumns | aes.c:286-340 | the inverse column mix undoes the column mix on every state |
| Fips197.InvCipherUndoesCipher | aes.c:387-435 | under any key schedule decryption of a block undoes its encryption (sections 5.1 and 5.3 of FIPS 197) |
| Fips197.CipherUndoesInvCipher | aes.c:387-435 | and encryption undoes decryption, so that each is a permutation of the blocks |
| Fips197Answers.KnownKey | aes.c:156-219 | the key of appendix A.1 of FIPS 197 expands to the words given there, from word 4 to word 43 |
| Fips197Answers.KnownCipher | aes.c:387-409 | the block of appendix B of FIPS 197 is encrypted to the block given there |
| Aes.Aes128.KeyExpansion | aes.c:156-219 | the round keys are those of section 5.2 of FIPS 197 for the key |
| Aes.Aes128.ShiftRows | aes.c:252-278 | rotates row r by r places, in place, and touches nothing else |
| Aes.Aes128.MixColumns | aes.c:286-300 | replaces the state by its mixed columns, computed with running temporaries |
| Aes.Aes128.InvMixColumns | aes.c:324-340 | replaces the state by its unmixed columns |
| Aes.Aes128.Cipher | aes.c:387-409 | replaces a block of the buffer by its encryption under the round keys, and leaves the rest of the buffer |
| Aes.Aes128.InvCipher | aes.c:412-435 | replaces a block of the buffer by its decryption, and leaves the rest of the buffer |
| Aes.Aes128.EcbEncrypt | aes.c:454-465 | the output block is the encryption of the input block under the key |
| Aes.Aes128.EcbDecrypt | aes.c:467-478 | the output block is the decryption of the input block under the key |
| CbcMode.ChainedByte | aes.c:507-528 | each byte that is enciphered is the exclusive or of a plaintext byte and the byte of the block before, or of the vector |
| CbcMode.CbcRoundTrip | aes.c:499-569 | blocks chained as in section 6.2 of SP 800-38A are restored by the decryption recurrence, for any number of blocks |
| CbcMode.CbcContinues | aes.c:507-528 | encryption goes on from the last ciphertext block as if the two pieces were one |
| CbcMode.PlainContinues | aes.c:550-569 | so does decryption |
| AesCbc.CbcCode.EncryptBuffer | aes.c:499-537 | the loop that overwrites its input and moves Iv through the output computes the chaining recurrence, from the vector given or left by the call before, wherever that stands; also what the tail branch computes, and where Iv is left |
| AesCbc.CbcCode.DecryptBuffer | aes.c:539-576 | the loop computes the decryption recurrence, from the vector given or left by the call before, wherever that stands; also what the tail branch computes, and where Iv is left |
| AesCbc.EncryptThenDecrypt | aes.c:499-569 | for every length, a multiple of 16 or not, decrypting what was encrypted restores the data |
| AesCbc.TailBlockIff | aes.c:530-536 | the block that the tail branches add is restored exactly when its encryption ends in zeros |
| AesCbc.EncryptInTwoCalls | aes.c:499-537 | with a null iv and other buffers the second call continues the first: all blocks are those of the whole data |
| AesCbc.EncryptMore | aes.c:499-537 | with a null iv a call goes on from the blocks encrypted before if and only if the block that it copies to the front of its output leaves the vector there as it is |
| AesCbc.DecryptMore | aes.c:539-576 | the same for decryption, with the block as deciphered |
| AesCbc.EncryptAgainInPlace | aes.c:504-521 | with a null iv and the one-block buffer of the call before, the output is the encryption of zeros, whatever the data |
| Md5Code.Process | md5.c:93-213 | the 64 steps with their rewritten auxiliary functions are the compression function of section 3.4 of RFC 1321 |
| Rfc1321Answers.InitialState | md5.c:84-87 | the initial state is the bytes 01 23 45 67 to 32 10 of section 3.3 of RFC 1321 |
| Rfc1321Answers.DigestOfAbc | md5.c:93-213 | the digest of "abc" is that of section A.5 of RFC 1321 |
| Rfc1321Answers.DigestOfDigits | md5.c:219-292 | and so is that of eight times "1234567890", which fills two blocks |
| Md5Code.AddCarries | md5.c:230-234 | the two words count bytes, with the carry found by comparison, for every length of a chunk |
| Md5Code.BitCount | md5.c:275-277 | the shifts across the two words give the number of bits |
| Md5Code.CountBytes | md5.c:277-280 | the eight bytes appended are the length of the message in bits, low byte first, of any message |
| Md5Code.Md5Context.Update | md5.c:219-256 | after any chunk the context holds the state of the whole message so far: digest of its full blocks, rest in the buffer, count |
| Md5Code.Md5Context.Finish | md5.c:269-292 | writes the RFC 1321 digest of everything hashed, with the 56/120 padding |
| Md5Code.OneShot | md5.c:299-308 | is the digest of its input |
| Md5Code.Stream | md5.c:219-292 | for every way of splitting a message into chunks the digest is that of the whole message |
| Flash.SectorNumberExact | FlashDriver.cpp:131-155 | the sector found is the right one exactly below the bound in the code, and none is found above it |
| Flash.SectorLayout | FlashDriver.cpp:131-155 | the sectors have 16, 64 and 128 KiB and fill the megabyte |
| Flash.FlashDriver.Erase | FlashDriver.cpp:60-74 | a successful erase sets exactly the bytes of the sector to 0xFF |
| Flash.FlashDriver.ProgramByte | FlashDriver.cpp:168-180 | programming can only clear bits of one byte |
| Flash.FlashDriver.Write | FlashDriver.cpp:91-100 | bytes are programmed in order up to the first failure, over what was there |
| PasswordTable.EntryOfFlat | PasswordManager.cpp:196-232 | an entry of the flat table is taken apart into the entry that it was made of |
| PasswordTable.FlatBytes | PasswordManager.cpp:196-214 | where each byte of each website and password stands in the flat table |
| PasswordTable.SameFieldIff | PasswordManager.cpp:317-328 | two strings fill a field with the same bytes exactly when their texts up to the terminator are the same |
| PasswordTable.KeyIsDigest | PasswordManager.cpp:293-304 | both halves of the key are the digest of any field that holds the password's text, its terminator, and ones |
| PasswordTable.OpenSealed | PasswordManager.cpp:234-291 | what has been sealed with a key is opened with it as the table followed by its digest |
| PasswordTable.SwapRemovesOne | PasswordManager.cpp:387-405 | putting the last entry in the place of the removed one removes exactly one entry |
| PasswordTable.NameAfterRemoval | PasswordManager.cpp:387-420 | a name is still found after its removal exactly when it was there twice |
| PasswordManager.PasswordManager.StructToArray | PasswordManager.cpp:196-214 | copies the table, 64 bytes an entry |
| PasswordManager.PasswordManager.ArrayToStruct | PasswordManager.cpp:216-232 | rebuilds every entry of the table and leaves the others |
| PasswordManager.PasswordManager.CreateKey | PasswordManager.cpp:293-304 | there is a field with the text of the password, its terminator and ones behind it, whose digest is both halves of the key |
| PasswordManager.PasswordManager.MakeVector | PasswordManager.cpp:249-250 | the vector is the digest of the 32 bytes of the key |
| PasswordManager.PasswordManager.Encrypt | PasswordManager.cpp:234-256 | the encrypted data is the table and its MD5 digest, sealed with the key |
| PasswordManager.PasswordManager.Decrypt | PasswordManager.cpp:258-291 | answers whether the digest fits what was opened, and takes over the entries only then |
| PasswordManager.PasswordManager.StoreData | PasswordManager.cpp:500-517 | on success mark, count and data are in the flash; bytes outside the sector keep their values in any case |
| PasswordManager.StoredBytes | PasswordManager.cpp:500-517 | what is stored, byte by byte: "PWM" and a zero, the count with its low byte first, the ciphertext |
| PasswordManager.PasswordManager.LoadData | PasswordManager.cpp:519-542 | finds out by the mark whether there is data, and reads exactly what is stored, or leaves its buffer exactly when the count is out of range |
| PasswordManager.PasswordManager.AddPassword | PasswordManager.cpp:330-346 | appends the entry unless the table is full, and marks a change |
| PasswordManager.PasswordManager.GetPosition | PasswordManager.cpp:408-419 | the last entry with the name, or -1 when there is none |
| PasswordManager.PasswordManager.Remove | PasswordManager.cpp:387-405 | removes the last entry with the name by a swap, exactly when there is one |
| PasswordManager.Commit | PasswordManager.cpp:234-304 | key, encryption and storing in turn: the table is sealed and in the flash, and no other sector changed |
| PasswordManager.Start | PasswordManager.cpp:500-542 | a session on sealed data unlocks with its password and has its table |
| PasswordManager.CommitAndReload | PasswordManager.cpp:234-304 | end to end: after a commit that succeeds, a new session with the same password unlocks and has the same table; other sectors are unchanged |
| PasswordManager.SlotsApart | FlashDriver.cpp:131-155 | the four slots have sectors of their own, and the driver finds them |
| PasswordManager.OtherSlotsKept | PasswordManager.cpp:500-517 | storing one slot leaves what is stored in the others, exactly |
| MutexGraph.HighestPriorityHandoff | miosix/kernel/sync.cpp:264-282 | unlocking grants the mutex to a waiter, none of those waiting has a greater priority, and exactly the others go on waiting |
| MutexGraph.UnlockedGraph | miosix/kernel/sync.cpp:209-288 | unlocking keeps owner lists, wait heaps and waiting threads consistent |
| MutexGraph.ReprioritizedGraph | miosix/kernel/sync.cpp:81-95 | a changed priority with a remade heap keeps the graph consistent |
| MutexRuns.BlockedGraph | miosix/kernel/sync.cpp:77-95 | a thread that blocks, with the walk along its chain, keeps the graph consistent |
| MutexRuns.BlockedAcyclic | miosix/kernel/sync.cpp:77-95 | blocking on a mutex whose chain does not lead back keeps the waits acyclic |
| MutexRuns.WalkTerminatesIff | miosix/kernel/sync.cpp:81-95 | the walk along the chain ends exactly when the new waiter is not on it |
| MutexRuns.WalkForever | miosix/kernel/sync.cpp:81-95 | on a deadlock the walk always has a next thread |
| MutexRuns.BlockedExactIff | miosix/kernel/sync.cpp:81-95 | after a walk all priorities are exact if and only if it had nothing to do or no thread on the chain exceeded the waiter |
| MutexRuns.WalkCanLower | miosix/kernel/sync.cpp:88 | a sound state in which the walk puts a thread below its own priority |
| MutexRuns.WalkLowersInRun | miosix/kernel/sync.cpp:88 | and a run of four locks by three threads, from a state in which no mutex is taken, that ends there |
| MutexRuns.UnlockedExact | miosix/kernel/sync.cpp:243-281 | the thread that unlocks has the greatest of its saved priority and its waiters' afterwards, its saved one if it holds nothing; all others stay exact |
| MutexRuns.PrioritySetKeeps | miosix/kernel/kernel.cpp:392-422 | changing the own priority keeps the graph, acyclicity and exactness, and becomes effective when nothing is held |
| MutexRuns.StepKeeps | miosix/kernel/sync.cpp:49-366 | every step keeps the graph and acyclicity, and exactness unless a chain exceeds the waiter |
| MutexRuns.StepDepths | miosix/kernel/sync.cpp:49-366 | no step of one thread changes the depth or the owner of a mutex that another holds, and a mutex that is given back has depth 0 or -1 |
| MutexRuns.RunKeeps | miosix/kernel/sync.cpp:49-366 | over any interleaving from a fresh state the graph is consistent and acyclic, and priorities are exact as long as no chain exceeded a new waiter |
| MutexRuns.OwnPriorityKept | miosix/kernel/sync.cpp:243-281 | over every run, gentle or not, a thread that holds nothing has the priority that it last set or began with, and one that holds something has it saved |
| MutexRuns.GrantKept | miosix/kernel/sync.cpp:100-114 | as long as its owner does not run, a mutex keeps owner and depth, whatever the others do |
| MutexRuns.KindKept | miosix/kernel/sync.cpp:49-366 | over every run a recursive mutex stays recursive, and one that is not stays so |
| MutexRuns.BlockedUntilGranted | miosix/kernel/sync.cpp:97-114 | over every run a thread that blocked on a mutex waits for it until it owns it |
| MutexRuns.WaitReturns | miosix/kernel/sync.cpp:374-401 | over every interleaving, a wait on a condition variable returns owning the mutex at the depth it had before, recursive or not, taken at once or after blocking |
| Sync.Thread.Inherited | miosix/kernel/sync.cpp:250-260 | the walk over held mutexes computes the greatest of a priority and all waiters' |
| Sync.Thread.SetPriority | miosix/kernel/kernel.cpp:392-422 | is the step of the model |
| Sync.Kernel.constructor | miosix/kernel/sync.cpp:44-47 | threads and mutexes as they are constructed are a sound state from which every run can begin |
| Sync.Mutex.PKlock | miosix/kernel/sync.cpp:49-115 | takes, deepens, blocks with the transitive walk, or stops on a recursive lock of a mutex that is not recursive, and which of these; each is the step of the model, and without the walk a lock that closes a cycle is covered too |
| Sync.Mutex.PKlockToDepth | miosix/kernel/sync.cpp:117-185 | the same, and a mutex taken at once has the depth asked for |
| Sync.Mutex.ResumeToDepth | miosix/kernel/sync.cpp:169-185 | after the wait the recursive mutex has the depth asked for |
| Sync.OwnerWhenAwake | miosix/kernel/sync.cpp:97-114 | the test of the loops: after blocking, a thread is the owner exactly when it is out of the queue |
| Sync.Mutex.PKtryLock | miosix/kernel/sync.cpp:187-207 | takes or deepens exactly when that needs no waiting |
| Sync.Mutex.PKunlock | miosix/kernel/sync.cpp:209-288 | counts down, or cuts the mutex out of the list of the owner, recomputes its priority and hands over, and tells whether the new owner has a greater priority |
| Sync.Mutex.PKunlockAllDepthLevels | miosix/kernel/sync.cpp:290-366 | gives the mutex back from any depth and answers the depth |
| Sync.ConditionVariable.WaitBegin | miosix/kernel/sync.cpp:374-396 | queues the thread last, with the flag that keeps it from running, releases the mutex from any depth and remembers the depth |
| Sync.ConditionVariable.WaitEnd | miosix/kernel/sync.cpp:397-401 | takes the mutex at the remembered depth or waits for it |
| Sync.ConditionVariable.Signal | miosix/kernel/sync.cpp:429-448 | takes the thread that has waited longest out of the list and clears its flag, and nobody else's; tells whether it has a greater priority |
| Sync.ConditionVariable.Broadcast | miosix/kernel/sync.cpp:450-473 | takes all out in order and clears their flags, and tells whether one has a greater priority |
| EventQueue.StepSound | miosix/e20/e20.h:194-301 | every step keeps the invariant, no event is lost or taken out of order, and if a getter waits without token there are no more events than getters already woken (and the same for putters and free slots) |
| EventQueue.RunSound | miosix/e20/e20.h:194-301 | over any interleaving the invariant holds and the events taken are a prefix of those posted |
| EventQueue.RunIsFifo | miosix/e20/e20.h:194-301 | over any interleaving the events handed out, and then those in the ring, are those that steps posted, in that order |
| EventQueue.QuiescentWaiting | miosix/e20/e20.h:194-301 | when no one woken is still to run, a waiting getter means an empty queue and a waiting putter a full one |
| EventQueue.FixedEventQueue.IRQpostImpl | miosix/e20/e20.h:220-238 | stores the event in the ring and gives one waiting getter its token, exactly when there is room |
| EventQueue.FixedEventQueue.TryToPost | miosix/e20/e20.h:194-217 | posts at once or queues the thread as the last putter |
| EventQueue.FixedEventQueue.PostAgain | miosix/e20/e20.h:194-217 | the same for a putter that has been woken, whose place in the waiting is given up |
| EventQueue.FixedEventQueue.TryToTake | miosix/e20/e20.h:240-278 | takes the oldest event and gives one waiting putter its token, or queues the thread as the last getter |
| EventQueue.FixedEventQueue.RunAgain | miosix/e20/e20.h:240-278 | the same for a getter that has been woken |
| EventQueue.FixedEventQueue.RunOneImpl | miosix/e20/e20.h:281-301 | takes the oldest event if there is one, and never waits |
| ProcessTable.StepKeepsTable | miosix/kernel/process.cpp:93-262 | every step keeps: parents present and alive, in the list of children exactly when not a zombie, in the list of zombies exactly when dead and not waited for, created once more than reported exactly while in the table |
| ProcessTable.RunKeepsTable | miosix/kernel/process.cpp:93-262 | this holds over every run |
| ProcessTable.AwaitedStays | miosix/kernel/process.cpp:93-183 | a process that someone waits for stays in the table, and unreported, exactly until the last who waits takes it, or its creation fails after all |
| ProcessTable.WaiterForgotten | miosix/kernel/process.cpp:105-113 | a run of three steps in which a creation fails while a kernel thread waits for the process |
| ProcessTable.SearchEndsIff | miosix/kernel/process.cpp:502-513 | from any counter, the search for a pid ends if and only if some positive pid is free |
| ProcessTable.GetNewPid | miosix/kernel/process.cpp:502-513 | when the search ends, it has found a positive pid that is not in use, whatever the counter, and moved the counter on |
| ProcessWaiting.NeverMissed | miosix/kernel/process.cpp:139-155 | over every run a process that sleeps until any child ends has children, and no zombie to report |
| ProcessWaiting.MissedIff | miosix/kernel/process.cpp:243-262 | a thread of the kernel that sleeps so is left asleep, though it has a zombie to report or no child any more, exactly by the end of a process that others wait for which leaves the kernel zombies or no child, or by a creation that fails and leaves it no child |
| ProcessWaiting.KernelMisses | miosix/kernel/process.cpp:257-260 | a run from boot in which two threads of the kernel wait, one for any child and one for its only one, and the first sleeps on |
| ProcessReports.ReportedHasEnded | miosix/kernel/process.cpp:139-183 | over every run, whoever a wait reports is a child of the caller, its last end was with the code that is reported, and it is gone after that; a process that waits for any child is told of its dead in the order in which they ended |
| ProcessReports.ParentIsCreator | miosix/kernel/process.cpp:93-104 | over every run the parent of a process is who created it, or the kernel if that one has ended since |
| ProcessReports.WaitAnyAnswers | miosix/kernel/process.cpp:139-155 | which answer it is, in terms of dead and living children |
| ProcessReports.WaitOneAnswers | miosix/kernel/process.cpp:156-183 | the same for one child, before the wait |
| ProcessReports.ResumesIff | miosix/kernel/process.cpp:165-172 | over every run, a wait for one child goes on exactly if one has begun, is not over, and the child is dead |
| ProcessReports.WaitOverAnswers | miosix/kernel/process.cpp:165-183 | over every run, the last of the waits for one child to go on reports it and takes it out of the table, and those before it are errors |
| ProcessCode.Processes.Create | miosix/kernel/process.cpp:98-104 | the first locked section: enters a new process in the table and in its parent's list |
| ProcessCode.Processes.CreateOver | miosix/kernel/process.cpp:105-122 | after any steps of others, the process starts, or is taken out of the table and its parent's list |
| ProcessCode.Processes.WaitAnyTurn | miosix/kernel/process.cpp:139-155 | reports and removes the first zombie, says that there is no child at all, or goes to sleep until one ends |
| ProcessCode.Processes.WaitOneTurn | miosix/kernel/process.cpp:156-183 | reports and removes the child if it is dead, or begins to wait for it, and the errors |
| ProcessCode.Processes.WaitOver | miosix/kernel/process.cpp:169-183 | the last who waits removes and reports the process, the others answer that there is none |
| ProcessCode.Processes.Exit | miosix/kernel/process.cpp:243-262 | the kernel adopts children and zombies; the parent is told and all who sleep until any child ends are woken, or the zombie is left for those who wait, and nobody woken |
| PathSpec.JoinSplit | miosix/filesystem/file_access.cpp:329-378 | taking a path apart at its slashes loses nothing |
| PathSpec.SplitJoin | miosix/filesystem/file_access.cpp:329-378 | components that hold no slash are found again |
| PathSpec.BaseLongest | miosix/filesystem/file_access.cpp:470-496 | no mounted prefix is longer than the one chosen |
| PathSpec.ChosenIsLongestIff | miosix/filesystem/file_access.cpp:381-396 | the filesystem found is that of the longest mounted prefix if and only if the components do not end with ".." out of a mount point into another that is not the root |
| PathSpec.UpFromMountToMount | miosix/filesystem/file_access.cpp:381-396 | a path for which it is not |
| PathSpec.FoldCanonical | miosix/filesystem/file_access.cpp:329-378 | the stack of a fold has no empty, "." or ".." component |
| PathSpec.WalkIsFold | miosix/filesystem/file_access.cpp:329-425 | without symbolic links the walk is the left fold of the components over a stack, left by ".." at the end exactly where the fold without it stands, and fails exactly when that leaves the root |
| PathSpec.ResolvesWithoutLinks | miosix/filesystem/file_access.cpp:329-412 | without symbolic links a path is resolved exactly when its fold is defined, to its canonical form, and to the longest mounted prefix exactly when it does not end by going up between mount points |
| PathSpec.NameAndBack | miosix/filesystem/file_access.cpp:349-363 | in the fold a name and ".." undo each other, empty components and "." do nothing, and ".." fails at the root |
| PathSpec.FollowedPath | miosix/filesystem/file_access.cpp:427-468 | an absolute target replaces all up to the link, a relative one the link, and what is behind it stays |
| PathSpec.WalkIsExact | miosix/filesystem/file_access.cpp:329-468 | for every path, mount table and links: the outcome is the fold if every component is passed, and else what the first that is not leads to: an error, and which, or the walk with the target of a link in its place |
| PathSpec.ResolvedIsFolded | miosix/filesystem/file_access.cpp:329-468 | what is resolved is the fold of the components if none is a link to follow, and else that with the target of the first in its place; a last component is one only if it is to be followed |
| PathSpec.LastLinks | miosix/filesystem/file_access.cpp:360-362 | a path whose last component is a link resolves to the link or to its target, as asked; a second link is one too many |
| PathSpec.RelativeIsJoin | miosix/filesystem/file_access.cpp:414-416 | what a filesystem is asked for is the components behind its mount point |
| PathSpec.ResolvedCanonical | miosix/filesystem/file_access.cpp:329-468 | with or without links, what is resolved has no empty, "." or ".." component |
| PathSpec.CanonicalResolvesToItself | miosix/filesystem/file_access.cpp:329-378 | a resolved path is resolved to itself |
| PathResolution.PathResolution.UpPathComponent | miosix/filesystem/file_access.cpp:381-396 | removes the component above and ".." from the string, finds the filesystem above when the mount point is left, and fails at the root |
| PathResolution.PathResolution.RecursiveFindFs | miosix/filesystem/file_access.cpp:470-496 | finds the longest mounted prefix of the path, and where the rest begins |
| PathResolution.PathResolution.NormalPathComponent | miosix/filesystem/file_access.cpp:398-425 | enters a mount point, goes on, or follows a link, as the walk does |
| PathResolution.PathResolution.FollowSymlink | miosix/filesystem/file_access.cpp:427-468 | replaces the link by its target in the string, with the errors for too many links and too long a path |
| PathResolution.PathResolution.ResolvePath | miosix/filesystem/file_access.cpp:329-378 | for every path, mount table and symbolic links the loop ends and is the walk: same string, same filesystem, same offset, same error |
| PathResolution.PathResolution.Trim | miosix/filesystem/file_access.cpp:365-377 | removes the trailing slash but for the root |
| PathResolution.FoundIsMount | miosix/filesystem/file_access.cpp:365-377 | the offset found is where the components behind the mount point begin, and the filesystem is the one mounted there |
| PathResolution.Resolve | miosix/filesystem/file_access.cpp:329-345 | every string is resolved or refused as the walk says |
| Unicode.TwoAccepted | miosix/util/unicode.h:158-177 | masks and overlong test accept exactly the two-byte sequences of section 4 of RFC 3629 |
| Unicode.ThreeAccepted | miosix/util/unicode.h:159-187 | masks, overlong and surrogate tests accept exactly the three-byte sequences |
| Unicode.FourAccepted | miosix/util/unicode.h:160-189 | masks, overlong and range tests accept exactly the four-byte sequences |
| Unicode.WellFormedIsEncoded | miosix/util/unicode.h:144-191 | a well-formed sequence is the encoding of the code point that it stands for |
| Unicode.EncodedIsWellFormed | miosix/util/unicode.cpp:40-67 | the encoding of a code point is well formed and stands for it |
| Unicode.WellFormed16IsEncoded | miosix/util/unicode.cpp:99-120 | the same for units and pairs of surrogates (section 2.2 of RFC 2781) |
| Unicode.Encoded16IsWellFormed | miosix/util/unicode.cpp:80-85 | and in the other direction (section 2.1 of RFC 2781) |
| UnicodeOrder.EncodeOrdered | miosix/util/unicode.cpp:40-67 | byte strings are ordered as the code points that they encode (section 1 of RFC 3629) |
| UnicodeOrder.Encode16Ordered | miosix/util/unicode.cpp:80-85 | so are pairs of surrogates, and a unit alone is its code point |
| UnicodeCode.LookedIs | miosix/util/unicode.h:144-191 | how far the decoder looks: over all the tail bytes announced, or up to and with the first byte that is none, or to the end |
| UnicodeCode.ConvertedIs | miosix/util/unicode.cpp:69-130 | which error a conversion answers, the length, and what is in the buffer |
| UnicodeCode.NextUtf8 | miosix/util/unicode.h:144-191 | the next code point exactly for a well-formed sequence and INVALID otherwise, how far is looked in either case, and no byte behind the terminator or the end is read |
| UnicodeCode.PutUtf8 | miosix/util/unicode.cpp:40-67 | stores the encoding or as much of it as there is room for, and refuses what has none |
| UnicodeCode.Utf8ToUtf16 | miosix/util/unicode.cpp:69-90 | the whole result for every string and size: all units and the terminator, or those up to what is not well formed, or as many as fit; error, length and untouched rest of the buffer |
| UnicodeCode.NextUtf16 | miosix/util/unicode.cpp:99-120 | reads a unit or a pair, and finds unpaired surrogates |
| UnicodeCode.Utf16ToUtf8 | miosix/util/unicode.cpp:92-130 | the same in the other direction |
| UnicodeCode.ValidateUtf8 | miosix/util/unicode.cpp:132-141 | valid exactly when all is well formed up to the terminator, and how many bytes that is; otherwise how far the decoder looked |
| UnicodeCode.RoundTrip8 | miosix/util/unicode.cpp:69-130 | the units of a valid UTF-8 string read back as its code points, and these give back its bytes |
| UnicodeCode.RoundTrip16 | miosix/util/unicode.cpp:69-130 | the same starting from UTF-16 |
| UnicodeCode.ThereAndBack8 | miosix/util/unicode.cpp:69-130 | both conversions in turn are the identity on every valid string, with large enough buffers |
| UnicodeCode.ThereAndBack16 | miosix/util/unicode.cpp:69-130 | the same starting from UTF-16 |
| TerminalLine.FoldInPieces | miosix/filesystem/console/console_device.cpp:134-186 | bytes in two pieces give the same line, flag and echo as all at once |
| TerminalLine.AnyPieces | miosix/filesystem/console/console_device.cpp:75-94 | and in any number of pieces |
| TerminalLine.AnyNewline | miosix/filesystem/console/console_device.cpp:144-166 | terminals that send CR, LF or CR LF give the same text, and the same echo |
| TerminalLine.KeptIsRubbed | miosix/filesystem/console/console_device.cpp:134-186 | for any bytes, what is kept is what backspaces leave of the keys behind them, where a line feed belongs to a carriage return with nothing but backspaces between |
| TerminalLine.FirstRemovalIs | miosix/filesystem/console/console_device.cpp:134-186 | the first byte that has to go, if there is one, is the first that is a backspace or a line feed right behind its carriage return |
| TerminalLine.NormalizedTwice | miosix/filesystem/console/console_device.cpp:134-186 | normalizing twice is normalizing once |
| TerminalLine.RubbedOut | miosix/filesystem/console/console_device.cpp:167-179 | as many backspaces as characters typed restore the line |
| TerminalScreen.SeenIsKept | miosix/filesystem/console/console_device.cpp:144-194 | a terminal that shows the echo shows the line that is kept, with the cursor at its end, unless a newline is rubbed out |
| Terminal.TerminalDevice.Normalize | miosix/filesystem/console/console_device.cpp:134-194 | the buffer, length, flag and what is given to the device to show are the fold over the chunk, whether the device writes it or fails, with the bytes behind it untouched, and exactly when the byte to spare is read |
| Terminal.TerminalDevice.Read | miosix/filesystem/console/console_device.cpp:75-94 | what is returned is the fold of everything the device handed out in whatever pieces, whether its writes succeed or not, and the loop ends at a full buffer or a newline |
| Terminal.TerminalDevice.Write | miosix/filesystem/console/console_device.cpp:45-73 | sends the text with CR LF for newlines |
| PoolMap.PowerTest | miosix/kernel/process_pool.cpp:60 | the test on the bits of the size accepts exactly the powers of two, and zero |
| PoolMap.SearchFinds | miosix/kernel/process_pool.cpp:69-85 | the search finds the lowest run that fits if there is one, and otherwise fails properly exactly when the end of the map is in use, for any number of blocks and map not longer than that |
| PoolMap.PassedIsAligned | miosix/kernel/process_pool.cpp:63-69 | the positions that the loop tries are the aligned ones |
| PoolMap.StartsAligned | miosix/kernel/process_pool.cpp:63-66 | it starts at the first of them |
| PoolMap.MapCoversPool | miosix/kernel/process_pool.cpp:102-108 | the map has a bit for each block exactly when the blocks fill whole words |
| PoolBlocks.SearchIsExact | miosix/kernel/process_pool.cpp:63-85 | in terms of addresses: lowest aligned free run, and exactly when the loop leaves the map |
| PoolBlocks.FreePoolServes | miosix/kernel/process_pool.cpp:60-85 | in a free pool at 0x64000400 four KiB are found at 0x64001000 |
| PoolBlocks.FreePoolStrays | miosix/kernel/process_pool.cpp:69-75 | a free pool for which it does |
| PoolBlocks.TakenRun | miosix/kernel/process_pool.cpp:80-83 | a free aligned run can be recorded: blocks stay disjoint and aligned, and the set bits are exactly theirs |
| PoolBlocks.GivenBack | miosix/kernel/process_pool.cpp:88-100 | and given back |
| PoolBlocks.MarkedBack | miosix/kernel/process_pool.cpp:80-99 | giving a run back restores the map |
| Pool.ProcessPool.SetBit | miosix/kernel/process_pool.h:144-148 | sets this bit of the map and no other |
| Pool.ProcessPool.ClearBit | miosix/kernel/process_pool.h:153-157 | clears this bit of the map and no other |
| Pool.ProcessPool.Allocate | miosix/kernel/process_pool.cpp:54-86 | the lowest aligned free run if there is one, for a size that is a power of two in range, and the two errors and the way off the map exactly; the set bits stay the union of the disjoint live blocks |
| Pool.ProcessPool.AllocateRun | miosix/kernel/process_pool.cpp:63-85 | the same, for a size that is valid |
| Pool.ProcessPool.Deallocate | miosix/kernel/process_pool.cpp:88-100 | clears exactly the bits of the block, or refuses an address that is not one |
| Pool.TakeAndReturn | miosix/kernel/process_pool.cpp:54-100 | taking and returning a block leaves the allocator as it was |
| Adpcm.Encoder.Encode | miosix/_examples/sad_trombone/adpcm.c:50-133 | quantizes the difference and moves predictor and index by the code that it answers, and by nothing else |
| Adpcm.Decoder.Decode | miosix/_examples/sad_trombone/adpcm.c:142-205 | moves predictor and index by the code in the same way |
| Adpcm.Lockstep | miosix/_examples/sad_trombone/adpcm.c:50-205 | from the codes alone the decoder has the predictors of the encoder after each sample of any stream, with the index in 0..88 |
| Adpcm.CloseEnough | miosix/_examples/sad_trombone/adpcm.c:70-118 | a change of less than two steps is followed with an error of at most an eighth of the step and two |
| Adpcm.BoundIsReached | miosix/_examples/sad_trombone/adpcm.c:70-118 | no smaller bound holds |
| Adpcm.CatchingUp | miosix/_examples/sad_trombone/adpcm.c:75-129 | a bigger change is answered with the greatest code, a step closer at least, and eight indices higher |
| Adpcm.StepsGrow | miosix/_examples/sad_trombone/adpcm.c:27-35 | each step size is a tenth more than the one before, rounded, up to the greatest |
| Adpcm.StepAdapts | miosix/_examples/sad_trombone/adpcm.c:119-125 | which step comes next, for a change of up to one step, and of each quarter more |
| Adpcm.StreamIsFollowed | miosix/_examples/sad_trombone/adpcm.c:50-205 | the bound for what the decoder gives at any place of any stream |
| Adpcm.Transmit | miosix/_examples/sad_trombone/adpcm.c:50-205 | both objects side by side agree after every sample |
| Sleepers.StepSound | miosix/kernel/kernel.cpp:231-276 | falling asleep and ticks keep the list sorted, without anyone twice, and with everyone's time to come |
| Sleepers.RunSound | miosix/kernel/kernel.cpp:231-276 | so does every run |
| Sleepers.ExactWakeup | miosix/kernel/kernel.cpp:261-276 | over any run a sleeper is in the list exactly until its tick |
| Sleepers.TooLateIsStranded | miosix/kernel/kernel.cpp:261-276 | a sleeper that got into the list too late would never be woken, nor anyone behind it |
| Sleepers.DelayIsExact | miosix/kernel/kernel.cpp:342-354 | the delay computed in 32 bits is the one asked for exactly up to the documented maximum |
| SleepingList.Kernel.IRQaddToSleepingList | miosix/kernel/kernel.cpp:231-251 | links the node in at its place and flags the thread |
| SleepingList.Kernel.IRQwakeThreads | miosix/kernel/kernel.cpp:261-276 | unlinks exactly those whose tick it is, clears their flags, and answers whether there were any |
| SleepingList.Kernel.Sleep | miosix/kernel/kernel.cpp:342-357 | the current thread falls asleep for the delay, or not at all for zero |
| SleepingList.Kernel.SleepUntil | miosix/kernel/kernel.cpp:359-372 | it falls asleep exactly when the time is to come |

## Left out

- FileSystem.cpp: its reuse of holes mixes relative and absolute offsets and has no clean specification; the password manager does not call it.
- Menus, slot selection and input in PasswordManager.cpp and SlotPasswordManager.cpp: user interface.
- Control registers and busy waiting of the flash: an erase or a byte may fail at any time, unless the driver is said to be `reliable`.
- Context switching, interrupts, stacks, the MPU, system calls and ELF loading: hardware and foreign calls. Methods that the kernel runs with
  interrupts or the scheduler disabled are steps; where a thread yields, a method ends and another one goes on.
- Heap functions of the C++ library: `MakeHeap`, `PushHeap` and `PopHeap` stand for them; what is proved uses their contracts only.
- Md5Code.Md5Context.Update: counters are natural numbers below 2^32 and chunks are shorter than that, as on the 32-bit machine.
- PasswordManager.PasswordManager.LoadData: what the copy does to memory behind its buffer is not modelled; it stops where that would begin.
- PathResolution.Resolve: the greatest length of a path is a parameter; filesystems are a map of mount points and a table of what is found in them.
- ProcessTable.GetNewPid: a method must end, so that it asks for a search that does; `SearchEndsIff` says when that is.
- ProcessCode.Processes.CreateOver: whether a thread can be made is a parameter. Processes other than the kernel have one thread, so that one
  of their waits is pending at most.
- Sync.Mutex.PKlock: a method must end, so that the walk, if the waiter is more urgent than the owner and there is one, is required to end;
  `MutexRuns.WalkTerminatesIff` says when that is. The same holds for PKlockToDepth and WaitEnd.
- Sync.ConditionVariable.Signal: the scheduler that reads the wakeup flags, and wakeups without a signal, are not modelled.
- Terminal.TerminalDevice.Read: the device answers some finite script of blocks and errors and then errors; a device that blocks for ever is not
  modelled. A write is of all that it is given or of nothing.
- Pool.ProcessPool.Allocate: base and size of the pool are multiples of a block, as the header asks. What the loop finds behind the map is not
  modelled; nor is that the constructor clears up to three bytes behind it.
- SleepingList.Kernel.IRQaddToSleepingList: `tick` and times are unbounded, 64 bits in the code.
- sha1.cpp, crc16.cpp, `Queue` and `BufferQueue` are not modelled.
- Secrecy and collision resistance: MD5 and AES are functions here.
