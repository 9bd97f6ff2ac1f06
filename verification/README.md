# Proofs about SysCore

SysCore is a small RISC-V kernel for the K210, with a Python tool that flashes it to the board. This
project models the parts of both whose correctness spans whole runs or round trips, and proves it:

- **AES and CBC** (`Aes*.dfy`): the table-driven cipher is FIPS 197, down to its worked example, decryption
  inverts encryption for all three key sizes, and CBC decryption recovers any number of blocks.
- **SLIP** (`Slip.dfy`): a byte stream is read as a list of packets exactly if it is their frames.
- **Flash image** (`FlashChunks.dfy`, `FlashWriter.dfy`): when a run of the writer completes, and what it
  leaves in the flash, over a line that may lose requests and garble or lose answers.
- **Kernel heap** (`Heap*.dfy`): the lazy segment tree is the array of its updates, no run hands out
  a unit twice, and which requests succeed.
- **Scheduler** (`Scheduler*.dfy`): a state machine over traps. Its history alone fixes every event but the
  traps; safety, conservation of exit signals and bounded waiting hold over every run, and the kernel's
  objects make those runs.
- **Initial user stack** (`UserStack*.dfy`): the reader recovers what the builder printed into the page.
- **Path resolution** (`Path*.dfy`): splitting and printing in one buffer is a fold over components.
- **ELF loading** (`PageTables.dfy`, `ElfLoader.dfy`): pages filled with wrapping arithmetic hold the segments'
  bytes, and which of them stand in the page table of a process and of its forks.
- **SD card and disk** (`SdCard.dfy`, `SdTransfers.dfy`, `SdDriver.dfy`, `Disk.dfy`): the
  command protocol is a flat array of sectors, the same as the memory image, and what it is on a card
  that takes too long.
- **SPI** (`Spi.dfy`): the transmit loop pushes the buffer's frames in order, whatever the queue does.

`Common.dfy` and `Words.dfy` hold what several of these share. Code that updates state in place is a
class or an array algorithm, proved against functions on values; the theorems are about those functions.

## How to read the model

- **Machine integers.** Addresses, registers and file positions wrap where the source's do (64 and 32
  bits). The heap's counts are ints; where a product or a sum of them overflows, which C++ leaves open, the
  model wraps. Process numbers and the scheduler's dispatch counter are unbounded. In the AES code only the
  low 32 bits of Python's integers matter, so words are 32-bit vectors.
- **What is outside.** The board (`FlashWriter.Line`), the card's delays (`SdCard.Paces`), the draining
  of the SPI queue (`Spi.Drain`), the registers a process traps with, the next test to start, freshly
  allocated pages, CRC-32 and SHA-256 are parameters, and the theorems hold for all of them. Seeking
  and reading in a file stop at its end, as FatFs does for a file opened for reading.
- **Exceptions** of the Python tool are `Raised`; reboot, shutdown and the dead-loop panic end a
  scheduler run. A resume is the end of a scheduler step, because the code after it is never reached.
- **T and U tables** are defined from the S-box and multiplication in GF(2^8), not transcribed. The
  S-boxes and the round constants are transcribed, and proved to be what FIPS 197 defines.
- **The card** hears and sends a byte at a time, and knows no block length but 512. While it is busy it
  holds its line low and ignores what it is sent; deselecting it does not end that. Its delays count the
  bytes exchanged while it is selected.
- **The heap** is present in the repository as commented-out text; the model follows that text.
- **Auxiliary vector.** The header that names its entries is not part of the repository, so the model
  has the numbers of the System V ABI.

### Where the code does not do what one would expect

Each of these is a result below, with the exact condition under which the code is right.

- `kill` aimed at the running process leaves it running and reports it dead
  (`SchedulerSafety.KillKeepsInvIff`).
- A block that covers the whole heap is handed out again while it is live (`HeapRuns.AllocApartIff`,
  `HeapRuns.SecondBlockApartIff`); a request for nothing overwrites the length recorded at unit 0
  (`HeapRuns.EmptyRequestIff`).
- The heap can refuse a request although there is room: for all of a heap of which a part was taken and released, for
  the rest of a heap behind a first block, and for half of a heap that is free as a whole
  (`HeapSearch.WholeHeapLost`, `HeapSearch.RestLost`, `HeapSearch.DeadEnd`; when it succeeds:
  `HeapSearch.SearchIff`, `HeapSearch.RequestSucceedsIff`, `HeapSearch.SearchMissesNothing`).
- A request for more than 32 GiB is cut off to an int: it gets fewer bytes than it asked for, or counts as a
  request for nothing (`HeapRuns.AllocServesIff`, `HeapRuns.CutOffExample`, `HeapRuns.EmptyRequestExamples`).
- A relative path without a working directory keeps its first component twice
  (`PathSpec.SlashedIsResolved`, `PathSpec.UnslashedIsResolvedIff`, `PathSpec.RelativeWithoutCwdFails`).
- Flashing a whole number of sectors that ends before the next 64 KiB boundary yields an empty chunk
  and fails (`FlashWriter.FlashCompletesIff`, `FlashWriter.OneSectorFails`).
- One lost answer ends the flashing: the timeout closes the serial port, and the retries that follow
  never reach the board (`FlashWriter.SendCompletesIff`, `FlashWriter.LostAnswerFails`,
  `FlashWriter.LostAnswerExample`). Only a garbled reply is really retried.
- A reply that reports an error counts as success while flashing, because its result is not looked at
  (`FlashWriter.RefusalsComplete`, `FlashWriter.SendStoresIffLanded`).
- A segment whose file offset is smaller than its offset in the page loses the bytes of its first page
  (`ElfLoader.PageHoldsSegmentIff`, `ElfLoader.UnderflowExample`).
- Two segments in one page: the page of the first stands, and the bytes of the second are not in memory
  (`ElfLoader.PageStandsIff`, `ElfLoader.SharedPageExample`). A fork binds text before data, so it can see another
  page than its parent (`ElfLoader.ForkSeesSameIff`, `ElfLoader.ForkSwapsExample`).
- A card that answers after the poll limits: a read goes on with whatever bytes come
  (`SdTransfers.DeliveredIff`, `SdTransfers.LateReadExample`), and a write is lost or stored shifted
  (`SdTransfers.WriteLandsIff`, `SdTransfers.LateWriteExample`, `SdTransfers.ShiftedWriteExample`).
- A card that is busy past the poll limits loses the next write, and the status request takes its busy
  signal for an answer without an error (`SdTransfers.AtRestIff`, `SdTransfers.NextWriteIsLost`,
  `SdTransfers.SlowCardExample`).
- The SPI loop never ends for a length that is not a multiple of the frame width (`Spi.SendEndsIff`).

The documentation in `doc/Modules` says that a woken process goes back to the ready queue. The code runs
it at once, and so does the model. The status word of `wait` is written on the blocked path only; on the
immediate path the source has that line commented out. A comment in the flashing tool puts the hash in
front of the image; the code appends it.

## Model

| member | source | states |
|---|---|---|
| `SBox.TableIsAffineInverse` | platform/k210/kflash.py:106 | every entry of S is the affine map of the multiplicative inverse in GF(2^8), with 0 for 0 |
| `SBox.SiUndoesS` | platform/k210/kflash.py:106-107 | the inverse S-box undoes the S-box on every byte |
| `SBox.SUndoesSi` | platform/k210/kflash.py:106-107 | the S-box undoes the inverse S-box on every byte |
| `Field.SmallTimesAreMul` | platform/k210/kflash.py:110-113 | the doublings and triplings in the T tables are products in GF(2^8) |
| `Field.LargeTimesAreMul` | platform/k210/kflash.py:116-125 | the factors 11, 13 and 14 in the inverse tables are products in GF(2^8) |
| `Fips197.MixColumnInverse` | platform/k210/kflash.py:121-125 | InvMixColumns undoes MixColumns on every column |
| `Fips197.InvMixColumnsLinear` | platform/k210/kflash.py:190-197 | InvMixColumns distributes over AddRoundKey, which is why decryption keys go through it |
| `Fips197.InvRoundUndoesRound` | platform/k210/kflash.py:212-254 | a round of the equivalent inverse cipher with the transformed key undoes an encryption round |
| `Fips197.InvRoundsMeetRounds` | platform/k210/kflash.py:212-254 | after r inverse rounds the state is the shifted, substituted state r rounds before the end, for any number of rounds |
| `Fips197.InvCipherInvertsCipher` | platform/k210/kflash.py:199-265 | the equivalent inverse cipher inverts the cipher for every key schedule and state |
| `Fips197.RowsMove` | platform/k210/kflash.py:215-219 | row r of the state moves left by r columns, and back in the inverse |
| `AesTables.TableColumn` | platform/k210/kflash.py:215-219 | four T lookups and a key are SubBytes, ShiftRows, MixColumns and AddRoundKey of one column |
| `AesTables.InvTableColumn` | platform/k210/kflash.py:249-253 | the same for the inverse tables T5 to T8 |
| `AesTables.KeyTableColumn` | platform/k210/kflash.py:194-197 | four U lookups are InvMixColumns of one key word |
| `AesKeys.RconEntries` | platform/k210/kflash.py:102-103 | the round constants are the powers of x in GF(2^8) |
| `AesKeys.ShiftedWords` | platform/k210/kflash.py:157-161 | the shifted S lookups are SubWord of RotWord with the round constant added |
| `AesKeys.WindowWord` | platform/k210/kflash.py:154-180 | each word of a window of Nk words follows the recurrence of section 5.2, including the extra SubWord for 256-bit keys |
| `AesKeys.NextWindow` | platform/k210/kflash.py:156-180 | the in-place update of `tk` turns one window of the recurrence into the next |
| `AesKeys.Store` | platform/k210/kflash.py:182-188 | each word goes to its place in the encryption rows and to the mirrored place in the decryption rows |
| `AesKeys.InvertKeys` | platform/k210/kflash.py:190-197 | the inner decryption rows are replaced by their InvMixColumns, the outer ones kept |
| `AesKeys.ExpandKey` | platform/k210/kflash.py:127-197 | raises exactly for a key that is not 16, 24 or 32 bytes; otherwise 11, 13 or 15 rows hold the words of the recurrence, and the decryption rows them reversed through InvMixColumns |
| `AesCipher.KeyedWordsMatch` | platform/k210/kflash.py:210 | the compacted words with the first key are the state after AddRoundKey |
| `AesCipher.RoundMatches` | platform/k210/kflash.py:213-220 | the table round on four words is a FIPS 197 round |
| `AesCipher.InvRoundMatches` | platform/k210/kflash.py:247-254 | the inverse table round is a round of the equivalent inverse cipher |
| `AesCipher.LastRoundMatches` | platform/k210/kflash.py:222-231 | the byte-wise last round is the FIPS 197 final round |
| `AesCipher.InvLastRoundMatches` | platform/k210/kflash.py:256-265 | the same for decryption |
| `AesCipher.ExpandedSchedules` | platform/k210/kflash.py:127-197 | the two key schedules of an expanded key are related as section 5.3.5 demands |
| `AesCipher.Encrypt` | platform/k210/kflash.py:199-231 | raises exactly for a block that is not 16 bytes; otherwise the loop computes the FIPS 197 cipher |
| `AesCipher.Decrypt` | platform/k210/kflash.py:233-265 | the same for the equivalent inverse cipher |
| `AesCipher.DecryptInvertsEncrypt` | platform/k210/kflash.py:127-265 | for every valid key and block, decrypting the encrypted block gives it back |
| `AesVectors.AppendixB` | platform/k210/kflash.py:127-265 | under the key of FIPS 197 appendix B, the block given there is encrypted to the answer given there, and decrypted from it |
| `AesVectors.AppendixA2` | platform/k210/kflash.py:154-180 | the 24-byte key of appendix A.2 is followed by the words given there |
| `AesVectors.AppendixA3` | platform/k210/kflash.py:154-180 | the 32-byte key of appendix A.3 is followed by the words given there, the extra substitution included |
| `AesCbc.OpenCbc` | platform/k210/kflash.py:269-276 | raises exactly for a bad key or an initialisation vector of another length; without one the chain starts at zero |
| `AesCbc.Cbc.Encrypt` | platform/k210/kflash.py:279-286 | raises exactly for a wrong length, leaving the chain alone; otherwise one step of CBC encryption, and the ciphertext is the next chain block |
| `AesCbc.Cbc.Decrypt` | platform/k210/kflash.py:288-296 | the same for CBC decryption |
| `AesCbc.CbcEncryptAppend` | platform/k210/kflash.py:279-286 | encrypting one more block continues the chain from the last ciphertext |
| `AesCbc.CbcRoundTrip` | platform/k210/kflash.py:279-296 | CBC decryption from the same vector recovers any number of encrypted blocks |
| `AesCbc.CbcChains` | platform/k210/kflash.py:279-286 | every ciphertext block is the cipher of its plaintext block, byte by byte against the block before it |
| `AesCbc.FirmwarePadding` | platform/k210/kflash.py:1115-1116 | padding by fifteen zeros and dropping the rest pads to the next multiple of sixteen and no further |
| `AesCbc.EncryptFirmware` | platform/k210/kflash.py:1113-1116 | the block-wise loop is CBC encryption of the padded firmware from a zero vector |
| `AesCbc.SecretLength` | platform/k210/kflash.py:1116-1118 | the encrypted firmware is as long as the padded one |
| `AesCbc.FirmwareRoundTrip` | platform/k210/kflash.py:1113-1116 | decrypting the encrypted firmware gives the zero-padded firmware |
| `AesCbc.SecretChains` | platform/k210/kflash.py:1113-1116 | byte for byte: each block of the encrypted firmware is the cipher of sixteen bytes of the zero-padded firmware, from the second on against the sixteen bytes of the result before it |
| `Slip.TwoPassesEscapeOnce` | platform/k210/kflash.py:662-666 | the two replacement passes are a single-pass escape: the second never touches what the first inserted |
| `Slip.FrameBytes` | platform/k210/kflash.py:662-666 | the bytes on the line: 0xc0 on both sides, 0xc0 as 0xdb 0xdc, 0xdb as 0xdb 0xdd, every other byte as it is |
| `Slip.ReadByteInverts` | platform/k210/kflash.py:341-362 | after any accepted byte, what was read is the frames of the finished packets followed by the part under way |
| `Slip.ReadInverts` | platform/k210/kflash.py:329-362 | the same over any stream from any reader state |
| `Slip.ReadFrame` | platform/k210/kflash.py:329-362 | a frame is read as its packet, whatever its bytes, empty packets included |
| `Slip.SlipRoundTrip` | platform/k210/kflash.py:329-362 | a stream is read as the packets `ps`, ending between packets, if and only if it is their frames one after the other |
| `Slip.YieldedInverts` | platform/k210/kflash.py:329-362 | whatever the stream, what is yielded before an error are the packets whose frames, with the part under way, are the accepted bytes |
| `Slip.FrontOfFrames` | platform/k210/kflash.py:329-362 | any front part of frames is accepted and yields a front part of the packets |
| `Slip.SlipReader.Feed` | platform/k210/kflash.py:329-362 | one port read yields the packets finished before the first refused byte; it raises exactly for a refused byte or an empty read |
| `Slip.ReadChunks` | platform/k210/kflash.py:329-362 | any stream in any cuts into port reads: what is yielded and whether it raises depend only on the bytes before the first empty read; frames give back exactly their packets if and only if no read is empty, and otherwise a front part of them |
| `FlashChunks.Blocks` | platform/k210/kflash.py:479-481 | without an address inside a block the yielded slices are the cuts |
| `FlashChunks.LeadAndBlocks` | platform/k210/kflash.py:463-478 | with one, 4 KiB pieces up to the block boundary and then n-byte pieces, followed by an empty piece exactly if whole sectors end before the boundary |
| `FlashChunks.Chunks` | platform/k210/kflash.py:461-481 | raises exactly for size 0 or an address that is not sector-aligned in its block; otherwise yields the cuts, and the empty piece where it arises |
| `FlashChunks.CutsAreTheData` | platform/k210/kflash.py:461-481 | the cuts join back to the data and none is empty |
| `FlashChunks.CutSizes` | platform/k210/kflash.py:461-481 | a piece that goes to a multiple of n takes n bytes, any other 4 KiB, and no more than is left |
| `FlashChunks.ChunksJoinBack` | platform/k210/kflash.py:461-481 | all that is yielded joins back to the data |
| `FlashChunks.CutsStayInBlocks` | platform/k210/kflash.py:461-481 | no piece goes over an n-aligned flash address |
| `FlashChunks.CutsAreWholeSectors` | platform/k210/kflash.py:461-481 | every piece but the last is a whole number of sectors |
| `FlashChunks.AlignedIff` | platform/k210/kflash.py:464-466 | the alignment test accepts exactly the sector-aligned addresses |
| `FlashWriter.RequestIsStored` | platform/k210/kflash.py:1031-1037 | a request that arrives, unescaped and parsed by the board, stores its data at its address |
| `FlashWriter.RequestReads` | platform/k210/kflash.py:1032-1036 | the bytes of a request: operation 0xd4, the checksum of all that follows it, address and length little-endian, data |
| `FlashWriter.TryMeans` | platform/k210/kflash.py:1038-1051 | at most eleven attempts, which end well exactly if the port is open and one is answered with no silent one before it; the flash is as after one store however often the request was resent, and only success leaves the port open |
| `FlashWriter.ElevenAttempts` | platform/k210/kflash.py:1038-1051 | a request is sent at most eleven times, and is done exactly if one of them is heard |
| `FlashWriter.SendKeepsBelow` | platform/k210/kflash.py:1029-1052 | sending pieces to consecutive addresses changes nothing below the first |
| `FlashWriter.SendStoresIffLanded` | platform/k210/kflash.py:1029-1052 | after a completed run the flash is the old one with all pieces stored in a row if and only if each piece was stored by some attempt or stood there already |
| `FlashWriter.SendCompletesIff` | platform/k210/kflash.py:1029-1052 | for every line, a run completes if and only if the port is open, every address and length fits 32 bits, and every request is answered within eleven attempts with only garbled replies before |
| `FlashWriter.GarbledLineIsHeard` | platform/k210/kflash.py:1038-1051 | a line that is never silent and never garbles eleven replies in a row answers any number of requests |
| `FlashWriter.LostAnswerFails` | platform/k210/kflash.py:680-694 | if the first answer is lost the run fails, whatever the line would do later: the timeout closes the port and nothing opens it again |
| `FlashWriter.LostAnswerExample` | platform/k210/kflash.py:61-67 | the first answer lost and every later attempt stored and answered: the run fails |
| `FlashWriter.RefusalsComplete` | platform/k210/kflash.py:1041-1043 | if every answer reports an error the run completes and the flash is unchanged |
| `FlashWriter.FlashSendsPadded` | platform/k210/kflash.py:1135-1146 | an empty chunk makes the run fail; otherwise the padded chunks are sent to consecutive addresses |
| `FlashWriter.PaddedPieces` | platform/k210/kflash.py:1137-1140 | padding every piece to sectors is padding the whole image |
| `FlashWriter.PadMeans` | platform/k210/kflash.py:1137-1140 | zeros up to the next multiple of 4 KiB, and no further |
| `FlashWriter.ChunksFacts` | platform/k210/kflash.py:1126-1140 | the padded chunks of an image join to the padded image; an empty chunk arises exactly in the case above |
| `FlashWriter.FlashHoldsImage` | platform/k210/kflash.py:1101-1146 | after a completed run the flash from the offset holds the zero-padded image, and nothing else changed, if and only if all of it landed |
| `FlashWriter.FlashCompletesIff` | platform/k210/kflash.py:1101-1146 | for every line, a run completes if and only if the port is open, no chunk is empty, every address fits, and every request is heard |
| `FlashWriter.OneSectorFails` | platform/k210/kflash.py:1131-1146 | a one-sector image for the second sector always fails |
| `FlashWriter.BuildImage` | platform/k210/kflash.py:1107-1131 | raises exactly for a bad key or a length over 32 bits; otherwise the image reads as byte 0 or, with a key, 1, then a little-endian length, then so many bytes that are the firmware or its encryption, then the hash of all that; without a header it is the firmware |
| `FlashWriter.Loader.Exchange` | platform/k210/kflash.py:1041-1043 | a closed port sends nothing; otherwise the request is stored if it arrives, a timeout closes the port, and the result says whether it was answered |
| `FlashWriter.Loader.Persist` | platform/k210/kflash.py:1038-1051 | the retry loop is the specified sequence of attempts, and giving up closes the port |
| `FlashWriter.Loader.DumpToFlash` | platform/k210/kflash.py:1012-1052 | raises for size 0; otherwise sends the cuts of the data to consecutive addresses |
| `FlashWriter.Loader.WriteChunks` | platform/k210/kflash.py:1134-1146 | the writing loop is the specified run over the chunks |
| `FlashWriter.Loader.FlashFirmware` | platform/k210/kflash.py:1101-1146 | which inputs are written at all and which refusals close the port, what the image is, and that a completed run leaves the padded image in the flash exactly if it landed |
| `HeapTree.InitGood` | src/kernel/kernel_heap.cpp:39-57 | the initial tree is well formed, with caches no larger than the true free runs |
| `HeapTree.UpdateFills` | src/kernel/kernel_heap.cpp:84-126 | an update keeps the tree good and changes the units it denotes by exactly the fill, through unpushed marks and stale subtrees |
| `HeapTree.UpdatesFill` | src/kernel/kernel_heap.cpp:84-126 | after any sequence of updates the tree denotes exactly the array after those fills, with sound caches |
| `HeapTree.PushDownGood` | src/kernel/kernel_heap.cpp:84-104 | pushing a mark down keeps what the tree denotes |
| `HeapTree.PushUpGood` | src/kernel/kernel_heap.cpp:18-37 | recomputed caches never exceed the true free runs |
| `HeapTree.FindInRange` | src/kernel/kernel_heap.cpp:59-82 | the search answers -1 or a unit of the heap |
| `HeapTree.FindIsFree` | src/kernel/kernel_heap.cpp:59-82 | on a good tree with an unmarked root the search answers -1 or the start of a run of free units of the requested size |
| `HeapTree.InitFind` | src/kernel/kernel_heap.cpp:59-82 | on a fresh heap the search answers the first unit for any size up to the whole |
| `HeapSearch.SearchIff` | src/kernel/kernel_heap.cpp:59-82 | on a tree whose nodes promise no more than their sons keep, the search succeeds exactly up to what the root promises, and answers in the left half if it says it has room, else in the right half, else across the middle |
| `HeapSearch.RequestSucceedsIff` | src/kernel/kernel_heap.cpp:140-153 | after any requests without a release between them, the next one succeeds exactly up to what the root promises, and whenever a range that halving the heap leads to is free and large enough |
| `HeapSearch.TwoRequests` | src/kernel/kernel_heap.cpp:140-153 | on a fresh heap a request for at most the left half gets unit 0, and then one for at most the right half gets units behind it |
| `HeapSearch.FreshRightSon` | src/kernel/kernel_heap.cpp:72-75 | without room on the left and with a fresh right son the answer is the first unit of that son |
| `HeapSearch.PushUpExact` | src/kernel/kernel_heap.cpp:18-37 | caches recomputed from exact sons are exact: the longest free runs at both ends and anywhere |
| `HeapSearch.UpdateKeepsExact` | src/kernel/kernel_heap.cpp:106-126 | an update of a tree with exact caches leaves all nodes in use exact |
| `HeapSearch.SearchMissesNothing` | src/kernel/kernel_heap.cpp:59-82 | on an honest tree with exact caches the search succeeds if and only if a free run is long enough |
| `HeapSearch.FreshCaches` | src/kernel/kernel_heap.cpp:46-55 | a fresh node knows that all of it is free, but of its borders only the sizes of its halves |
| `HeapSearch.WholeHeapLost` | src/kernel/kernel_heap.cpp:39-57 | on any heap of four units or more, after a block of the left half was taken and released, all is free but a request for all fails |
| `HeapSearch.RestLost` | src/kernel/kernel_heap.cpp:39-57 | after one block of less than the left half the rest is free but a request for the rest fails |
| `HeapSearch.DeadEnd` | src/kernel/kernel_heap.cpp:106-119 | on any heap of eight units or more, after two blocks were taken and released in turn, all is free but a request for the left half fails: the search enters a node whose split caches are stale |
| `HeapRuns.FreshValid` | src/kernel/kernel_heap.cpp:130-138 | a fresh heap is valid: no live block, all units free |
| `HeapRuns.AllocInRange` | src/kernel/kernel_heap.cpp:140-153 | whatever the request, the answer is -1 or a unit of the heap |
| `HeapRuns.AllocKeepsValid` | src/kernel/kernel_heap.cpp:140-153 | while no block covers the whole heap, a positive request fails and changes nothing, or gets units in bounds that no live block holds |
| `HeapRuns.ReleaseKeepsValid` | src/kernel/kernel_heap.cpp:155-159 | releasing a live block frees exactly its units |
| `HeapRuns.RunsKeepBlocksApart` | src/kernel/kernel_heap.cpp:140-159 | over every run of requests that come to a positive count, none of them while one block covers the whole heap, the live blocks are in bounds, pairwise disjoint, and exactly the taken units |
| `HeapRuns.CountCoversIff` | src/kernel/kernel_heap.cpp:141 | with the sum at 64 bits and the count an int, the units cover the bytes requested if and only if these are at most 0x7fffffff0 |
| `HeapRuns.AllocServesIff` | src/kernel/kernel_heap.cpp:140-153 | a request that succeeds gets units of its own, and as many bytes as requested if and only if these are at most 0x7fffffff0 |
| `HeapRuns.CutOffExample` | src/kernel/kernel_heap.cpp:141-151 | a request for 0x1000000010 bytes gets one unit |
| `HeapRuns.AllocApartIff` | src/kernel/kernel_heap.cpp:111-119 | in every valid heap, a request that succeeds is apart from the live blocks if and only if none of them covers the whole heap |
| `HeapRuns.SecondBlockApartIff` | src/kernel/kernel_heap.cpp:111-119 | after a first request of any size, a second of any size stays off its block if and only if the first did not cover the whole heap |
| `HeapRuns.EmptyRequestIff` | src/kernel/kernel_heap.cpp:140-153 | a request that comes to a count of zero or less gets unit 0; the books stay exact if and only if no block lives there and the count is not the lowest int |
| `HeapRuns.EmptyRequestExamples` | src/kernel/kernel_heap.cpp:141 | sizes that come to such counts: 0, 32 GiB, sixteen bytes more, and the largest size |
| `HeapArray.KernelHeap.PushUp` | src/kernel/kernel_heap.cpp:18-37 | the array version recomputes the caches of one node and touches no other |
| `HeapArray.KernelHeap.PushDown` | src/kernel/kernel_heap.cpp:84-104 | the array version pushes the mark of a node to its children and touches nothing outside its subtree |
| `HeapArray.KernelHeap.UpdateNode` | src/kernel/kernel_heap.cpp:106-126 | the recursive update in the node array is the update of the tree it holds |
| `HeapArray.KernelHeap.FindSpaceAt` | src/kernel/kernel_heap.cpp:59-82 | the recursive search in the node array is the search of the tree it holds |
| `HeapArray.KernelHeap.InitPages` | src/kernel/kernel_heap.cpp:39-57 | initialisation stays inside the node array and builds the initial tree |
| `HeapArray.ChildrenFit` | src/kernel/kernel_heap.cpp:5 | four nodes per unit are enough: both children of an inner node have indices in the array |
| `HeapArray.KernelHeap.constructor` | src/kernel/kernel_heap.cpp:130-138 | the initialised arrays hold a fresh, valid heap |
| `HeapArray.KernelHeap.Malloc` | src/kernel/kernel_heap.cpp:140-153 | the arrays hold the heap after the specified allocation, the address returned is that of the unit found, or -1, and the counter of requested bytes grows by the product as an int either way |
| `HeapArray.KernelHeap.Release` | src/kernel/kernel_heap.cpp:155-159 | the arrays hold the heap after the specified release |
| `Scheduler.FirstSignalled` | src/kernel/scheduler.cpp:512-517 | the first blocked process with a pending signal, if any |
| `Scheduler.IndexOf` | src/kernel/scheduler.cpp:24-47 | the first position of a pid in a list, if any |
| `SchedulerSafety.ScheduleInv` | src/kernel/scheduler.cpp:533-577 | whatever the scheduler picks is what the history demands, and the resumed state satisfies the invariant |
| `SchedulerSafety.WakeInv` | src/kernel/scheduler.cpp:512-531 | waking a blocked process hands it its oldest signal and keeps the invariant |
| `SchedulerSafety.CloneInv` | src/kernel/scheduler.cpp:108-175 | a clone keeps the invariant: fresh pid, parent resumed with it, child queued with result 0, its own stack and, on fork, its own page table |
| `SchedulerSafety.WaitInv` | src/kernel/scheduler.cpp:579-602 | both paths of a wait keep the invariant |
| `SchedulerSafety.ExitInv` | src/kernel/scheduler.cpp:501-508 | an exit keeps the invariant: one signal with its code to the parent if it lives, then the next process |
| `SchedulerSafety.RequeueInv` | src/kernel/scheduler.cpp:454-481 | the three yields keep the invariant |
| `SchedulerSafety.KillSelfBreaks` | src/kernel/syscall.cpp:608-627 | a kill aimed at the running process resumes in a state that breaks the accounting |
| `SchedulerSafety.KillKeepsInvIff` | src/kernel/syscall.cpp:608-627 | a kill keeps the invariant if and only if it is not aimed at the running process |
| `SchedulerSafety.StepKeepsInv` | src/kernel/syscall.cpp:826-830 | every step but that kill keeps the invariant, from trap to resume |
| `SchedulerSafety.RunsKeepInv` | src/kernel/scheduler.cpp:92-175 | every state reached by a run from boot satisfies the invariant |
| `SchedulerSafety.RunsAreSafe` | src/kernel/scheduler.cpp:501-619 | over every run the history is correct: each resume is of the process whose turn it is, with the registers its birth or last trap demands; each death follows directly on the exit with that code, or on the kill with code 1; each child has the registers, stack and page table of a clone; the status of a wait is written exactly before it wakes; each process ever born is in exactly one place once or died once, no pid is reused, and the fast pid is the running one |
| `SchedulerSafety.ParentsComeFirst` | src/kernel/scheduler.cpp:49-51 | in every reached state a live process has a larger pid than the parent it was born to, and no pid beyond the counter exists |
| `SchedulerSafety.SignalsAreConserved` | src/kernel/scheduler.cpp:579-619 | for every live process, the pids its waits returned followed by its pending signals are its dead children in order of death, each once |
| `SchedulerUnique.NextIsUnique` | src/kernel/scheduler.cpp:92-619 | after any history at most one event may follow that is not a trap, and none besides a trap |
| `SchedulerUnique.HistoriesAgree` | src/kernel/scheduler.cpp:92-619 | two correct histories with the same requests never part |
| `SchedulerUnique.RunTakesInputs` | src/kernel/scheduler.cpp:92-577 | a run takes its inputs in order, all of them unless the machine stops |
| `SchedulerUnique.RunsAreDetermined` | src/kernel/scheduler.cpp:92-619 | the history of a run is the one correct history with its requests: every other is the beginning of it |
| `SchedulerStarts.ScheduleKeepsPlan` | src/kernel/scheduler.cpp:533-577 | whatever the scheduler does, the programs started so far followed by those still to start stay the same |
| `SchedulerStarts.RunsStartOneTest` | src/kernel/scheduler.cpp:563-574 | over every run, however it ends: without programs the machine shuts down at once; otherwise exactly one program is started without a parent, the first, with its own stack and registers, and the others are left for the next boot |
| `SchedulerFairness.StepRank` | src/kernel/scheduler.cpp:533-577 | no step moves a queued process back, and the dispatches left before it is served grow only by terminations |
| `SchedulerFairness.BoundedWaiting` | src/kernel/scheduler.cpp:454-577 | while a process stays queued from position k, there are at most k dispatches plus the signals then pending plus the terminations since |
| `SchedulerFairness.FewOverlooks` | src/kernel/scheduler.cpp:510-545 | however a run ends, the choices that pass over a live waiting process with a child to report, counted from the history, all lie among the first 101 since the machine was switched on |
| `SchedulerFairness.DeadLoopIff` | src/kernel/scheduler.cpp:533-577 | one call of the scheduler panics exactly if something is blocked, nothing is runnable and no blocked process has a signal |
| `SchedulerEnds.RunsEndIff` | src/kernel/scheduler.cpp:533-577 | over every run, told from the history alone: it ends in the dead-loop panic if and only if some process is alive and every live one is in a wait that has nothing left to report, in a reboot if and only if nobody is alive any more, and in a shutdown if and only if there was no program |
| `SchedulerBoots.BootsStartTheTests` | src/kernel/scheduler.cpp:563-574 | over the whole life of a machine, boot after boot: the boots start the given programs in order, one each, and after the last of them one more boot shuts the machine down |
| `SchedulerBoots.FewOverlooksEver` | src/kernel/scheduler.cpp:510-545 | over all boots together at most 101 choices pass over a live waiting process with a child to report |
| `SchedulerBoots.PidsNeverReused` | src/kernel/scheduler.cpp:49-51 | a pid of a later boot is larger than any pid of an earlier one |
| `SchedulerKernel.AccountedApart` | src/kernel/scheduler.cpp:24-47 | in an accounted state no pid is in two places, so a search finds the one process |
| `SchedulerKernel.Kernel.SearchByPid` | src/kernel/scheduler.cpp:24-47 | finds the process with the pid and the list it is in, or reports that none has it |
| `SchedulerKernel.Kernel.KillProcess` | src/kernel/scheduler.cpp:604-619 | the exit record reaches the parent, wherever that is, and no other process changes |
| `SchedulerKernel.Kernel.TryToUnfreeze` | src/kernel/scheduler.cpp:512-531 | wakes the first blocked process with a signal, if there is one, and otherwise changes nothing |
| `SchedulerKernel.Kernel.Schedule` | src/kernel/scheduler.cpp:533-577 | the objects end in the state the specification picks, whether a process is resumed or the machine stops |
| `SchedulerKernel.Kernel.AddProcess` | src/kernel/scheduler.cpp:427-451 | a new process gets the next pid and goes to the tail of the run queue |
| `SchedulerKernel.Kernel.CopyContext` | src/kernel/scheduler.cpp:112-163 | the child registers are the parent registers with result 0, past the call, its own stack pointer and, on fork, its own page table |
| `SchedulerKernel.Kernel.Clone` | src/kernel/scheduler.cpp:108-175 | the objects end in the state of a specified clone |
| `SchedulerKernel.Kernel.Yield` | src/kernel/scheduler.cpp:473-481 | saves the registers past the call, requeues, and schedules |
| `SchedulerKernel.Kernel.RawYield` | src/kernel/scheduler.cpp:464-471 | the same with the program counter unchanged |
| `SchedulerKernel.Kernel.YieldWithReturn` | src/kernel/scheduler.cpp:454-462 | the same with a result |
| `SchedulerKernel.Kernel.Wait` | src/kernel/scheduler.cpp:579-602 | returns the oldest signal at once, or blocks and schedules |
| `SchedulerKernel.Kernel.ExitProcess` | src/kernel/scheduler.cpp:501-508 | notifies the parent, drops the process and schedules |
| `SchedulerKernel.Kernel.SysKill` | src/kernel/syscall.cpp:608-627 | finds the victim, notifies its parent with code 1 and takes it out of its list; -1 if there is none |
| `SchedulerKernel.Kernel.constructor` | src/kernel/scheduler.cpp:92-106 | the booted kernel is the initial state, with the pid and dispatch counters of the boots before |
| `SchedulerKernel.Kernel.HandleTrap` | src/kernel/syscall.cpp:826-830 | one trap takes the objects to the state after one specified step, and any process object it adds is new |
| `SchedulerKernel.RunKernel` | src/kernel/scheduler.cpp:92-577 | a booted kernel fed any legal list of traps ends in the state of the run, however the run ends; when it resumes, the history is correct, the fast pid is the running one and no two process objects share a pid |
| `UserStack.DecodeEncode` | src/kernel/scheduler.cpp:193-200 | a word written little-endian is read back |
| `UserStack.WordBytes` | src/kernel/scheduler.cpp:193-200 | a word of memory is its eight bytes, the lowest first |
| `UserStack.LayoutReadsBack` | src/kernel/scheduler.cpp:202-228 | in a page with the printed layout the walk from the final stack pointer meets argc, the arguments, a zero, the environment, a zero and the auxiliary pairs up to the null entry |
| `UserStack.StringInPage` | src/kernel/scheduler.cpp:185-191 | every copied string stands, terminated, at the address recorded for it, whatever is pushed later |
| `UserStack.AuxDescribes` | src/kernel/scheduler.cpp:366-387 | looking an id up in the auxiliary vector gives the program headers under 3 to 5, the page size under 6, the entry under 9, the random bytes under 25, the file name under 31, and the constants under the others |
| `UserStackBuilder.StackPage.CopyToStack` | src/kernel/scheduler.cpp:185-191 | the bytes go directly below what is there, and nothing else changes |
| `UserStackBuilder.StackPage.PutAux` | src/kernel/scheduler.cpp:193-196 | the pairs are pushed value first, in order |
| `UserStackBuilder.StackPage.PutPointers` | src/kernel/scheduler.cpp:198-200 | the words are pushed in order below what is there |
| `UserStackBuilder.StackPage.PrepareStrings` | src/kernel/scheduler.cpp:338-362 | file name, environment and arguments are copied, with their addresses recorded and the pointer aligned to 16 |
| `UserStackBuilder.StackPage.PrepareWords` | src/kernel/scheduler.cpp:363-407 | auxiliary vector, environment pointers, argument pointers and argc are pushed in the specified order |
| `UserStackBuilder.StackPage.Prepare` | src/kernel/scheduler.cpp:318-407 | the page ends with exactly the specified layout, all writes inside it, its words pushed from a multiple of sixteen |
| `UserStackBuilder.WordsStartAligned` | src/kernel/scheduler.cpp:362 | the words are pushed from the next multiple of sixteen below the strings |
| `UserStackBuilder.ReadString` | src/kernel/scheduler.cpp:202-228 | reading at a string address gives the string |
| `UserStackBuilder.ReadUntilZero` | src/kernel/scheduler.cpp:211-214 | the environment loop reads exactly the strings before the zero |
| `UserStackBuilder.ReadPairs` | src/kernel/scheduler.cpp:217-226 | the auxiliary loop reads exactly the pairs before the null entry |
| `UserStackBuilder.CheckStack` | src/kernel/scheduler.cpp:202-228 | the walk returns argc, arguments, environment and auxiliary pairs of any page that reads as them |
| `UserStackBuilder.PrepareAndCheck` | src/kernel/scheduler.cpp:202-407 | building a stack and walking it gives argc = n + 1, the file name and the arguments in order, the environment reversed, and an auxiliary vector that describes the program; the string its file name entry points to is the file name |
| `UserStackBuilder.PrepareProcess` | src/kernel/scheduler.cpp:322-407 | the same with the environment every process gets |
| `PathSpec.SlashedIsResolved` | src/kernel/syscall.cpp:119-159 | every joined path that starts with a slash is resolved correctly |
| `PathSpec.UnslashedIsResolvedIff` | src/kernel/syscall.cpp:119-159 | any other nonempty joined path is resolved correctly if and only if it leads to the root or to an error |
| `PathSpec.RelativeWithoutCwdFails` | src/kernel/syscall.cpp:102-117 | the relative path `a` without a working directory comes out as `a/a` |
| `PathSpec.ResolvedIsFixed` | src/kernel/syscall.cpp:90-162 | a resolved path has no empty, "." or ".." component, is the print of its components, and resolves to itself |
| `PathSpec.NothingChanges` | src/kernel/syscall.cpp:119-137 | a doubled slash and a dot component change nothing wherever they stand, and a path that has failed stays failed |
| `PathSpec.DownAndUp` | src/kernel/syscall.cpp:131-148 | a name is appended to the resolved path, at most fifteen deep; a name followed by two dots changes nothing; two dots at the root fail |
| `PathSpec.ResolveInSteps` | src/kernel/syscall.cpp:362-374 | for every p that resolves, changing to p and resolving the relative q there means the same as resolving q against p in one step; the code gives the same both ways if and only if p is empty or starts with a slash, or the path leads to the root or to an error |
| `PathSpec.AbsoluteForItself` | src/kernel/syscall.cpp:102-117 | a path that starts with a slash is resolved for itself, whatever the working directory |
| `PathSpec.RelativeGoesOn` | src/kernel/syscall.cpp:102-117 | any other path goes on from an absolute working directory |
| `PathSpec.JoinedUnits` | src/kernel/syscall.cpp:102-117 | the components of a joined path are those of the directory followed by those of the path |
| `PathSpec.FoldConcat` | src/kernel/syscall.cpp:131-148 | folding two component lists in turn is folding their concatenation |
| `PathBuffer.Resolver.Join` | src/kernel/syscall.cpp:101-117 | the buffer holds the joined path, terminated |
| `PathBuffer.Resolver.StrSep` | src/kernel/syscall.cpp:45-80 | cuts the buffer at the next slash and returns the token before it |
| `PathBuffer.Resolver.CutUnits` | src/kernel/syscall.cpp:119-128 | the unit table holds exactly the nonempty tokens, in order, while the buffer is cut in place |
| `PathBuffer.Resolver.FoldUnits` | src/kernel/syscall.cpp:131-148 | the component stack is the fold, or the failure it reports |
| `PathBuffer.Resolver.PrintUnits` | src/kernel/syscall.cpp:150-153 | the components are printed after what the cut buffer still spells |
| `PathBuffer.ResultFits` | src/kernel/syscall.cpp:150-159 | the reprinted path never outgrows the 512-byte buffer |
| `PathBuffer.Resolver.GetAbsolutePath` | src/kernel/syscall.cpp:90-162 | for every joined path with room and at most 16 components the result is null exactly if the fold fails, and otherwise the printed fold, in the same buffer |
| `PageTables.SameSlot` | src/lib/stl/PageTableUtil.h:249-259 | two addresses share a slot of the table exactly if their page numbers agree in 27 bits |
| `PageTables.AddressSpace.CreateMapping` | src/lib/stl/PageTableUtil.h:64-110 | the walk down the three levels is the specified mapping, or a panic |
| `PageTables.CreatePanicsIff` | src/lib/stl/PageTableUtil.h:69-104 | a mapping panics if and only if it is for page 0 or lies inside a gigabyte leaf |
| `PageTables.CreateMeans` | src/lib/stl/PageTableUtil.h:81-109 | a page mapping fills its slot if that is empty, and changes nothing else: an entry that is there stays |
| `PageTables.CreateHugeMeans` | src/lib/stl/PageTableUtil.h:82-86 | a gigabyte mapping where the first level is empty covers exactly its gigabyte |
| `PageTables.InitPageTable` | src/lib/stl/PageTableUtil.h:26-62 | the six mappings give the table every process starts with |
| `PageTables.InitialMeans` | src/lib/stl/PageTableUtil.h:26-62 | which addresses of the first 512 GiB that table maps, and for which a mapping panics |
| `ElfLoader.ReadAt` | src/kernel/elf_loader.cpp:89-94 | reads up to the end of the file; the rest of the buffer stays zero |
| `ElfLoader.CopyFits` | src/kernel/elf_loader.cpp:80-94 | whatever wraps, a copy stays inside the page buffer |
| `ElfLoader.FillPage` | src/kernel/elf_loader.cpp:71-95 | the buffer holds the page that the wrapping arithmetic describes, for all 64-bit fields |
| `ElfLoader.LoadPages` | src/kernel/elf_loader.cpp:71-102 | the pages from start to end are bound in order, to text or data, up to the first one that panics |
| `ElfLoader.LoadSegment` | src/kernel/elf_loader.cpp:60-102 | a segment of another type or without file bytes binds nothing; any other binds its pages, or panics |
| `ElfLoader.LoadElf` | src/kernel/elf_loader.cpp:58-103 | all segments are bound in order into the table the process has, or the load panics |
| `ElfLoader.PagesAreTheCover` | src/kernel/elf_loader.cpp:63-67 | without overflow the bound pages are the least cover: exactly those that meet the memory part |
| `ElfLoader.PageHoldsSegmentIff` | src/kernel/elf_loader.cpp:71-95 | without overflow a page holds the file bytes inside the file part and zero elsewhere if and only if its file position does not underflow, or those bytes are all zero |
| `ElfLoader.UnderflowExample` | src/kernel/elf_loader.cpp:80-88 | a one-byte segment at address 0x1001 and offset 0 is lost |
| `ElfLoader.CongruentNeverUnderflows` | src/kernel/elf_loader.cpp:80-88 | with the offset congruent to the address modulo the page size no page underflows |
| `ElfLoader.TextAndData` | src/kernel/elf_loader.cpp:97-101 | a load is the binding of all pages in order; the text pages listed are those of the segments that are not writable, the data pages those of the others, in order |
| `ElfLoader.BindMeans` | src/kernel/memory/elf_control.cpp:5-14 | binding any list of pages panics exactly if one of them is barred; otherwise what was mapped stays, and in every other slot the first page of the list stands |
| `ElfLoader.LoadPanicsIff` | src/lib/stl/PageTableUtil.h:69-104 | for every table and program, a load panics if and only if some page of some segment is barred |
| `ElfLoader.ProgramPanicsIff` | src/lib/stl/PageTableUtil.h:26-62 | in the table every process starts with, a program of the first 512 GiB panics if and only if it has a page below 0x1000 or between 1 and 3 GiB |
| `ElfLoader.LoadedPage` | src/kernel/elf_loader.cpp:59-103 | what was mapped before stays; each other page of the process is that of the first segment that owns it, and a page without an owner is not mapped |
| `ElfLoader.PageStandsIff` | src/lib/stl/PageTableUtil.h:106-109 | a segment's page stands at an address it owns if and only if nothing was mapped there and no earlier segment owns it, or what stands there has the same bytes |
| `ElfLoader.HomeIsPage` | src/lib/stl/PageTableUtil.h:249-259 | inside the first 512 GiB a segment owns exactly the addresses of its own pages; beyond that addresses share slots |
| `ElfLoader.LoadedByte` | src/kernel/elf_loader.cpp:59-103 | every address not mapped before reads as its first owner means it, or as zero if that page underflows |
| `ElfLoader.ProgramByte` | src/kernel/elf_loader.cpp:59-103 | for a congruent segment, an address whose page no earlier segment has reads as the byte of the file at the same distance from the offset, and as zero behind the file part or the end of the file |
| `ElfLoader.SharedPageExample` | src/kernel/elf_loader.cpp:97-101 | text and data in one page, both congruent: the data read as zero |
| `ElfLoader.ForkControl` | src/kernel/memory/elf_control.cpp:52-62 | a fork binds the text pages and then the data pages of its parent into its own table |
| `ElfLoader.ForkedPage` | src/kernel/memory/elf_control.cpp:52-62 | a fork of a loaded program never panics; in the child text pages come before data pages, whatever order they were loaded in |
| `ElfLoader.ForkSeesSameIff` | src/kernel/memory/elf_control.cpp:52-62 | parent and child have the same page at an address if and only if it was mapped from the start, its first owner is read-only, or the first read-only owner's page, if any, has the same bytes |
| `ElfLoader.ForkSwapsExample` | src/kernel/memory/elf_control.cpp:52-62 | data before text in one page: the parent has the data page, its child the text page |
| `SdCard.FrameExecutes` | src/driver/sdcard.c:45-55 | the six bytes of a command frame make a listening card execute that command with that argument |
| `SdCard.FrameBytes` | src/driver/sdcard.c:45-55 | the six bytes: the command with its start bits, the argument from the highest byte down, the checksum |
| `SdCard.FrameIsMissed` | src/driver/sdcard.c:45-55 | a card that is busy for the whole frame executes nothing, and a status request is missed however soon the card gets ready |
| `SdCard.ReadingStoresNothing` | src/driver/sdcard.c:33-36 | reading any number of bytes never changes what a card holds, unless it is taking data |
| `SdCard.BlockStored` | src/driver/sdcard.c:394-397 | after the token, 512 bytes and a checksum make the card store exactly those bytes, accept them and be busy |
| `SdTransfers.SectorBlock` | src/driver/sdcard.c:336-340 | the address computed for a sector names its block, on byte-addressed and block-addressed cards |
| `SdTransfers.ResponseTaken` | src/driver/sdcard.c:84-96 | an answer within 255 polls is returned and consumed; of a later one the rest stays to come |
| `SdTransfers.ReadMeans` | src/driver/sdcard.c:343-365 | the polling loops of a read in closed form, for every delay: what is read and what the card is after it, also for a card that is busy and misses the command |
| `SdTransfers.DeliveredIff` | src/driver/sdcard.c:347-363 | a read from a listening card gives the sector if and only if the token comes before the poll limit, or the sector is the one echo of the wait for it |
| `SdTransfers.InTimeIff` | src/driver/sdcard.c:84-96 | in time means: 255 polls for the response, and the token within 0xfffffe polls, less what the response is late |
| `SdTransfers.LateReadExample` | src/driver/sdcard.c:354-363 | a token one poll too late: a sector of zeros is read with the token in it |
| `SdTransfers.StatusMeans` | src/driver/sdcard.c:422-434 | the status request in closed form: no error is seen exactly if the answer is in time, or the card is busy for all of it |
| `SdTransfers.WriteMeans` | src/driver/sdcard.c:387-421 | command, block and both waiting loops of a write in closed form, for every delay: what the card holds and how long it stays busy |
| `SdTransfers.WriteLandsIff` | src/driver/sdcard.c:387-398 | a sector written to a listening card holds the data if and only if the response came in time, or it held them before and the late card found no token |
| `SdTransfers.AtRestIff` | src/driver/sdcard.c:400-421 | after a timely response the card listens again if and only if it accepted and finished programming within the waits, the status request included |
| `SdTransfers.PromptWrite` | src/driver/sdcard.c:371-438 | a card within all four poll limits holds exactly the sector written and listens again |
| `SdTransfers.LateWriteExample` | src/driver/sdcard.c:387-397 | a response one poll too late: zeros are not stored at all |
| `SdTransfers.ShiftedWriteExample` | src/driver/sdcard.c:387-397 | the same, and data that start with the token byte are stored shifted by one |
| `SdTransfers.NextWriteIsLost` | src/driver/sdcard.c:400-434 | a card still busy when the driver gives up loses the next write, and the status request sees no error |
| `SdTransfers.SlowCardExample` | src/driver/sdcard.c:412-421 | programming that takes four times the poll limit: the second of two writes is lost |
| `SdDriver.Bus.SendCommand` | src/driver/sdcard.c:45-55 | the card is the one after the six bytes of the frame, whether it listens or not |
| `SdDriver.Bus.Response` | src/driver/sdcard.c:84-96 | polls until a byte other than silence, at most 255 times |
| `SdDriver.Bus.AwaitToken` | src/driver/sdcard.c:354-361 | polls until the start token, up to its limit |
| `SdDriver.Bus.AwaitAccepted` | src/driver/sdcard.c:400-411 | polls until the acceptance of the block, up to its limit |
| `SdDriver.Bus.AwaitReady` | src/driver/sdcard.c:412-420 | polls until the card is no longer busy, up to its limit |
| `SdDriver.Bus.WriteBlock` | src/driver/sdcard.c:394-397 | the card is the one after token, data and checksum |
| `SdDriver.Driver.ForceBlockLength` | src/driver/sdcard.c:243-256 | succeeds exactly if one of 254 answers is in time and without an error |
| `SdDriver.Driver.CheckBlockSize` | src/driver/sdcard.c:219-269 | if it succeeds the driver knows how the card is addressed; a block-addressed card makes it succeed exactly if one of 255 answers is in time and without an error, a byte-addressed one exactly if one of the 254 after the first such answer is too |
| `SdDriver.Driver.Initialize` | src/driver/sdcard.c:304-325 | on a card in time the sector size and the block size are the ones the boot sector names |
| `SdDriver.Driver.ReadSector` | src/driver/sdcard.c:327-369 | nothing is stored on any card; a card that listens, or is busy for the whole command, is afterwards exactly the specified one, and the buffer gets exactly what is delivered |
| `SdDriver.Driver.WriteSector` | src/driver/sdcard.c:371-438 | for every delay, a card that listens, or is busy for the whole write, is afterwards exactly the specified one; any card keeps its kind and size |
| `SdDriver.Driver.CheckStatus` | src/driver/sdcard.c:422-434 | the card is afterwards exactly the specified one, and an error is seen exactly as specified |
| `Disk.ReadFromCard` | src/driver/fatfs/diskio.c:85-115 | another drive number is a parameter error that changes nothing; otherwise, from a card within the poll limits, the buffer gets exactly the run of sectors |
| `Disk.WriteToCard` | src/driver/fatfs/diskio.c:125-156 | another drive number or no sectors is a parameter error that changes nothing; otherwise, on a card within the poll limits, exactly the run of sectors changes and the card listens again |
| `Disk.ReadFromImage` | src/driver/fatfs/diskio.c:101-106 | the same as from the card, from the memory image |
| `Disk.WriteToImage` | src/driver/fatfs/diskio.c:142-147 | the same as to the card, to the memory image |
| `Disk.SectorHoldsLastWrite` | src/driver/fatfs/diskio.c:85-156 | after any run of requests a sector holds the data of the last write that covers it, or what it held before |
| `Disk.ReadSeesLastWrites` | src/driver/fatfs/diskio.c:85-156 | a read after any run gives, sector by sector, what was last written there |
| `Disk.RunOnCard` | src/driver/fatfs/diskio.c:85-156 | every run of reads and writes on a card of either kind, within the poll limits for response, token, acceptance and busy time, gives the replies and the contents of a flat array |
| `Disk.RunBoth` | src/driver/fatfs/diskio.c:85-156 | any run on such a card and on its image gives the same replies and leaves the same contents |
| `Spi.FrameHoldsBits` | src/driver/spi.c:95-102 | for the bit length the control register holds less one, the frame is the narrowest of 1, 2 and 4 bytes that holds so many bits |
| `Spi.FramesAre` | src/driver/spi.c:148-161 | frame number k is made of the bytes from k times the width on, the lowest first |
| `Spi.RoomMeans` | src/driver/spi.c:142-183 | a round takes whole frames, no more than are left and no more than the 32 entries have room for, and another would be too many |
| `Spi.RoundMeans` | src/driver/spi.c:140-186 | whatever drains, a round keeps the queue within its 32 entries and pushes exactly the next frames |
| `Spi.RoundsPushInOrder` | src/driver/spi.c:140-186 | after any number of rounds the pushed frames are those of the front of the buffer, once and in order |
| `Spi.RoundsFinish` | src/driver/spi.c:140-186 | with a draining queue and whole frames the loop ends |
| `Spi.SendEndsIff` | src/driver/spi.c:140-186 | with a draining queue the loop ends if and only if the length is a multiple of the frame width |
| `Spi.Controller.WriteCopied` | src/driver/spi.c:148-156 | the copying branch pushes the frames, whatever stale bytes the local word holds |
| `Spi.Controller.WriteAligned` | src/driver/spi.c:157-161 | the aligned branch pushes the same frames, never into a full queue |
| `Spi.Controller.SendRound` | src/driver/spi.c:140-186 | one pass of the loop is one specified round, on either branch |
| `Spi.Controller.Flush` | src/driver/spi.c:187-188 | waits until the queue is empty |
| `Spi.Controller.SendData` | src/driver/spi.c:104-191 | the frames of the buffer leave in order after what was queued, for every width, alignment and draining |

## Left out

- PathBuffer.Resolver.GetAbsolutePath: requires a joined path below 512 characters with at most 16 components, and no working directory when the path is null; beyond that the source writes past its static buffers or reads through null.
- HeapSearch.RequestSucceedsIff: for runs without a release; after one a node's split caches may be stale, and only the searches of `HeapSearch.SearchIff` and the failures shown are stated.
- UserStackBuilder.StackPage.Prepare: requires that strings and words fit the page; beyond that the source writes below it.
- SchedulerKernel.Kernel.HandleTrap: execve is an exit with code 0, because the source exits before it looks at the path; a page fault is an exit with code 1; other system calls are one step that returns a result; causes that shut the machine down are not modelled.
- SchedulerKernel.Kernel.KillProcess: the release of the stack page and of the saved registers is not modelled; a clone with its own stack pointer shares its parent's page, so that release is not exclusive.
- SchedulerFairness.FewOverlooks: the dispatch counter is unbounded; in the source it is an int that would overflow after 2^31 dispatches.
- FlashWriter.Loader.FlashFirmware: a cancellation from another thread, progress output and timing are not modelled; the board is modelled as storing each request it receives, byte by byte.
- ElfLoader.LoadElf: starts from the program headers; reading and checking the file header, and disk errors, are not modelled.
- ElfLoader.PageHoldsSegmentIff: requires that no sum of the segment's fields leaves 64 bits, or 32 bits for file positions.
- SdDriver.Driver.ReadSector: requires a sector that the card has; for a card that gets ready in the middle of the command frame only its contents, kind and size are stated, because it takes the rest of the frame for another command; the messages printed on errors are not modelled.
- SdDriver.Driver.WriteSector: requires a sector that the card has; for a card that gets ready in the middle of the write only its kind and size are stated, because it takes data bytes for commands.
- SdDriver.Driver.Initialize: the first steps of initialisation (reset, voltage check, ready loop) are not modelled: each is one command and a comparison of its answer.
- Disk.ReadFromCard: requires a card within the poll limits, the sector size 512 and sectors that the card has; what a card beyond them does is stated for single sectors.
- Disk.WriteToCard: likewise.
- Spi.Controller.SendData: requires fewer than 2^32 bytes, so that the 32-bit index does not wrap, and whole frames, because the source loops forever otherwise; the status register is read as the queue being empty.
- Pins, clocks, timers, interrupt controller and their register tables: each function writes one constant or one field.
- Vector, List, Map and reference counts: taken as sequences, maps and object references.
- PageTables.AddressSpace.CreateMapping: the levels are maps to frames, not entries packed into pages of memory; permissions, releasing entries and the medium page size, which the source refuses, are not modelled.
- HeapArray.KernelHeap.constructor: requires at most 2^27 units, so that indices and block addresses stay inside an int; the source has 5120.
- ElfLoader.ForkedPage: pages hold what was loaded; what the parent has written since is not modelled.
- Brk and mmap control, virtual file system, pipes and FatFs: not part of this model.
- The unescaping in `recv_one_return`, and `flash_dataframe` with its retries: not part of this model.
- The splitter that turns a command line into arguments, the working directory of a process, and the soft link at start-up: no property spans them.
- System calls that return a constant, printing, the serial port, the terminal, command-line and archive handling: input and output only, or one constant each.
