# STM32 flash driver, modelled in Dafny

The model covers the register protocol and the address arithmetic of the driver in
`src/flash/non_trustzone.rs`: `Flash::new`, `unlock`, `lock`, `erase_page`, `erase_sector`,
`erase_bank`, `write_page` (both forms), `erase_write_page` (both forms), `read`, both
`clear_error_flags`, `page_to_address` (both forms) and `sector_to_address`.

In the driver, the chip family is picked at build time. The model makes it a value of the
datatype `Variant`:
- `F3`, `F4`, `G0`, `L4`, `G4` and `WL`;
- `G4DualCapable`, for the g473/g474/g483/g484 parts, which have a runtime `DualBank` setting;
- `Other`, for every family that takes the default branch everywhere;
- `H7`, which has one register block per bank.

Every place where the families' code differs branches on this value.

The files:
- `types.dfy` holds the enums, the error set and the two unlock keys.
- `words.dfy` holds `u32::from_le_bytes` and its inverse.
- `registers.dfy` holds the registers as the driver sees them:
  - CR, with LOCK, the mode bits PER/SER/MER/MER1/BER/PG, STRT/START and the PNB/SNB fields;
  - SR, with BSY, QW, EOP and the error flags;
  - AR;
  - KEYR and CCR, each kept as a log of the values written to it;
  - the hardware's response to key writes.
- `address.dfy` holds the page and sector translation.
- `programming.dfy` holds how `write_page` turns bytes into stored words.
- `flash.dfy` holds the class `Flash`, whose fields are:
  - the two register blocks, `bank1` and `bank2`;
  - the G4 `dual_bank` setting;
  - flash as a map from word address to word.

  Each driver method is a method of `Flash` built from the individual register accesses. It
  is proved equal to a function of the old state (`ErasePageSpec`, `WritePageSpec`, …).
- `properties.dfy` states the driver's promises about those functions.

Status and error flags, and CCR, are write-1-to-clear. A locked CR ignores writes. Writing
the start bit starts the operation, so BSY (QW on H7) reads set. A word store made with PG
set starts programming the same way. Each `while …bit_is_set() {}` spin
loop is one hardware step, which gives the polled bit the value the driver waits for. KEYR
follows the controller's key rule:
- KEY1 arms the unit;
- KEY2 after KEY1 opens CR;
- any other write latches a fault that keeps CR locked.

Each step of an erase or write sequence is a method whose precondition is what the
controller needs before that step:
- the start bit needs an open CR, the family's mode bit and the index (or address) loaded,
  and no listed error flag set;
- the waits need the start bit;
- clearing the mode bit needs the waits done;
- every word store needs an open CR with PG set; a double-word store (every family but H7)
  also needs BSY clear and no listed error flag set;
- clearing EOP after a store needs BSY clear.

A write to a locked CR is not refused: the hardware ignores it, and each driver method's
`ensures`, which equates it to its `*Spec` function, then fails. Together these fix the
following orders, so a body that swaps any of them does not verify:
- `erase_page`: the mode bit, the index and the flag clear before the start, the start
  before the waits, the waits before the mode-bit clear;
- H7 `erase_sector`: the CCR clears and SER/SNB before START, START before the QW wait;
- `erase_bank`: the mass-erase bit and the flag clear before the start, the start before
  the QW wait (H7), that before the BSY wait, and both before the disarm;
- `write_page`: PG and the flag clear before the first store; after each double-word store
  the BSY wait, before the next store and before the EOP clear; the PG clear after the
  last store.

These orders are not fixed by the model:
- the flag clear may come before or after the mode bit and the index are loaded;
- on H7 the QW wait could follow only the last word (see `Flash.ProgramWords` under
  "Left out");
- `lock` could set LOCK before its BSY wait: a CR write while BSY is set stalls the bus
  until BSY clears, so on the hardware both orders end alike, and the model has no stall.

Every exit path ends with bank 1's CR locked. The success paths and the `Busy` abort call
`lock`. An unlock failure returns early, and CR was never opened.

The model keeps these quirks of the code as written:
- `unlock` and `lock` always act on bank 1's registers. On H7, `erase_sector` and
  `erase_bank` clear and drive the chosen bank's block.
- `page as u8` keeps the low 8 bits of the index in PNB/SNB.
- On F3, `erase_page` writes the page index, cut to 32 bits by `page as u32`, into AR,
  where the controller expects an address inside the page. The model follows the code.
- H7 `erase_sector` has no BSY check and never clears SER.
- H7 `write_page` never clears PG.
- For bank 2, `erase_bank` on L4/G4 sets no erase bit.
- WL and the default families set MER1 but clear MER after a bank erase.
- `erase_write_page` ignores both results, so the write runs even when the erase returned
  `Busy`.
- On H7, `unlock` opens only bank 1's CR. So `erase_sector` and `erase_bank` for bank 2
  write to a CR that stays locked unless it was already open. The hardware ignores those
  writes, SER, SNB, BER and START stay as they were, and the calls still return `Ok`.

A `read_to_buffer` round trip after `erase_write_page` does not hold for the code (see
"Left out"). The model proves instead that:
- `write_page` stores each whole 8-byte chunk as two little-endian words;
- a 64-bit `read` of chunk k's cell gives back that chunk's value.

## Model

| member | source | states |
|---|---|---|
| Words.LeWord | src/flash/non_trustzone.rs:513-514 | `u32::from_le_bytes` of four bytes is their little-endian value |
| Words.FromLeBytesAppend | src/flash/non_trustzone.rs:513-514 | the little-endian value of a concatenation is the low part plus the high part scaled by 256 to the length of the low part |
| Words.LeWordOfLeBytes | src/flash/non_trustzone.rs:513-514 | `from_le_bytes` applied to the four little-endian bytes of any word gives back that word |
| Words.LeBytesOfLeWord | src/flash/non_trustzone.rs:513-514 | the bytes of the word made from four bytes are those bytes, so the byte-to-word step loses nothing |
| Words.LeWordInjective | src/flash/non_trustzone.rs:513-514 | two four-byte slices give the same word if and only if they are equal |
| Registers.Peripheral.Put | src/flash/non_trustzone.rs:345-350 | replacing the block of one bank leaves exactly that block in place and the other bank's block unchanged |
| Registers.KeyWrite | src/flash/non_trustzone.rs:192-193 | a KEYR write is logged, leaves SR, AR, CCR and every CR bit but LOCK alone, opens CR only when KEY2 follows an accepted KEY1 with no fault latched, and never reopens a faulted unit |
| Registers.CrWrite | src/flash/non_trustzone.rs:179-200 | a write to CR takes effect only when CR is open: a locked CR keeps its bits, and nothing but CR ever changes |
| Registers.ErrorFlagsDistinct | src/flash/non_trustzone.rs:53-153 | no family's clearing pass tests the same flag twice |
| Registers.Present | src/flash/non_trustzone.rs:126-152 | a flag is in the filtered list exactly when it is listed and set, and the filtered list is no longer than the list |
| Registers.PresentSnoc | src/flash/non_trustzone.rs:126-152 | filtering one more listed flag appends it exactly when it is set |
| Registers.PresentNone | src/flash/non_trustzone.rs:126-152 | when no listed flag is set the H7 pass writes nothing to CCR |
| Registers.PresentSubsequence | src/flash/non_trustzone.rs:126-152 | the H7 pass writes every flag of the list exactly when every one of them is set |
| Registers.PresentDistinct | src/flash/non_trustzone.rs:126-152 | filtering a list without repeats gives a list without repeats |
| Address.PageToAddress | src/flash/non_trustzone.rs:706-708 | the address is 0x0800_0000 plus a whole number of 2048-byte pages, and that number is the page index |
| Address.PageToAddressG4 | src/flash/non_trustzone.rs:711-720 | the address lies a whole number of pages above its bank's base (4 KiB pages from 0x0800_0000 in single-bank mode, 2 KiB pages from 0x0800_0000 or 0x0804_0000 in dual-bank mode), and that number is the page index |
| Address.SectorToAddress | src/flash/non_trustzone.rs:725-734 | the address lies a whole number of 128 KiB sectors above 0x0800_0000 (bank 1) or 0x0810_0000 (bank 2), and that number is the sector index |
| Address.TargetAddress | src/flash/non_trustzone.rs:499-505 | the translation `write_page` uses never lies below the start of flash |
| Address.TargetAddressLinear | src/flash/non_trustzone.rs:706-734 | every translation is the bank's window base plus the index times the unit size |
| Address.TargetAddressIncreasing | src/flash/non_trustzone.rs:706-734 | a larger index within one bank starts at least a whole unit higher, so units never overlap |
| Address.TargetAddressInjective | src/flash/non_trustzone.rs:706-734 | within a bank two indices give the same address if and only if they are equal |
| Address.G4SingleModeMergesBanks | src/flash/non_trustzone.rs:711-714 | in single-bank mode the bank is ignored and page p is dual-bank bank 1's page 2p |
| Address.G4DualBanksDisjoint | src/flash/non_trustzone.rs:715-719 | in dual-bank mode each of bank 1's pages 0..127 ends at or below every page of bank 2 |
| Address.H7BanksDisjoint | src/flash/non_trustzone.rs:725-734 | each of bank 1's sectors 0..7 ends at or below every sector of bank 2 |
| Programming.ChunkWords | src/flash/non_trustzone.rs:512-514 | two words per whole 8-byte chunk: the trailing `len % 8` bytes produce none |
| Programming.ChunkWordsAt | src/flash/non_trustzone.rs:512-514 | stored word k is the little-endian word of bytes 4k..4k+4 |
| Programming.ChunkWordsHalves | src/flash/non_trustzone.rs:512-514 | the two words of chunk k are the little-endian words of its two four-byte halves |
| Programming.ChunkWordsAppend | src/flash/non_trustzone.rs:512-514 | one more whole chunk appends exactly its two words |
| Programming.ChunkWordsDropsTail | src/flash/non_trustzone.rs:512 | the bytes after the last whole chunk do not change the stored words |
| Programming.StoreWordsContents | src/flash/non_trustzone.rs:516-523 | after storing from base, each written word address holds its word, every other address keeps its word, and no new address appears outside the written range |
| Programming.StoreWordsAppend | src/flash/non_trustzone.rs:516-523 | the pointer advance: one more word is stored at the next word address |
| Programming.StoredWordAt | src/flash/non_trustzone.rs:516-523 | the j-th word address holds the j-th word |
| Programming.ReadDouble | src/flash/non_trustzone.rs:617-619 | a 64-bit read's low half is the word at the address and its high half the word 4 bytes on |
| Programming.DoubleOfWords | src/flash/non_trustzone.rs:513-523 | two adjacent little-endian words read as one 64-bit value are the little-endian value of their eight bytes |
| Programming.ReadStoredPair | src/flash/non_trustzone.rs:516-523 | a 64-bit read at stored word 2j sees words 2j and 2j+1 |
| Programming.ChunkPair | src/flash/non_trustzone.rs:512-514 | the two words of chunk k together are the little-endian value of its eight bytes |
| Programming.ChunkBytes | src/flash/non_trustzone.rs:512-514 | an 8-byte chunk is its first four bytes followed by its last four |
| Programming.ProgramThenRead | src/flash/non_trustzone.rs:512-523 | after the chunk words are stored from base, the 64-bit read of chunk k's cell is that chunk's little-endian value |
| Programming.WrittenChunk | src/flash/non_trustzone.rs:512-523 | one loop pass, storing a chunk's two words after the earlier chunks' words, is storing the words of one more chunk |
| FlashDriver.Unlocked | src/flash/non_trustzone.rs:179-200 | on an open CR nothing changes; on a locked one KEY1 then KEY2 are appended to KEYR, only LOCK may change, and CR ends open exactly when it was open or the key unit was clean |
| FlashDriver.Relocked | src/flash/non_trustzone.rs:213-214 | after `lock` BSY reads clear and LOCK is set |
| FlashDriver.PageSelected | src/flash/non_trustzone.rs:240-283 | the family's mode bit and the index are loaded (PER and AR on F3, SER and SNB on F4, PER and PNB elsewhere), only CR and AR change, LOCK and the start bit are untouched, and AR changes only on F3 |
| FlashDriver.Started | src/flash/non_trustzone.rs:307-313 | writing the start bit to an open CR sets it and makes BSY (QW on H7) read set; a locked CR ignores it |
| FlashDriver.MassEraseArmed | src/flash/non_trustzone.rs:416-434 | the CR written before the start has the family's mass-erase bit set (MER, BER, or MER1 when bank 1 is asked for), and no CR bit but MER, MER1 and BER differs from the CR it was made from |
| FlashDriver.UnlockSpec | src/flash/non_trustzone.rs:179-200 | `unlock` returns `Ok` exactly when bank 1's CR then reads open and `Err(Failure)` otherwise; flash and bank 2 are untouched |
| FlashDriver.LockSpec | src/flash/non_trustzone.rs:202-215 | `lock` leaves LOCK set and BSY clear, with flash and bank 2 untouched |
| FlashDriver.ErasePageSpec | src/flash/non_trustzone.rs:223-335 | `erase_page` ends locked, stores nothing, leaves bank 2 alone and returns `Ok`, `Busy` or `Failure` |
| FlashDriver.EraseSectorSpec | src/flash/non_trustzone.rs:342-378 | `erase_sector` ends with bank 1 locked, stores nothing and returns `Ok` or `Failure` |
| FlashDriver.EraseBankSpec | src/flash/non_trustzone.rs:381-467 | `erase_bank` ends with bank 1 locked, stores nothing and returns `Ok`, `Busy` or `Failure` |
| FlashDriver.WritePageSpec | src/flash/non_trustzone.rs:472-541 | `write_page` ends locked, leaves bank 2 alone, returns `Ok`, `Busy` or `Failure`, and stores nothing unless it returns `Ok` |
| FlashDriver.WritePageH7Spec | src/flash/non_trustzone.rs:545-585 | H7 `write_page` ends with bank 1 locked, leaves bank 2's block alone, returns `Ok` or `Failure`, and stores nothing unless it returns `Ok` |
| FlashDriver.EraseWritePageSpec | src/flash/non_trustzone.rs:589-592 | `erase_write_page` ends locked with bank 2 untouched |
| FlashDriver.EraseWritePageH7Spec | src/flash/non_trustzone.rs:596-606 | H7 `erase_write_page` ends with bank 1 locked |
| FlashDriver.ErrorsCleared | src/flash/non_trustzone.rs:53-153 | a flag stays set exactly when it was set and the family does not list it, so no listed flag is left set; BSY, QW, EOP, CR, AR, KEYR and the key state are unchanged; on H7 CCR gets one write per listed set flag in list order, elsewhere none |
| FlashDriver.Flash.constructor | src/flash/non_trustzone.rs:163-172 | the driver holds the given registers and flash, with the G4 DBANK setting single-bank |
| FlashDriver.Flash.ModifyCr | src/flash/non_trustzone.rs:214 | a read-modify-write of bank 1's CR that leaves the start bit alone; it takes effect only on an open CR |
| FlashDriver.Flash.WriteAr | src/flash/non_trustzone.rs:248 | the F3 AR write replaces AR and nothing else |
| FlashDriver.Flash.WriteWord | src/flash/non_trustzone.rs:573-580 | an H7 word store is made only on an open CR with PG set; it changes exactly that word address and makes QW read set |
| FlashDriver.Flash.WriteDoubleWord | src/flash/non_trustzone.rs:516-523 | the two stores of a chunk are made only on an open CR with PG set, BSY clear and no listed error flag set; they change exactly the words at a and a + 4 and make BSY read set |
| FlashDriver.Flash.ClearEndOfOperation | src/flash/non_trustzone.rs:324 | made only when EOP reads set, it clears EOP and nothing else |
| FlashDriver.Flash.SetRegs | src/flash/non_trustzone.rs:345-350 | the chosen bank's block is replaced and the other bank's is untouched |
| FlashDriver.Flash.ModifyBankCr | src/flash/non_trustzone.rs:364-367 | a read-modify-write of the chosen bank's CR that leaves the start bit alone; it takes effect only when that CR is open, and the other bank is untouched |
| FlashDriver.Flash.WriteKey | src/flash/non_trustzone.rs:192-193 | one KEYR write takes effect as the key rule says |
| FlashDriver.Flash.ClearStatusFlag | src/flash/non_trustzone.rs:58-60 | a 1 written to an SR error flag clears that flag and nothing else |
| FlashDriver.Flash.AwaitNotBusy | src/flash/non_trustzone.rs:213 | the wait ends with BSY clear and nothing else changed |
| FlashDriver.Flash.AwaitEndOfOperation | src/flash/non_trustzone.rs:323 | the wait ends with EOP set and nothing else changed |
| FlashDriver.Flash.AwaitQueueEmpty | src/flash/non_trustzone.rs:580 | the wait ends with bank 1's QW clear and nothing else changed |
| FlashDriver.Flash.AwaitBankQueueEmpty | src/flash/non_trustzone.rs:373 | the wait ends with the chosen bank's QW clear and the other bank untouched |
| FlashDriver.Flash.AwaitBankNotBusy | src/flash/non_trustzone.rs:451 | the wait ends with the chosen bank's BSY clear and the other bank untouched |
| FlashDriver.Flash.ClearViaCcr | src/flash/non_trustzone.rs:126-128 | a CCR write for a flag is logged and clears that flag in the chosen bank's SR, leaving the other bank alone |
| FlashDriver.Flash.ClearErrorFlags | src/flash/non_trustzone.rs:53-118 | after one SR snapshot and the family's pass of write-1-to-clear writes, bank 1 is exactly `ErrorsCleared` of its old state |
| FlashDriver.Flash.ClearErrorFlagsH7 | src/flash/non_trustzone.rs:123-153 | after one SR snapshot and the pass of CCR writes, the chosen bank's block is exactly `ErrorsCleared` for H7 of its old state and the other bank's is unchanged |
| FlashDriver.Flash.ClearViaCcrIfSet | src/flash/non_trustzone.rs:126-128 | the CCR write for a flag happens exactly when the snapshot showed it set |
| FlashDriver.Flash.Unlock | src/flash/non_trustzone.rs:179-200 | bank 1 ends as `Unlocked` of its old state, and the result is `Ok` exactly when CR then reads open, `Err(Failure)` otherwise |
| FlashDriver.Flash.Lock | src/flash/non_trustzone.rs:202-215 | bank 1 ends with BSY clear and LOCK set, everything else unchanged |
| FlashDriver.Flash.ErasePage | src/flash/non_trustzone.rs:223-335 | state and result are `ErasePageSpec` of the old state (unlock failure, `Busy` abort after re-locking, or the full erase sequence), and CR ends locked |
| FlashDriver.Flash.SelectPage | src/flash/non_trustzone.rs:240-283 | on an open CR: PER and AR on F3, SER and SNB on F4, PER and PNB elsewhere (both G4 DBANK branches alike), the index truncated to the field width |
| FlashDriver.Flash.SelectPageByAddress | src/flash/non_trustzone.rs:244-248 | PER set, then the page index, cut to 32 bits, in AR (not the page's address) |
| FlashDriver.Flash.SelectSector | src/flash/non_trustzone.rs:255-258 | SER set and the sector in SNB |
| FlashDriver.Flash.SelectPageNumber | src/flash/non_trustzone.rs:259-283 | the page number in PNB and PER set |
| FlashDriver.Flash.FinishPageErase | src/flash/non_trustzone.rs:307-330 | with the page loaded and the listed flags clear: the start bit set, BSY clear, EOP awaited and cleared on F3 and F4, then SER (F4) or PER cleared |
| FlashDriver.Flash.StartPageErase | src/flash/non_trustzone.rs:307-313 | the start bit is written only on an open CR with the mode bit and the page loaded and no listed error flag set, and the erase then reads busy |
| FlashDriver.Flash.AwaitPageErased | src/flash/non_trustzone.rs:316-326 | after the start: BSY clear, and on F3 and F4 EOP seen set and then cleared |
| FlashDriver.Flash.ClearEraseMode | src/flash/non_trustzone.rs:327-330 | once the erase has started and BSY (and EOP on F3 and F4) has been seen clear: SER cleared on F4, PER on every other family |
| FlashDriver.Flash.EraseSector | src/flash/non_trustzone.rs:342-378 | state and result are `EraseSectorSpec` of the old state, with no BSY check, and bank 1's CR ends locked |
| FlashDriver.Flash.SectorEraseSteps | src/flash/non_trustzone.rs:355-373 | the chosen bank's flags cleared through CCR, SER and SNB loaded and START set when that CR is open, then QW clear; the other bank untouched |
| FlashDriver.Flash.StartSectorErase | src/flash/non_trustzone.rs:370 | START is written only after the listed flags are cleared and SER and SNB are loaded (or onto a locked CR, which ignores it), and the erase then reads QW set |
| FlashDriver.Flash.EraseBank | src/flash/non_trustzone.rs:381-467 | state and result are `EraseBankSpec` of the old state (BSY read from the block being erased) and bank 1's CR ends locked |
| FlashDriver.Flash.BankEraseSteps | src/flash/non_trustzone.rs:414-462 | the erased block ends as `BankEraseDone`; the other block unchanged |
| FlashDriver.Flash.ArmMassErase | src/flash/non_trustzone.rs:416-434 | MER on F3, F4 and G0, BER on H7, MER1 for bank 1 on the rest and nothing for bank 2 |
| FlashDriver.Flash.RunMassErase | src/flash/non_trustzone.rs:436-451 | once the mass-erase bit is set: the start bit set, then QW (H7) and BSY seen clear |
| FlashDriver.Flash.StartMassErase | src/flash/non_trustzone.rs:436-448 | the start bit is written only after the listed flags are cleared and the family's mass-erase bit is set, and the erase then reads busy (QW on H7) |
| FlashDriver.Flash.AwaitMassErased | src/flash/non_trustzone.rs:442-451 | after the start: QW cleared first on H7, then BSY, on the erased block only |
| FlashDriver.Flash.DisarmMassErase | src/flash/non_trustzone.rs:454-462 | once BSY (and QW on H7) has been seen clear after the start: BER cleared on H7, MER1 on L4 and G4, MER on the rest |
| FlashDriver.Flash.WritePage | src/flash/non_trustzone.rs:472-541 | state and result are `WritePageSpec` of the old state (unlock failure, `Busy` abort, or chunks stored from the translated page address) and CR ends locked |
| FlashDriver.Flash.ProgramPage | src/flash/non_trustzone.rs:489-536 | flash gains the chunk words from the address on, and bank 1 ends with flags cleared, PG set before the stores and cleared again, and EOP cleared once a chunk was written |
| FlashDriver.Flash.ProgramChunks | src/flash/non_trustzone.rs:512-532 | on an open CR with PG set, BSY clear and the listed flags clear, the loop stores exactly `ChunkWords(data)` at consecutive word addresses from the start address, each chunk's stores after the previous chunk's BSY wait |
| FlashDriver.Flash.ProgramNextChunk | src/flash/non_trustzone.rs:512-531 | one loop pass extends the stored words of the first i chunks to those of the first i + 1 |
| FlashDriver.Flash.ProgramChunk | src/flash/non_trustzone.rs:513-531 | the chunk's two little-endian words land at a and a + 4, stored while BSY is clear; then the BSY they raised is seen clear and only after that EOP is cleared |
| FlashDriver.Flash.ClearEndOfOperationIfSet | src/flash/non_trustzone.rs:529-531 | made only once BSY reads clear, it leaves EOP clear and nothing else changes |
| FlashDriver.Flash.WritePageH7 | src/flash/non_trustzone.rs:545-585 | state and result are `WritePageH7Spec` of the old state (PG set and never cleared, words stored from the sector address) and bank 1's CR ends locked |
| FlashDriver.Flash.ProgramWords | src/flash/non_trustzone.rs:573-581 | with PG set, each word is stored at the next word address from the start, and bank 1's QW, raised by the stores, ends clear once a word was written |
| FlashDriver.Flash.EraseWritePage | src/flash/non_trustzone.rs:589-592 | the state is that of `write_page` run on the state `erase_page` left, whatever the erase returned |
| FlashDriver.Flash.EraseWritePageH7 | src/flash/non_trustzone.rs:596-606 | the state is that of H7 `write_page` run on the state `erase_sector` left |
| FlashDriver.Flash.Read | src/flash/non_trustzone.rs:615-620 | the low half is the word at the page address plus 8·offset and the high half the word 4 bytes on (erased where nothing was stored) |
| FlashDriver.Flash.ReadG4 | src/flash/non_trustzone.rs:608-613 | the same with the G4 translation and a signed offset |
| FlashDriver.ListedUpToStep | src/flash/non_trustzone.rs:53-153 | handling one more flag of the list adds exactly that flag to the handled set |
| FlashDriver.ListedUpToAll | src/flash/non_trustzone.rs:53-153 | after the whole list every listed flag has been handled |
| FlashDriver.CcrPassStep | src/flash/non_trustzone.rs:126-152 | one more step of the H7 pass is the pass over one more flag |
| FlashDriver.CcrPassAll | src/flash/non_trustzone.rs:123-153 | the whole H7 pass is `ErrorsCleared` for H7 |
| FlashProperties.UnlockIdempotent | src/flash/non_trustzone.rs:185-187 | on an open CR `unlock` returns `Ok` and writes nothing, and a second `unlock` after a successful one changes nothing |
| FlashProperties.UnlockKeySequence | src/flash/non_trustzone.rs:13-14 | on a locked CR exactly KEY1 then KEY2 are appended to KEYR; `Ok` exactly when CR reads open, which is exactly when the key unit was clean, else `Err(Failure)`; nothing else but LOCK changes |
| FlashProperties.UnlockFailureSticky | src/flash/non_trustzone.rs:192-199 | a failed `unlock` leaves a latched key fault, so no later `unlock` succeeds |
| FlashProperties.UnlockKeepsKeyStateValid | src/flash/non_trustzone.rs:179-200 | `unlock` keeps an open CR paired with a clean key unit |
| FlashProperties.LockSetsLock | src/flash/non_trustzone.rs:202-215 | `lock` ends with LOCK set and BSY clear, no other bit, bank 2 or flash changed, and locking twice is locking once |
| FlashProperties.ErasesEndLocked | src/flash/non_trustzone.rs:223-467 | every erase ends with bank 1's CR locked, on every exit path |
| FlashProperties.WritesEndLocked | src/flash/non_trustzone.rs:472-585 | both forms of `write_page` end with bank 1's CR locked, on every exit path |
| FlashProperties.EraseWriteEndsLocked | src/flash/non_trustzone.rs:589-606 | both forms of `erase_write_page` end with CR locked |
| FlashProperties.PageOperationResults | src/flash/non_trustzone.rs:224-232 | `erase_page` and `write_page` return `Failure` exactly when unlock fails, `Busy` exactly when BSY reads set after it, `Ok` otherwise |
| FlashProperties.OtherOperationResults | src/flash/non_trustzone.rs:381-408 | `erase_bank` returns `Busy` exactly when the erased block's BSY is set after unlock; `erase_sector` and H7 `write_page` fail only when unlock fails |
| FlashProperties.BusyAbortChangesNothing | src/flash/non_trustzone.rs:483-487 | on the `Busy` path of `erase_page` and `write_page` no error flag or EOP is cleared, no CR bit but LOCK changes, AR, bank 2 and flash are unchanged |
| FlashProperties.EraseBankBusyAbort | src/flash/non_trustzone.rs:404-408 | the same for `erase_bank`: no error flag or EOP cleared, no CR bit but LOCK changed, AR, bank 2 and flash unchanged |
| FlashProperties.OnlySuccessfulWritesStore | src/flash/non_trustzone.rs:472-585 | when a write fails the driver stores nothing, and an erase never stores anything |
| FlashProperties.PageEraseDoneFacts | src/flash/non_trustzone.rs:240-330 | the page-erase sequence loads the page, sets the start bit, leaves BSY clear, clears EOP on F3/F4 and clears the mode bit, touching no other erase bit |
| FlashProperties.ErasePageSuccess | src/flash/non_trustzone.rs:234-334 | a successful `erase_page` clears exactly the listed error flags, loads the index truncated to the field, sets the start bit, clears the mode bit and EOP (F3/F4), re-locks and leaves bank 2 alone |
| FlashProperties.EraseSectorSuccess | src/flash/non_trustzone.rs:355-377 | a successful `erase_sector` clears H7's listed flags through CCR in list order and leaves QW clear; on bank 1, or an open bank-2 CR, it loads SER and SNB, sets START and keeps SER set; on a locked bank-2 CR it leaves that CR unchanged yet returns `Ok` |
| FlashProperties.BankEraseDoneFacts | src/flash/non_trustzone.rs:416-462 | after the bank-erase sequence BSY (and QW on H7) is clear and the error flags and LOCK are as they were; on an open CR the start bit is set and the family's erase bit cleared, with WL and the default families keeping MER1 set for bank 1; a locked CR is unchanged |
| FlashProperties.BankEraseFrame | src/flash/non_trustzone.rs:416-462 | the bank-erase sequence changes only CR and SR, and on an open CR leaves exactly `MassErasedCr`: the start bit set, the family's erase bit cleared (MER1 kept set for bank 1 on WL and the default families), PER, SER, PG, PNB, SNB and LOCK as they were |
| FlashProperties.BankEraseCr | src/flash/non_trustzone.rs:416-462 | on an open CR the arm, start and disarm writes compose to `MassErasedCr` of the CR found |
| FlashProperties.ArmedThenDisarmed | src/flash/non_trustzone.rs:416-462 | arming, starting and disarming the CR is `MassErasedCr` for every family and bank |
| FlashProperties.ArmedDisarmedMer | src/flash/non_trustzone.rs:416-462 | F3, F4 and G0: MER set then cleared, so only STRT stays set |
| FlashProperties.ArmedDisarmedBer | src/flash/non_trustzone.rs:416-462 | H7: BER set then cleared, so only START stays set |
| FlashProperties.ArmedDisarmedMer1 | src/flash/non_trustzone.rs:416-462 | L4 and G4: MER1 set for bank 1 only, then cleared, so only START stays set |
| FlashProperties.ArmedDisarmedDefault | src/flash/non_trustzone.rs:416-462 | WL and the default families: MER1 set for bank 1, then MER cleared, so MER1 stays set |
| FlashProperties.EraseBankSuccess | src/flash/non_trustzone.rs:410-466 | a successful `erase_bank` clears the listed flags on the erased block and re-locks CR; on bank 1 or an open CR it leaves the erase-bit state `BankEraseDoneFacts` describes; a locked H7 bank-2 CR is left unchanged |
| FlashProperties.EraseBankLeavesCr | src/flash/non_trustzone.rs:410-466 | on bank 1 or an open CR a successful `erase_bank` leaves the whole CR as `MassErasedCr` of the CR found, LOCK aside: the start bit set, the family's erase bit cleared (MER1 kept for bank 1 on WL and the default families), every other bit untouched |
| FlashProperties.EraseBankKeepsAr | src/flash/non_trustzone.rs:410-466 | a successful `erase_bank` leaves AR of the erased block unchanged |
| FlashProperties.EraseBank2SetsNoBit | src/flash/non_trustzone.rs:427-431 | on L4 and G4, `erase_bank(B2)` changes no CR bit but START, the MER1 clear and LOCK |
| FlashProperties.WritePageSuccess | src/flash/non_trustzone.rs:489-540 | a successful `write_page` stores the chunk words from the translated address, clears the listed flags and PG, re-locks, and leaves EOP clear once a chunk was written |
| FlashProperties.WritePageThenRead | src/flash/non_trustzone.rs:512-523 | after a successful `write_page`, `read` of cell k of the page gives the little-endian value of chunk k |
| FlashProperties.WritePageTouchesOnlyItsWords | src/flash/non_trustzone.rs:512-523 | `write_page` changes flash only at the 2·(len/8) word addresses from the page address |
| FlashProperties.WritePageH7Success | src/flash/non_trustzone.rs:557-584 | a successful H7 `write_page` stores the words from the sector address, leaves PG set and re-locks |
| FlashProperties.WritePageH7ThenRead | src/flash/non_trustzone.rs:573-577 | word k of the sector holds the k-th word written |
| FlashProperties.EraseWritePageStores | src/flash/non_trustzone.rs:589-592 | `erase_write_page` stores the data exactly when the first unlock can succeed, even if the erase returned `Busy` |
| FlashProperties.ErasePageLeavesKeysClean | src/flash/non_trustzone.rs:223-335 | after a successful unlock `erase_page` leaves the key unit clean and BSY clear, so the next unlock succeeds |
| FlashProperties.EraseWritePageH7Stores | src/flash/non_trustzone.rs:596-606 | H7 `erase_write_page` stores the words exactly when the first unlock can succeed |
| FlashProperties.EraseSectorLeavesKeysClean | src/flash/non_trustzone.rs:342-378 | after a successful unlock `erase_sector` leaves bank 1's key unit clean, so the next unlock succeeds |
| FlashProperties.ErrorsClearedIdempotent | src/flash/non_trustzone.rs:53-153 | a second clearing pass changes no SR flag and writes nothing to CCR; off H7 it changes nothing at all |
| FlashProperties.H7ClearWritesEachFlagOnce | src/flash/non_trustzone.rs:123-153 | H7's pass writes no flag to CCR twice, writes exactly the listed flags that were set, and writes all nine exactly when all nine were set |

## Left out

- `read_to_buffer` (both forms) is not modelled. It reads through a byte pointer, offsets by `offset / 4` bytes and copies a one-byte `to_le_bytes` into a four-byte chunk. It is raw-pointer I/O that does not give back what `write_page` stored, so no round trip through it is claimed.
- The effect of an erase on the flash cells is not modelled, because the driver never writes flash when erasing. The model's erase changes registers only. Cell sizes of F4 sectors are likewise left out.
- The hardware clearing STRT/START after an operation, and raising error flags, PROGERR or BSY on its own, are left out. Only the bits the driver writes or waits for change.
- The spin loops are assumed to terminate. Each is one step that gives the polled bit its awaited value.
- A write to CR while BSY is set stalls the bus. That stall is not modelled.
- Flash.ClearErrorFlags: on F3 and F4 the driver clears a flag with a read-modify-write of SR, which would also write back 1s to other set write-1-to-clear bits. The model clears only the named flag. The same holds for the EOP clears.
- Flash.ClearErrorFlags: the unrolled chain of `if` tests becomes a loop over the family's flag list. The order is the same, and each flag is tested against the same single SR snapshot.
- Flash.SelectPage: the G4 BKER bit is not written, as in the code, so the two DualBank branches coincide.
- Only the low 8 bits of PNB and SNB are modelled, as the `as u8` casts give them. The real register fields may be narrower, and the model does not say what the hardware does with the surplus bits.
- Bank 2 is absent on h747 parts. The model always has two banks.
- `usize` overflow of `page * 2048` and the pointer advance is not modelled. Indices and addresses are unbounded naturals.
- Flash.ReadG4 requires that a negative offset not go below address 0, since the address would otherwise leave the memory map.
- The error values `Illegal`, `EccError` and `PageOutOfRange` are declared but the code never returns them, so neither does the model.
- Flash.ProgramWords: each store must come after PG is set and before the QW wait, but that the wait follows every word, rather than only the last, is not stated. A store made while QW is still set is not modelled as refused.
- Flash.WritePageH7: for sectors of bank 2 the code sets PG only in bank 1. The model's stores require bank 1's PG and do not model bank 2's PG gating.
