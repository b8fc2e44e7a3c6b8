/** What the driver's operations promise, stated over the functions that give each
    operation's outcome: the unlock key protocol, re-locking on every exit path, the busy
    abort, the register state each successful operation leaves, the contents each write
    leaves in flash, and the combined erase-then-write. */
module FlashProperties {
  import opened FlashTypes
  import opened Registers
  import opened Address
  import opened Programming
  import opened Words
  import opened FlashDriver

  // Unlocking and locking.

  /** `unlock` on an open CR writes nothing and succeeds, and a second `unlock` after a
      successful one changes nothing either. */
  lemma UnlockIdempotent(m: Machine)
    ensures !m.regs.bank1.cr.lock ==> UnlockSpec(m) == Outcome(m, Ok)
    ensures UnlockSpec(m).res == Ok ==> UnlockSpec(UnlockSpec(m).m) == UnlockSpec(m)
  {
  }

  /** On a locked CR, `unlock` appends exactly KEY1 and then KEY2 to KEYR and touches nothing
      but bank 1's key state and LOCK; it succeeds exactly when CR then reads open, and that
      is exactly when the key unit had seen no earlier key. */
  lemma UnlockKeySequence(m: Machine)
    requires m.regs.bank1.cr.lock
    ensures var o := UnlockSpec(m); var r, b := o.m.regs.bank1, m.regs.bank1;
      && r.keyr == b.keyr + [FLASH_KEY1, FLASH_KEY2]
      && (o.res == Ok <==> !r.cr.lock)
      && (o.res == Ok <==> KeysClean(b))
      && (o.res != Ok ==> o.res == Err(Failure))
      && r.cr == b.cr.(lock := r.cr.lock) && r.sr == b.sr && r.ar == b.ar && r.ccr == b.ccr
      && o.m.regs.bank2 == m.regs.bank2 && o.m.mem == m.mem
  {
  }

  /** `unlock` makes one attempt: after a failure the key unit has latched a fault, so every
      later `unlock` fails too. */
  lemma UnlockFailureSticky(m: Machine)
    requires UnlockSpec(m).res == Err(Failure)
    ensures UnlockSpec(m).m.regs.bank1.keyFault
    ensures UnlockSpec(UnlockSpec(m).m).res == Err(Failure)
  {
    var b := m.regs.bank1;
    if !b.keyFault {
      assert b.keyArmed;
      assert KeyWrite(b, FLASH_KEY1).keyFault;
    }
  }

  /** `unlock` keeps an open CR paired with a clean key unit. */
  lemma UnlockKeepsKeyStateValid(m: Machine)
    requires KeyStateValid(m.regs.bank1)
    ensures KeyStateValid(UnlockSpec(m).m.regs.bank1)
  {
  }

  /** `lock` leaves LOCK set and BSY clear, changes no other CR or SR bit, and cannot fail
      or change anything else; locking twice is locking once. */
  lemma LockSetsLock(m: Machine)
    ensures var l, b := LockSpec(m).regs.bank1, m.regs.bank1;
      && l.cr.lock && !l.sr.bsy
      && l.cr == b.cr.(lock := true) && l.sr == b.sr.(bsy := false)
      && l.keyr == b.keyr && l.ccr == b.ccr && l.ar == b.ar && KeyStateValid(l)
    ensures LockSpec(m).regs.bank2 == m.regs.bank2 && LockSpec(m).mem == m.mem
    ensures LockSpec(LockSpec(m)) == LockSpec(m)
  {
  }

  // Every exit path re-locks.

  /** Whatever the outcome, every erase leaves bank 1's CR locked. */
  lemma ErasesEndLocked(v: Variant, m: Machine, index: nat, bank: Bank)
    ensures ErasePageSpec(v, m, index).m.regs.bank1.cr.lock
    ensures EraseSectorSpec(m, index, bank).m.regs.bank1.cr.lock
    ensures EraseBankSpec(v, m, bank).m.regs.bank1.cr.lock
  {
  }

  /** Whatever the outcome, every write leaves bank 1's CR locked. */
  lemma WritesEndLocked(v: Variant, dual: DualBank, m: Machine, page: nat, bank: Bank,
                        bytes: seq<uint8>, words: seq<uint32>)
    ensures WritePageSpec(v, dual, m, page, bank, bytes).m.regs.bank1.cr.lock
    ensures WritePageH7Spec(m, page, bank, words).m.regs.bank1.cr.lock
  {
  }

  /** So does `erase_write_page`, whichever of its two steps fails. */
  lemma EraseWriteEndsLocked(v: Variant, dual: DualBank, m: Machine, page: nat, bank: Bank,
                             bytes: seq<uint8>, words: seq<uint32>)
    ensures EraseWritePageSpec(v, dual, m, page, bank, bytes).regs.bank1.cr.lock
    ensures EraseWritePageH7Spec(m, page, bank, words).regs.bank1.cr.lock
  {
    WritesEndLocked(v, dual, ErasePageSpec(v, m, page).m, page, bank, bytes, words);
    WritesEndLocked(v, dual, EraseSectorSpec(m, page, bank).m, page, bank, bytes, words);
  }

  // The result each operation returns.

  /** `erase_page` and `write_page` fail with `Failure` exactly when `unlock` does, with
      `Busy` exactly when BSY reads set after it, and succeed otherwise. */
  lemma PageOperationResults(v: Variant, dual: DualBank, m: Machine, page: nat, bank: Bank, data: seq<uint8>)
    ensures var u := Unlocked(m.regs.bank1);
      var e, w := ErasePageSpec(v, m, page).res, WritePageSpec(v, dual, m, page, bank, data).res;
      && (e == Err(Failure) <==> u.cr.lock) && (w == Err(Failure) <==> u.cr.lock)
      && (e == Err(Busy) <==> !u.cr.lock && u.sr.bsy) && (w == Err(Busy) <==> !u.cr.lock && u.sr.bsy)
      && (e == Ok <==> !u.cr.lock && !u.sr.bsy) && (w == Ok <==> !u.cr.lock && !u.sr.bsy)
  {
  }

  /** `erase_bank` checks BSY in the block it erases; `erase_sector` and H7 `write_page` have
      no BSY check and fail only when `unlock` does. */
  lemma OtherOperationResults(v: Variant, m: Machine, index: nat, bank: Bank, words: seq<uint32>)
    ensures var u := Unlocked(m.regs.bank1);
      var busy := m.regs.(bank1 := u).Get(TargetBank(v, bank)).sr.bsy;
      var b := EraseBankSpec(v, m, bank).res;
      && (b == Err(Failure) <==> u.cr.lock)
      && (b == Err(Busy) <==> !u.cr.lock && busy)
      && (b == Ok <==> !u.cr.lock && !busy)
    ensures var u := Unlocked(m.regs.bank1);
      && (EraseSectorSpec(m, index, bank).res == if u.cr.lock then Err(Failure) else Ok)
      && (WritePageH7Spec(m, index, bank, words).res == if u.cr.lock then Err(Failure) else Ok)
  {
  }

  // The busy abort.

  /** When BSY reads set after a successful `unlock`, `erase_page` and `write_page` re-lock
      and return `Busy` having cleared no flag, set no mode bit and stored nothing. */
  lemma BusyAbortChangesNothing(v: Variant, dual: DualBank, m: Machine, page: nat, bank: Bank, data: seq<uint8>)
    requires var u := Unlocked(m.regs.bank1); !u.cr.lock && u.sr.bsy
    ensures var e := ErasePageSpec(v, m, page); var r := e.m.regs.bank1;
      && e.res == Err(Busy)
      && r.sr.errs == m.regs.bank1.sr.errs && r.sr.eop == m.regs.bank1.sr.eop
      && r.cr == m.regs.bank1.cr.(lock := true) && r.ar == m.regs.bank1.ar
      && e.m.regs.bank2 == m.regs.bank2 && e.m.mem == m.mem
    ensures var w := WritePageSpec(v, dual, m, page, bank, data); var r := w.m.regs.bank1;
      && w.res == Err(Busy)
      && r.sr.errs == m.regs.bank1.sr.errs && r.sr.eop == m.regs.bank1.sr.eop
      && r.cr == m.regs.bank1.cr.(lock := true) && r.ar == m.regs.bank1.ar
      && w.m.regs.bank2 == m.regs.bank2 && w.m.mem == m.mem
  {
  }

  /** The same for `erase_bank`, whose BSY check reads the block it would erase. */
  lemma EraseBankBusyAbort(v: Variant, m: Machine, bank: Bank)
    requires var u := Unlocked(m.regs.bank1);
      !u.cr.lock && m.regs.(bank1 := u).Get(TargetBank(v, bank)).sr.bsy
    ensures var o := EraseBankSpec(v, m, bank); var r := o.m.regs.bank1;
      && o.res == Err(Busy)
      && r.sr.errs == m.regs.bank1.sr.errs && r.sr.eop == m.regs.bank1.sr.eop
      && r.cr == m.regs.bank1.cr.(lock := true) && r.ar == m.regs.bank1.ar
      && o.m.regs.bank2 == m.regs.bank2 && o.m.mem == m.mem
  {
  }

  /** When an operation fails the driver stores nothing, and an erase never stores anything. */
  lemma OnlySuccessfulWritesStore(v: Variant, dual: DualBank, m: Machine, page: nat, bank: Bank,
                                  bytes: seq<uint8>, words: seq<uint32>)
    ensures WritePageSpec(v, dual, m, page, bank, bytes).res != Ok ==> WritePageSpec(v, dual, m, page, bank, bytes).m.mem == m.mem
    ensures WritePageH7Spec(m, page, bank, words).res != Ok ==> WritePageH7Spec(m, page, bank, words).m.mem == m.mem
    ensures ErasePageSpec(v, m, page).m.mem == m.mem
    ensures EraseSectorSpec(m, page, bank).m.mem == m.mem
    ensures EraseBankSpec(v, m, bank).m.mem == m.mem
  {
  }

  // Erasing.

  /** The registers `erase_page` leaves before re-locking, from those after the flag clear. */
  lemma PageEraseDoneFacts(v: Variant, c: RegisterBlock, page: nat)
    ensures var r := PageEraseDone(v, c, page);
      && r.sr.errs == c.sr.errs && r.cr.lock == c.cr.lock
      && r.cr.strt && !r.sr.bsy && r.sr.qw == c.sr.qw
      && r.cr.mer == c.cr.mer && r.cr.mer1 == c.cr.mer1 && r.cr.ber == c.cr.ber && r.cr.pg == c.cr.pg
      && (v == F3 ==> r.ar == page % 0x1_0000_0000 && !r.cr.per && !r.sr.eop && r.cr.ser == c.cr.ser)
      && (v == F4 ==> r.cr.snb == page % 0x100 && !r.cr.ser && !r.sr.eop && r.cr.per == c.cr.per)
      && (v != F3 && v != F4 ==> r.cr.pnb == page % 0x100 && !r.cr.per && r.sr.eop == c.sr.eop && r.ar == c.ar)
  {
  }

  /** A successful `erase_page`: every listed error flag cleared and no other flag changed,
      the page loaded (into AR on F3, SNB on F4, PNB elsewhere, as its low bits on the
      narrow fields), the start bit set, BSY clear, EOP cleared on F3 and F4, the mode bit
      cleared again and CR re-locked. */
  lemma ErasePageSuccess(v: Variant, m: Machine, page: nat)
    requires var u := Unlocked(m.regs.bank1); !u.cr.lock && !u.sr.bsy
    ensures var o := ErasePageSpec(v, m, page); var r, b := o.m.regs.bank1, m.regs.bank1;
      && o.res == Ok
      && (forall f: Flag :: f in r.sr.errs <==> f in b.sr.errs && f !in ErrorFlags(v))
      && r.cr.lock && r.cr.strt && !r.sr.bsy && r.sr.qw == b.sr.qw
      && r.cr.mer == b.cr.mer && r.cr.mer1 == b.cr.mer1 && r.cr.ber == b.cr.ber && r.cr.pg == b.cr.pg
      && (v == F3 ==> r.ar == page % 0x1_0000_0000 && !r.cr.per && !r.sr.eop && r.cr.ser == b.cr.ser)
      && (v == F4 ==> r.cr.snb == page % 0x100 && !r.cr.ser && !r.sr.eop && r.cr.per == b.cr.per)
      && (v != F3 && v != F4 ==> r.cr.pnb == page % 0x100 && !r.cr.per && r.sr.eop == b.sr.eop && r.ar == b.ar)
      && o.m.regs.bank2 == m.regs.bank2
  {
    var c := ErrorsCleared(v, Unlocked(m.regs.bank1));
    PageEraseDoneFacts(v, c, page);
    assert ErasePageSpec(v, m, page).m.regs.bank1 == Relocked(PageEraseDone(v, c, page));
  }

  /** A successful H7 `erase_sector` on the chosen bank's block: H7's error flags cleared
      through CCR in list order and QW clear; when that block's CR is open (always for bank
      1, which the driver unlocks) SER and the sector's low bits in SNB are loaded and START
      is set, and SER stays set. Bank 2's CR is never unlocked by the driver: while it is
      locked the call still returns Ok but its CR is unchanged. The other bank's block is
      untouched apart from bank 1's LOCK. */
  lemma EraseSectorSuccess(m: Machine, sector: nat, bank: Bank)
    requires !Unlocked(m.regs.bank1).cr.lock
    ensures var o := EraseSectorSpec(m, sector, bank);
      var t, b := o.m.regs.Get(bank), m.regs.Get(bank);
      && o.res == Ok
      && (forall f: Flag :: f in t.sr.errs <==> f in b.sr.errs && f !in ErrorFlags(H7))
      && t.ccr == b.ccr + Present(ErrorFlags(H7), b.sr.errs)
      && !t.sr.qw
      && (bank == B1 || !b.cr.lock ==> t.cr.ser && t.cr.snb == sector % 0x100 && t.cr.strt)
      && (bank == B2 && b.cr.lock ==> t.cr == b.cr)
      && t.cr.per == b.cr.per && t.cr.ber == b.cr.ber && t.cr.pg == b.cr.pg
      && o.m.regs.bank1.cr.lock
      && (bank == B2 ==> o.m.regs.bank1 == Relocked(Unlocked(m.regs.bank1)))
  {
  }

  /** The target block `erase_bank` leaves before re-locking, from the one after the flag clear. */
  /** The CR `erase_bank` leaves behind on an open CR, written out per family: the start bit
      set and the family's mass-erase bit cleared (MER on F3, F4 and G0, BER on H7, MER1 on
      L4 and G4; WL and the default families clear MER and keep the MER1 they set for bank
      1), with PER, SER, PG, PNB, SNB and LOCK as they were. */
  function MassErasedCr(v: Variant, bank: Bank, cr: ControlReg): ControlReg {
    match v
    case F3 | F4 | G0 => cr.(strt := true, mer := false)
    case H7 => cr.(strt := true, ber := false)
    case L4 | G4 | G4DualCapable => cr.(strt := true, mer1 := false)
    case WL | Other => cr.(strt := true, mer := false, mer1 := cr.mer1 || bank == B1)
  }

  /** On an open CR the three steps of `erase_bank` leave exactly `MassErasedCr`. */
  lemma BankEraseCr(v: Variant, bank: Bank, c: RegisterBlock)
    requires !c.cr.lock
    ensures BankEraseDone(v, bank, c).cr == MassErasedCr(v, bank, c.cr)
  {
    var a := MassEraseArmed(v, bank, c.cr);
    assert MassEraseRun(v, CrWrite(c, a)).cr == a.(strt := true);
    ArmedThenDisarmed(v, bank, c.cr);
  }

  /** Setting the family's mass-erase bit and the start bit, then clearing the bit again. */
  lemma ArmedThenDisarmed(v: Variant, bank: Bank, cr: ControlReg)
    ensures MassEraseDisarmed(v, MassEraseArmed(v, bank, cr).(strt := true)) == MassErasedCr(v, bank, cr)
  {
    if v == F3 || v == F4 || v == G0 {
      ArmedDisarmedMer(v, bank, cr);
    } else if v == H7 {
      ArmedDisarmedBer(v, bank, cr);
    } else if v == L4 || v == G4 || v == G4DualCapable {
      ArmedDisarmedMer1(v, bank, cr);
    } else {
      ArmedDisarmedDefault(v, bank, cr);
    }
  }

  /** `ArmedThenDisarmed` for F3, F4 and G0 (MER). */
  lemma ArmedDisarmedMer(v: Variant, bank: Bank, cr: ControlReg)
    requires v == F3 || v == F4 || v == G0
    ensures MassEraseDisarmed(v, MassEraseArmed(v, bank, cr).(strt := true)) == MassErasedCr(v, bank, cr)
  {
    if bank == B1 {
    } else {
    }
  }

  /** `ArmedThenDisarmed` for H7 (BER). */
  lemma ArmedDisarmedBer(v: Variant, bank: Bank, cr: ControlReg)
    requires v == H7
    ensures MassEraseDisarmed(v, MassEraseArmed(v, bank, cr).(strt := true)) == MassErasedCr(v, bank, cr)
  {
    if bank == B1 {
    } else {
    }
  }

  /** `ArmedThenDisarmed` for L4 and G4 (MER1). */
  lemma ArmedDisarmedMer1(v: Variant, bank: Bank, cr: ControlReg)
    requires v == L4 || v == G4 || v == G4DualCapable
    ensures MassEraseDisarmed(v, MassEraseArmed(v, bank, cr).(strt := true)) == MassErasedCr(v, bank, cr)
  {
    if bank == B1 {
    } else {
    }
  }

  /** `ArmedThenDisarmed` for WL and the default families (MER1 set, MER cleared). */
  lemma ArmedDisarmedDefault(v: Variant, bank: Bank, cr: ControlReg)
    requires v == WL || v == Other
    ensures MassEraseDisarmed(v, MassEraseArmed(v, bank, cr).(strt := true)) == MassErasedCr(v, bank, cr)
  {
    if bank == B1 {
    } else {
    }
  }

  lemma BankEraseDoneFacts(v: Variant, bank: Bank, c: RegisterBlock)
    ensures var t := BankEraseDone(v, bank, c);
      && t.sr.errs == c.sr.errs && t.cr.lock == c.cr.lock
      && !t.sr.bsy && (v == H7 ==> !t.sr.qw)
      && (c.cr.lock ==> t.cr == c.cr)
      && (!c.cr.lock ==> t.cr.strt)
      && (!c.cr.lock && (v == F3 || v == F4 || v == G0) ==> !t.cr.mer && t.cr.mer1 == c.cr.mer1)
      && (!c.cr.lock && v == H7 ==> !t.cr.ber)
      && (!c.cr.lock && (v == L4 || v == G4 || v == G4DualCapable) ==> !t.cr.mer1 && t.cr.mer == c.cr.mer)
      && (!c.cr.lock && (v == WL || v == Other) ==> !t.cr.mer && t.cr.mer1 == (c.cr.mer1 || bank == B1))
  {
  }

  /** `erase_bank`'s three steps change only CR and SR: AR, KEYR, CCR and the key unit are
      as they were, and on an open CR the CR is exactly `MassErasedCr`. */
  lemma BankEraseFrame(v: Variant, bank: Bank, c: RegisterBlock)
    ensures var t := BankEraseDone(v, bank, c);
      && (!c.cr.lock ==> t.cr == MassErasedCr(v, bank, c.cr))
      && t == c.(cr := t.cr, sr := t.sr)
  {
    if !c.cr.lock {
      BankEraseCr(v, bank, c);
    }
  }

  /** A successful `erase_bank` on the block it erases: the listed error flags cleared and
      BSY (and on H7 QW) clear; when that block's CR is open (always for bank 1, which the
      driver unlocks) the start bit is set and the family's mass-erase bit cleared again:
      MER on F3, F4 and G0, BER on H7, MER1 on L4 and G4. WL and the default families set
      MER1 for bank 1 and then clear MER, so MER1 stays set. H7 bank 2's CR is never
      unlocked by the driver: while it is locked the call returns Ok with that CR unchanged. */
  lemma EraseBankSuccess(v: Variant, m: Machine, bank: Bank)
    requires var u := Unlocked(m.regs.bank1);
      !u.cr.lock && !m.regs.(bank1 := u).Get(TargetBank(v, bank)).sr.bsy
    ensures var o := EraseBankSpec(v, m, bank);
      var t, b := o.m.regs.Get(TargetBank(v, bank)), m.regs.Get(TargetBank(v, bank));
      && o.res == Ok
      && (forall f: Flag :: f in t.sr.errs <==> f in b.sr.errs && f !in ErrorFlags(v))
      && !t.sr.bsy && (v == H7 ==> !t.sr.qw) && o.m.regs.bank1.cr.lock
      && (TargetBank(v, bank) == B2 && b.cr.lock ==> t.cr == b.cr)
      && (TargetBank(v, bank) == B1 || !b.cr.lock ==>
            && t.cr.strt
            && (v == F3 || v == F4 || v == G0 ==> !t.cr.mer && t.cr.mer1 == b.cr.mer1)
            && (v == H7 ==> !t.cr.ber)
            && (v == L4 || v == G4 || v == G4DualCapable ==> !t.cr.mer1 && t.cr.mer == b.cr.mer)
            && (v == WL || v == Other ==> !t.cr.mer && t.cr.mer1 == (b.cr.mer1 || bank == B1)))
  {
    var tb := TargetBank(v, bank);
    var p := m.regs.(bank1 := Unlocked(m.regs.bank1));
    var c := ErrorsCleared(v, p.Get(tb));
    BankEraseDoneFacts(v, bank, c);
    var done := Relock(p.Put(tb, BankEraseDone(v, bank, c)));
    assert EraseBankSpec(v, m, bank).m.regs == done;
    assert done.Get(tb) == if tb == B1 then Relocked(BankEraseDone(v, bank, c)) else BankEraseDone(v, bank, c);
  }

  /** The whole CR a successful `erase_bank` leaves on the block it erases, when that CR is
      open: `MassErasedCr` of the CR it found, with LOCK as the driver leaves it (set again on
      bank 1), so PER, SER, PG, PNB and SNB are untouched. */
  lemma EraseBankLeavesCr(v: Variant, m: Machine, bank: Bank)
    requires var u := Unlocked(m.regs.bank1);
      !u.cr.lock && !m.regs.(bank1 := u).Get(TargetBank(v, bank)).sr.bsy
    requires TargetBank(v, bank) == B1 || !m.regs.Get(TargetBank(v, bank)).cr.lock
    ensures var t, b := EraseBankSpec(v, m, bank).m.regs.Get(TargetBank(v, bank)).cr, m.regs.Get(TargetBank(v, bank)).cr;
      t == MassErasedCr(v, bank, b.(lock := false)).(lock := t.lock)
  {
    var tb := TargetBank(v, bank);
    var p := m.regs.(bank1 := Unlocked(m.regs.bank1));
    var c := ErrorsCleared(v, p.Get(tb));
    var t0 := BankEraseDone(v, bank, c);
    var erased := MassErasedCr(v, bank, m.regs.Get(tb).cr.(lock := false));
    var t := EraseBankSpec(v, m, bank).m.regs.Get(tb).cr;
    assert t0.cr == erased by {
      BankEraseFrame(v, bank, c);
      assert c.cr == m.regs.Get(tb).cr.(lock := false);
    }
    assert t == if tb == B1 then t0.cr.(lock := true) else t0.cr by {
      RelockPut(p, tb, t0);
      assert EraseBankSpec(v, m, bank).m.regs == Relock(p.Put(tb, t0));
    }
    LockAside(t, erased, if tb == B1 then true else erased.lock);
  }

  /** A CR that differs from x at most in LOCK is x with its own LOCK value. */
  lemma LockAside(t: ControlReg, x: ControlReg, l: bool)
    requires t == x.(lock := l)
    ensures t == x.(lock := t.lock)
  {
  }

  /** A successful `erase_bank` leaves AR of the block it erases as it was. */
  lemma EraseBankKeepsAr(v: Variant, m: Machine, bank: Bank)
    requires var u := Unlocked(m.regs.bank1);
      !u.cr.lock && !m.regs.(bank1 := u).Get(TargetBank(v, bank)).sr.bsy
    ensures EraseBankSpec(v, m, bank).m.regs.Get(TargetBank(v, bank)).ar == m.regs.Get(TargetBank(v, bank)).ar
  {
    var tb := TargetBank(v, bank);
    var p := m.regs.(bank1 := Unlocked(m.regs.bank1));
    var c := ErrorsCleared(v, p.Get(tb));
    var t0 := BankEraseDone(v, bank, c);
    BankEraseFrame(v, bank, c);
    RelockPut(p, tb, t0);
    assert EraseBankSpec(v, m, bank).m.regs == Relock(p.Put(tb, t0));
  }

  /** Putting a block back and re-locking leaves that block as put, with LOCK set on bank 1. */
  lemma RelockPut(p: Peripheral, tb: Bank, t: RegisterBlock)
    ensures Relock(p.Put(tb, t)).Get(tb).cr == if tb == B1 then t.cr.(lock := true) else t.cr
    ensures Relock(p.Put(tb, t)).Get(tb).ar == t.ar
  {
  }

  /** On L4 and G4, `erase_bank(B2)` sets no erase bit: the only CR changes are START, the
      MER1 clear and LOCK. */
  lemma EraseBank2SetsNoBit(v: Variant, m: Machine)
    requires v == L4 || v == G4 || v == G4DualCapable
    requires var u := Unlocked(m.regs.bank1); !u.cr.lock && !u.sr.bsy
    ensures EraseBankSpec(v, m, B2).m.regs.bank1.cr == m.regs.bank1.cr.(lock := true, strt := true, mer1 := false)
  {
    var c := ErrorsCleared(v, Unlocked(m.regs.bank1));
    assert EraseBankSpec(v, m, B2).m.regs.bank1 == Relocked(BankEraseDone(v, B2, c));
    assert BankEraseDone(v, B2, c).cr == c.cr.(strt := true, mer1 := false);
  }

  // Programming.

  /** A successful `write_page` of every family but H7: flash holds the data's whole chunks,
      as little-endian word pairs, from the page's address on; PG is cleared again, the
      listed error flags are cleared and EOP reads clear once a chunk was written. */
  lemma WritePageSuccess(v: Variant, dual: DualBank, m: Machine, page: nat, bank: Bank, data: seq<uint8>)
    requires var u := Unlocked(m.regs.bank1); !u.cr.lock && !u.sr.bsy
    ensures var o := WritePageSpec(v, dual, m, page, bank, data); var r, b := o.m.regs.bank1, m.regs.bank1;
      && o.res == Ok
      && o.m.mem == StoreWords(m.mem, TargetAddress(v, dual, page, bank), ChunkWords(data))
      && (forall f: Flag :: f in r.sr.errs <==> f in b.sr.errs && f !in ErrorFlags(v))
      && r.cr.lock && !r.cr.pg && !r.sr.bsy
      && r.sr.eop == (b.sr.eop && |data| < 8)
      && r.cr.per == b.cr.per && r.cr.ser == b.cr.ser && r.cr.mer == b.cr.mer && r.cr.mer1 == b.cr.mer1
      && o.m.regs.bank2 == m.regs.bank2
  {
  }

  /** After a successful `write_page`, the 64-bit `read` of cell k of the page is the
      little-endian value of the data's k-th 8-byte chunk. */
  lemma WritePageThenRead(v: Variant, dual: DualBank, m: Machine, page: nat, bank: Bank, data: seq<uint8>, k: nat)
    requires var u := Unlocked(m.regs.bank1); !u.cr.lock && !u.sr.bsy
    requires k < |data| / 8
    ensures ReadDouble(WritePageSpec(v, dual, m, page, bank, data).m.mem, TargetAddress(v, dual, page, bank) + 8 * k)
         == FromLeBytes(data[8 * k..8 * k + 8])
  {
    ProgramThenRead(m.mem, TargetAddress(v, dual, page, bank), data, k);
  }

  /** `write_page` changes flash only at the word addresses its chunks cover: two words per
      whole chunk from the page's address on. */
  lemma WritePageTouchesOnlyItsWords(v: Variant, dual: DualBank, m: Machine, page: nat, bank: Bank, data: seq<uint8>)
    ensures var mem, base := WritePageSpec(v, dual, m, page, bank, data).m.mem, TargetAddress(v, dual, page, bank);
      && (forall a: nat :: a in m.mem && !Written(base, 2 * (|data| / 8), a) ==> a in mem && mem[a] == m.mem[a])
      && (forall a: nat :: a in mem ==> a in m.mem || Written(base, 2 * (|data| / 8), a))
  {
    StoreWordsContents(m.mem, TargetAddress(v, dual, page, bank), ChunkWords(data));
  }

  /** A successful H7 `write_page`: flash holds the words from the sector's address on, and
      PG, which the driver never clears, stays set in bank 1's CR. */
  lemma WritePageH7Success(m: Machine, page: nat, bank: Bank, data: seq<uint32>)
    requires !Unlocked(m.regs.bank1).cr.lock
    ensures var o := WritePageH7Spec(m, page, bank, data);
      && o.res == Ok
      && o.m.mem == StoreWords(m.mem, SectorToAddress(page, bank), data)
      && o.m.regs.bank1.cr.pg && o.m.regs.bank1.cr.lock
      && o.m.regs.bank1.sr.errs == m.regs.bank1.sr.errs
      && o.m.regs.bank2 == m.regs.bank2
  {
  }

  /** After a successful H7 `write_page`, word k of the sector holds the k-th word written. */
  lemma WritePageH7ThenRead(m: Machine, page: nat, bank: Bank, data: seq<uint32>, k: nat)
    requires !Unlocked(m.regs.bank1).cr.lock
    requires k < |data|
    ensures WordAt(WritePageH7Spec(m, page, bank, data).m.mem, SectorToAddress(page, bank) + 4 * k) == data[k]
  {
    StoredWordAt(m.mem, SectorToAddress(page, bank), data, k);
  }

  // Erase, then write.

  /** `erase_write_page` ignores the erase's result: with a consistent key unit, the write
      stores the data whenever the first `unlock` succeeds, even when the erase returned
      `Busy`, and nothing is stored when it fails. */
  lemma EraseWritePageStores(v: Variant, dual: DualBank, m: Machine, page: nat, bank: Bank, data: seq<uint8>)
    requires KeyStateValid(m.regs.bank1)
    ensures EraseWritePageSpec(v, dual, m, page, bank, data).mem
         == if !m.regs.bank1.cr.lock || KeysClean(m.regs.bank1)
            then StoreWords(m.mem, TargetAddress(v, dual, page, bank), ChunkWords(data))
            else m.mem
  {
    var e := ErasePageSpec(v, m, page).m;
    if !m.regs.bank1.cr.lock || KeysClean(m.regs.bank1) {
      ErasePageLeavesKeysClean(v, m, page);
      WritePageSuccess(v, dual, e, page, bank, data);
    } else {
      UnlockFailureSticky(m);
      assert e == UnlockSpec(m).m;
      OnlySuccessfulWritesStore(v, dual, e, page, bank, data, []);
    }
  }

  /** When `unlock` succeeds, `erase_page` returns with CR locked, BSY clear, the key unit
      clean and flash unchanged, so the next `unlock` succeeds too. */
  lemma ErasePageLeavesKeysClean(v: Variant, m: Machine, page: nat)
    requires KeyStateValid(m.regs.bank1)
    requires !m.regs.bank1.cr.lock || KeysClean(m.regs.bank1)
    ensures var r := ErasePageSpec(v, m, page).m.regs.bank1;
      KeysClean(r) && !r.sr.bsy && !Unlocked(r).cr.lock && !Unlocked(r).sr.bsy
    ensures ErasePageSpec(v, m, page).m.mem == m.mem
  {
    assert KeysClean(Unlocked(m.regs.bank1));
  }

  /** The same for H7's `erase_write_page`: the sector erase, then the word writes. */
  lemma EraseWritePageH7Stores(m: Machine, page: nat, bank: Bank, data: seq<uint32>)
    requires KeyStateValid(m.regs.bank1)
    ensures EraseWritePageH7Spec(m, page, bank, data).mem
         == if !m.regs.bank1.cr.lock || KeysClean(m.regs.bank1)
            then StoreWords(m.mem, SectorToAddress(page, bank), data)
            else m.mem
  {
    var e := EraseSectorSpec(m, page, bank).m;
    if !m.regs.bank1.cr.lock || KeysClean(m.regs.bank1) {
      EraseSectorLeavesKeysClean(m, page, bank);
      WritePageH7Success(e, page, bank, data);
    } else {
      UnlockFailureSticky(m);
      assert e == UnlockSpec(m).m;
      OnlySuccessfulWritesStore(H7, Single, e, page, bank, [], data);
    }
  }

  /** When `unlock` succeeds, `erase_sector` returns with bank 1's CR locked, its key unit
      clean and flash unchanged. */
  lemma EraseSectorLeavesKeysClean(m: Machine, sector: nat, bank: Bank)
    requires KeyStateValid(m.regs.bank1)
    requires !m.regs.bank1.cr.lock || KeysClean(m.regs.bank1)
    ensures var r := EraseSectorSpec(m, sector, bank).m.regs.bank1; KeysClean(r) && !Unlocked(r).cr.lock
    ensures EraseSectorSpec(m, sector, bank).m.mem == m.mem
  {
    var u := Unlocked(m.regs.bank1);
    assert KeysClean(u);
    var p := m.regs.(bank1 := u);
    var erased := SectorEraseDone(ErrorsCleared(H7, p.Get(bank)), sector);
    assert KeysClean(p.Put(bank, erased).bank1);
  }

  // Clearing the error flags.

  /** A second clearing pass finds nothing to clear: on every family but H7 it changes
      nothing, and on H7 it writes nothing to CCR. */
  /** The CCR writes of H7's clearing pass: no flag is written twice, the flags written are
      exactly the listed ones that were set, and all nine are written exactly when every
      listed flag was set. */
  lemma H7ClearWritesEachFlagOnce(r: RegisterBlock)
    ensures var w := ErrorsCleared(H7, r).ccr[|r.ccr|..];
      && NoRepeats(w)
      && (forall f :: f in w <==> f in ErrorFlags(H7) && f in r.sr.errs)
      && (|w| == |ErrorFlags(H7)| <==> forall i :: 0 <= i < |ErrorFlags(H7)| ==> ErrorFlags(H7)[i] in r.sr.errs)
  {
    var w := ErrorsCleared(H7, r).ccr[|r.ccr|..];
    assert w == Present(ErrorFlags(H7), r.sr.errs);
    ErrorFlagsDistinct(H7);
    PresentDistinct(ErrorFlags(H7), r.sr.errs);
    PresentSubsequence(ErrorFlags(H7), r.sr.errs);
  }

  lemma ErrorsClearedIdempotent(v: Variant, r: RegisterBlock)
    ensures var c := ErrorsCleared(v, r);
      ErrorsCleared(v, c).sr == c.sr && ErrorsCleared(v, c).ccr == c.ccr
    ensures v != H7 ==> ErrorsCleared(v, ErrorsCleared(v, r)) == ErrorsCleared(v, r)
  {
    var c := ErrorsCleared(v, r);
    PresentNone(ErrorFlags(v), c.sr.errs);
  }
}
