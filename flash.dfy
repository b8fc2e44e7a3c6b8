/** The flash driver: unlocking and locking the control register, page, sector and bank
    erase, page programming and the 64-bit read, each as the register and memory steps the
    driver takes. Every polling loop on BSY, QW or EOP is one hardware step that makes the
    polled bit take the value the driver waits for. */
module FlashDriver {
  import opened FlashTypes
  import opened Registers
  import opened Address
  import opened Programming
  import opened Words

  /** What the driver can observe and change: the registers and the words it has stored to
      flash (erasing is not modelled as changing them). */
  datatype Machine = Machine(regs: Peripheral, mem: map<nat, uint32>)

  /** The state an operation leaves and the value it returns. */
  datatype Outcome = Outcome(m: Machine, res: Result)

  /** A register block whose control register is either open or was opened by a correct key
      sequence: an open CR goes with an idle, fault-free key unit. */
  predicate KeyStateValid(r: RegisterBlock) {
    !r.cr.lock ==> KeysClean(r)
  }

  /** Bank 1's registers after `unlock`: untouched when CR is already open, otherwise KEY1 and
      KEY2 written to KEYR; CR opens exactly when it was open or the key unit was clean. */
  function Unlocked(r: RegisterBlock): (u: RegisterBlock)
    ensures !r.cr.lock ==> u == r
    ensures r.cr.lock ==> u.keyr == r.keyr + [FLASH_KEY1, FLASH_KEY2]
    ensures u.sr == r.sr && u.ar == r.ar && u.ccr == r.ccr
    ensures u.cr == r.cr.(lock := u.cr.lock)
    ensures !u.cr.lock <==> !r.cr.lock || KeysClean(r)
  {
    if r.cr.lock then KeyWrite(KeyWrite(r, FLASH_KEY1), FLASH_KEY2) else r
  }

  /** Bank 1's registers after `lock`: BSY has been seen clear and LOCK is set. */
  function Relocked(r: RegisterBlock): (l: RegisterBlock)
    ensures l.cr.lock && !l.sr.bsy && KeyStateValid(l)
  {
    r.(sr := r.sr.(bsy := false), cr := r.cr.(lock := true))
  }

  function Relock(p: Peripheral): Peripheral {
    p.(bank1 := Relocked(p.bank1))
  }

  /** A register block after `clear_error_flags` of family v: every listed flag that was set
      is cleared, by a write to SR or, on H7, by a write to CCR for each one in list order. */
  function ErrorsCleared(v: Variant, r: RegisterBlock): (c: RegisterBlock)
    ensures forall f: Flag :: f in c.sr.errs <==> f in r.sr.errs && f !in ErrorFlags(v)
    ensures c.sr.bsy == r.sr.bsy && c.sr.qw == r.sr.qw && c.sr.eop == r.sr.eop
    ensures c.cr == r.cr && c.ar == r.ar && c.keyr == r.keyr
    ensures c.keyArmed == r.keyArmed && c.keyFault == r.keyFault
    ensures c.ccr == if v == H7 then r.ccr + Present(ErrorFlags(v), r.sr.errs) else r.ccr
    ensures ErrorsClear(v, c)
  {
    var listed := set f: Flag | f in ErrorFlags(v);
    var c := r.(sr := r.sr.(errs := r.sr.errs - listed));
    if v == H7 then c.(ccr := r.ccr + Present(ErrorFlags(v), r.sr.errs)) else c
  }

  /** No flag of the family's list reads set: the state `clear_error_flags` leaves. The start
      and programming steps need it, since a flag left over from an earlier operation makes
      the controller refuse the next one (PGSERR). */
  predicate ErrorsClear(v: Variant, r: RegisterBlock) {
    forall f :: f in ErrorFlags(v) ==> f !in r.sr.errs
  }

  /** The family's page-erase mode bit is set and the page is loaded: PER and AR (F3), SER
      and SNB (F4) or PER and PNB (the others), each holding the index cut to its width. */
  predicate PageLoaded(v: Variant, r: RegisterBlock, page: nat) {
    match v
    case F3 => r.cr.per && r.ar == page % 0x1_0000_0000
    case F4 => r.cr.ser && r.cr.snb == page % 0x100
    case _ => r.cr.per && r.cr.pnb == page % 0x100
  }

  /** The registers after `erase_page` has loaded the page into an open CR. */
  function PageSelected(v: Variant, r: RegisterBlock, page: nat): (s: RegisterBlock)
    ensures PageLoaded(v, s, page)
    ensures s == r.(cr := s.cr, ar := s.ar) && s.cr.lock == r.cr.lock && s.cr.strt == r.cr.strt
    ensures v != F3 ==> s.ar == r.ar
  {
    match v
    case F3 => r.(cr := r.cr.(per := true), ar := page % 0x1_0000_0000)
    case F4 => r.(cr := r.cr.(ser := true, snb := page % 0x100))
    case _ => r.(cr := r.cr.(pnb := page % 0x100, per := true))
  }

  /** A block after the start bit (STRT, or START on L4 and H7) is written: the controller
      takes the command, so BSY reads set (QW on H7) until the operation ends. A locked CR
      ignores the write and nothing starts. */
  function Started(v: Variant, r: RegisterBlock): (s: RegisterBlock)
    ensures r.cr.lock ==> s == r
    ensures !r.cr.lock ==> s.cr == r.cr.(strt := true) && (if v == H7 then s.sr.qw else s.sr.bsy)
  {
    if r.cr.lock then r
    else r.(cr := r.cr.(strt := true), sr := if v == H7 then r.sr.(qw := true) else r.sr.(bsy := true))
  }

  /** The registers `erase_page` leaves before re-locking, from those with the page loaded:
      the start bit set, BSY seen clear, EOP seen and cleared on F3 and F4, and the mode bit
      (SER on F4, PER elsewhere) cleared. */
  function PageEraseFinished(v: Variant, r: RegisterBlock): RegisterBlock {
    var cr := if v == F4 then r.cr.(strt := true, ser := false) else r.cr.(strt := true, per := false);
    var sr := if v == F3 || v == F4 then r.sr.(bsy := false, eop := false) else r.sr.(bsy := false);
    r.(cr := cr, sr := sr)
  }

  function PageEraseDone(v: Variant, r: RegisterBlock, page: nat): RegisterBlock {
    PageEraseFinished(v, PageSelected(v, r, page))
  }

  /** The target block of `erase_sector` after its steps: SER and SNB loaded, START set and
      QW seen clear. SER is never cleared again. A locked CR (bank 2's, which `unlock`
      never opens) ignores the writes, so only the wait on QW takes effect. */
  function SectorEraseDone(r: RegisterBlock, sector: nat): RegisterBlock {
    var cr := if r.cr.lock then r.cr else r.cr.(ser := true, snb := sector % 0x100, strt := true);
    r.(cr := cr, sr := r.sr.(qw := false))
  }

  function OtherBank(b: Bank): Bank {
    if b == B1 then B2 else B1
  }

  /** The block `erase_bank` erases: the chosen bank's on H7, the only one elsewhere. */
  function TargetBank(v: Variant, bank: Bank): Bank {
    if v == H7 then bank else B1
  }

  /** The target block of `erase_bank` before re-locking: the hardware's response to the
      family's mass-erase bit being written, the start and the waits for QW (H7) and BSY, and
      the bit being cleared again. A locked CR (H7 bank 2's) ignores every write, so only the
      waits take effect. What this leaves in each family is stated in `BankEraseDoneFacts`. */
  function BankEraseDone(v: Variant, bank: Bank, r: RegisterBlock): RegisterBlock {
    var armed := CrWrite(r, MassEraseArmed(v, bank, r.cr));
    var run := MassEraseRun(v, armed);
    CrWrite(run, MassEraseDisarmed(v, run.cr))
  }

  /** CR with the family's mass-erase bit set; the L4/G4 branch and the default branch set
      MER1 only when bank 1 is asked for. */
  function MassEraseArmed(v: Variant, bank: Bank, cr: ControlReg): (a: ControlReg)
    ensures MassEraseSelected(v, bank, a)
    ensures a == cr.(mer := a.mer, mer1 := a.mer1, ber := a.ber)
  {
    match v
    case F3 | F4 | G0 => cr.(mer := true)
    case H7 => cr.(ber := true)
    case _ => if bank == B1 then cr.(mer1 := true) else cr
  }

  /** The bit `erase_bank` sets before starting is set: MER, BER, or MER1 when bank 1 is
      asked for (bank 2 asks for no bit on the remaining families). */
  predicate MassEraseSelected(v: Variant, bank: Bank, cr: ControlReg) {
    match v
    case F3 | F4 | G0 => cr.mer
    case H7 => cr.ber
    case _ => bank == B1 ==> cr.mer1
  }

  /** A block after the start bit is written and QW (H7) and BSY are seen clear. */
  function MassEraseRun(v: Variant, r: RegisterBlock): RegisterBlock {
    r.(cr := if r.cr.lock then r.cr else r.cr.(strt := true),
       sr := if v == H7 then r.sr.(qw := false, bsy := false) else r.sr.(bsy := false))
  }

  /** CR with the bit `erase_bank` clears after the erase: BER (H7), MER1 (L4, G4), MER elsewhere. */
  function MassEraseDisarmed(v: Variant, cr: ControlReg): ControlReg {
    if v == H7 then cr.(ber := false)
    else if v == L4 || v == G4 || v == G4DualCapable then cr.(mer1 := false)
    else cr.(mer := false)
  }

  /** Bank 1's block after the programming steps of `write_page`: PG set and cleared again,
      and EOP cleared after the first chunk when one was written. */
  function ProgramDone(r: RegisterBlock, chunks: nat): RegisterBlock {
    r.(cr := r.cr.(pg := false), sr := r.sr.(eop := r.sr.eop && chunks == 0))
  }

  /** `unlock`: `Ok` exactly when bank 1's CR ends open, `Failure` otherwise; flash and bank 2
      are untouched. */
  function UnlockSpec(m: Machine): (o: Outcome)
    ensures o.res == Ok <==> !o.m.regs.bank1.cr.lock
    ensures o.res != Ok ==> o.res == Err(Failure)
    ensures o.m.mem == m.mem && o.m.regs.bank2 == m.regs.bank2
  {
    var u := Unlocked(m.regs.bank1);
    Outcome(m.(regs := m.regs.(bank1 := u)), if u.cr.lock then Err(Failure) else Ok)
  }

  /** `lock`: bank 1's CR ends locked with BSY clear; flash and bank 2 are untouched. */
  function LockSpec(m: Machine): (l: Machine)
    ensures l.regs.bank1.cr.lock && !l.regs.bank1.sr.bsy
    ensures l.mem == m.mem && l.regs.bank2 == m.regs.bank2
  {
    m.(regs := Relock(m.regs))
  }

  /** `erase_page`: ends locked on every path and stores nothing; bank 2 is untouched. */
  function ErasePageSpec(v: Variant, m: Machine, page: nat): (o: Outcome)
    ensures o.m.regs.bank1.cr.lock && o.m.mem == m.mem && o.m.regs.bank2 == m.regs.bank2
    ensures o.res == Ok || o.res == Err(Busy) || o.res == Err(Failure)
  {
    var u := Unlocked(m.regs.bank1);
    if u.cr.lock then Outcome(m.(regs := m.regs.(bank1 := u)), Err(Failure))
    else if u.sr.bsy then Outcome(m.(regs := m.regs.(bank1 := Relocked(u))), Err(Busy))
    else Outcome(m.(regs := m.regs.(bank1 := Relocked(PageEraseDone(v, ErrorsCleared(v, u), page)))), Ok)
  }

  /** `erase_sector`: ends with bank 1 locked on every path, stores nothing, and fails only
      with `Failure`. */
  function EraseSectorSpec(m: Machine, sector: nat, bank: Bank): (o: Outcome)
    ensures o.m.regs.bank1.cr.lock && o.m.mem == m.mem
    ensures o.res == Ok || o.res == Err(Failure)
  {
    var u := Unlocked(m.regs.bank1);
    if u.cr.lock then Outcome(m.(regs := m.regs.(bank1 := u)), Err(Failure))
    else
      var p := m.regs.(bank1 := u);
      var erased := SectorEraseDone(ErrorsCleared(H7, p.Get(bank)), sector);
      Outcome(m.(regs := Relock(p.Put(bank, erased))), Ok)
  }

  /** `erase_bank`: ends with bank 1 locked on every path and stores nothing. */
  function EraseBankSpec(v: Variant, m: Machine, bank: Bank): (o: Outcome)
    ensures o.m.regs.bank1.cr.lock && o.m.mem == m.mem
    ensures o.res == Ok || o.res == Err(Busy) || o.res == Err(Failure)
  {
    var u := Unlocked(m.regs.bank1);
    if u.cr.lock then Outcome(m.(regs := m.regs.(bank1 := u)), Err(Failure))
    else
      var p := m.regs.(bank1 := u);
      var t := TargetBank(v, bank);
      if p.Get(t).sr.bsy then Outcome(m.(regs := Relock(p)), Err(Busy))
      else
        var erased := BankEraseDone(v, bank, ErrorsCleared(v, p.Get(t)));
        Outcome(m.(regs := Relock(p.Put(t, erased))), Ok)
  }

  /** `write_page`: ends locked on every path, and stores nothing unless it succeeds. */
  function WritePageSpec(v: Variant, dual: DualBank, m: Machine, page: nat, bank: Bank, data: seq<uint8>): (o: Outcome)
    ensures o.m.regs.bank1.cr.lock && o.m.regs.bank2 == m.regs.bank2
    ensures o.res != Ok ==> o.m.mem == m.mem
    ensures o.res == Ok || o.res == Err(Busy) || o.res == Err(Failure)
  {
    var u := Unlocked(m.regs.bank1);
    if u.cr.lock then Outcome(m.(regs := m.regs.(bank1 := u)), Err(Failure))
    else if u.sr.bsy then Outcome(m.(regs := m.regs.(bank1 := Relocked(u))), Err(Busy))
    else
      var r := ProgramDone(ErrorsCleared(v, u), |data| / 8);
      var stored := StoreWords(m.mem, TargetAddress(v, dual, page, bank), ChunkWords(data));
      Outcome(Machine(m.regs.(bank1 := Relocked(r)), stored), Ok)
  }

  /** H7 `write_page`: ends with bank 1 locked on every path, and stores nothing unless it
      succeeds. */
  function WritePageH7Spec(m: Machine, page: nat, bank: Bank, data: seq<uint32>): (o: Outcome)
    ensures o.m.regs.bank1.cr.lock && o.m.regs.bank2 == m.regs.bank2
    ensures o.res != Ok ==> o.m.mem == m.mem
    ensures o.res == Ok || o.res == Err(Failure)
  {
    var u := Unlocked(m.regs.bank1);
    if u.cr.lock then Outcome(m.(regs := m.regs.(bank1 := u)), Err(Failure))
    else
      var r := u.(cr := u.cr.(pg := true), sr := u.sr.(qw := u.sr.qw && data == []));
      var stored := StoreWords(m.mem, SectorToAddress(page, bank), data);
      Outcome(Machine(m.regs.(bank1 := Relocked(r)), stored), Ok)
  }

  /** `erase_write_page`: `write_page` on whatever state `erase_page` left; it ends locked. */
  function EraseWritePageSpec(v: Variant, dual: DualBank, m: Machine, page: nat, bank: Bank, data: seq<uint8>): (e: Machine)
    ensures e.regs.bank1.cr.lock && e.regs.bank2 == m.regs.bank2
  {
    WritePageSpec(v, dual, ErasePageSpec(v, m, page).m, page, bank, data).m
  }

  /** H7 `erase_write_page`: `write_page` on whatever state `erase_sector` left; it ends
      with bank 1 locked. */
  function EraseWritePageH7Spec(m: Machine, page: nat, bank: Bank, data: seq<uint32>): (e: Machine)
    ensures e.regs.bank1.cr.lock
  {
    WritePageH7Spec(EraseSectorSpec(m, page, bank).m, page, bank, data).m
  }

  /** The driver object: the controller's register blocks (bank 2's is used only on H7), the
      DBANK setting of the dual-bank-capable G4 parts, and the words the driver has stored
      to flash. */
  class Flash {
    const variant: Variant
    var dualBank: DualBank
    var bank1: RegisterBlock
    var bank2: RegisterBlock
    var mem: map<nat, uint32>

    /** `Flash::new`: takes the register blocks; the G4 DBANK setting starts as single-bank. */
    constructor (variant: Variant, regs: Peripheral, mem: map<nat, uint32>)
      ensures this.variant == variant && Peripheral(bank1, bank2) == regs && this.mem == mem
      ensures dualBank == Single
    {
      this.variant := variant;
      bank1 := regs.bank1;
      bank2 := regs.bank2;
      this.mem := mem;
      dualBank := Single;
    }

    function State(): Machine
      reads this
    {
      Machine(Peripheral(bank1, bank2), mem)
    }

    function Regs(b: Bank): RegisterBlock
      reads this
    {
      Peripheral(bank1, bank2).Get(b)
    }

    // Register accesses and hardware steps on bank 1's block, the only one outside H7.

    /** A read-modify-write of CR that leaves c there unless CR is locked. The start bit is
        written only by the start steps below, which also start the operation. */
    method ModifyCr(c: ControlReg)
      requires c.strt == bank1.cr.strt
      modifies this`bank1
      ensures bank1 == CrWrite(old(bank1), c)
    {
      bank1 := CrWrite(bank1, c);
    }

    method WriteAr(a: uint32)
      modifies this`bank1
      ensures bank1 == old(bank1).(ar := a)
    {
      bank1 := bank1.(ar := a);
    }

    method WriteKey(k: uint32)
      modifies this`bank1
      ensures bank1 == KeyWrite(old(bank1), k)
    {
      bank1 := KeyWrite(bank1, k);
    }

    /** A write of a 1 to flag f in SR, which clears f and nothing else. */
    method ClearStatusFlag(f: Flag)
      modifies this`bank1
      ensures bank1 == old(bank1).(sr := old(bank1).sr.(errs := old(bank1).sr.errs - {f}))
    {
      bank1 := bank1.(sr := bank1.sr.(errs := bank1.sr.errs - {f}));
    }

    /** A write of a 1 to EOP, made once EOP has been seen set, which clears it. */
    method ClearEndOfOperation()
      requires bank1.sr.eop
      modifies this`bank1
      ensures bank1 == old(bank1).(sr := old(bank1).sr.(eop := false))
    {
      bank1 := bank1.(sr := bank1.sr.(eop := false));
    }

    /** The wait until BSY reads clear. */
    method AwaitNotBusy()
      modifies this`bank1
      ensures bank1 == old(bank1).(sr := old(bank1).sr.(bsy := false))
    {
      bank1 := bank1.(sr := bank1.sr.(bsy := false));
    }

    /** The wait until EOP reads set, which follows the wait for BSY. */
    method AwaitEndOfOperation()
      requires !bank1.sr.bsy
      modifies this`bank1
      ensures bank1 == old(bank1).(sr := old(bank1).sr.(eop := true))
    {
      bank1 := bank1.(sr := bank1.sr.(eop := true));
    }

    /** The wait until QW reads clear. */
    method AwaitQueueEmpty()
      modifies this`bank1
      ensures bank1 == old(bank1).(sr := old(bank1).sr.(qw := false))
    {
      bank1 := bank1.(sr := bank1.sr.(qw := false));
    }

    // The same accesses on the block of a chosen H7 bank; the other bank's block is untouched.

    /** Replaces bank b's block by r. */
    method SetRegs(b: Bank, r: RegisterBlock)
      modifies this`bank1, this`bank2
      ensures Regs(b) == r && Regs(OtherBank(b)) == old(Regs(OtherBank(b)))
    {
      if b == B1 {
        bank1 := r;
      } else {
        bank2 := r;
      }
    }

    /** A read-modify-write of bank b's CR, which a locked CR ignores. */
    method ModifyBankCr(b: Bank, c: ControlReg)
      requires c.strt == Regs(b).cr.strt
      modifies this`bank1, this`bank2
      ensures Regs(b) == CrWrite(old(Regs(b)), c) && Regs(OtherBank(b)) == old(Regs(OtherBank(b)))
    {
      SetRegs(b, CrWrite(Regs(b), c));
    }

    /** A write of f's clear bit to CCR: it is logged and the hardware clears f in SR. */
    method ClearViaCcr(b: Bank, f: Flag)
      modifies this`bank1, this`bank2
      ensures var r := old(Regs(b));
        Regs(b) == r.(sr := r.sr.(errs := r.sr.errs - {f}), ccr := r.ccr + [f])
      ensures Regs(OtherBank(b)) == old(Regs(OtherBank(b)))
    {
      var r := Regs(b);
      SetRegs(b, r.(sr := r.sr.(errs := r.sr.errs - {f}), ccr := r.ccr + [f]));
    }

    /** The wait for BSY after a start, which on H7 follows the wait for QW. */
    method AwaitBankNotBusy(b: Bank)
      requires Regs(b).cr.lock || Regs(b).cr.strt
      requires variant == H7 ==> !Regs(b).sr.qw
      modifies this`bank1, this`bank2
      ensures Regs(b) == old(Regs(b)).(sr := old(Regs(b)).sr.(bsy := false))
      ensures Regs(OtherBank(b)) == old(Regs(OtherBank(b)))
    {
      var r := Regs(b);
      SetRegs(b, r.(sr := r.sr.(bsy := false)));
    }

    /** The wait for QW after a start (which a locked CR ignored). */
    method AwaitBankQueueEmpty(b: Bank)
      requires Regs(b).cr.lock || Regs(b).cr.strt
      modifies this`bank1, this`bank2
      ensures Regs(b) == old(Regs(b)).(sr := old(Regs(b)).sr.(qw := false))
      ensures Regs(OtherBank(b)) == old(Regs(OtherBank(b)))
    {
      var r := Regs(b);
      SetRegs(b, r.(sr := r.sr.(qw := false)));
    }

    /** An H7 volatile store of w at address a, made while bank 1's CR is open with PG set:
        the controller queues it, so QW reads set until the programming ends. */
    method WriteWord(a: nat, w: uint32)
      requires variant == H7 && !bank1.cr.lock && bank1.cr.pg
      modifies this`bank1, this`mem
      ensures mem == old(mem)[a := w]
      ensures bank1 == old(bank1).(sr := old(bank1).sr.(qw := true))
    {
      mem := mem[a := w];
      bank1 := bank1.(sr := bank1.sr.(qw := true));
    }

    /** The two volatile stores of one chunk, w1 at a and w2 at a + 4, as the controller takes
        them on every family but H7: one double-word programming, made while CR is open with
        PG set, no earlier operation busy and no listed error flag set; BSY then reads set
        until it ends. */
    method WriteDoubleWord(a: nat, w1: uint32, w2: uint32)
      requires variant != H7 && !bank1.cr.lock && bank1.cr.pg && !bank1.sr.bsy
      requires ErrorsClear(variant, bank1)
      modifies this`bank1, this`mem
      ensures mem == old(mem)[a := w1][a + 4 := w2]
      ensures bank1 == old(bank1).(sr := old(bank1).sr.(bsy := true))
    {
      mem := mem[a := w1];
      mem := mem[a + 4 := w2];
      bank1 := bank1.(sr := bank1.sr.(bsy := true));
    }

    // The driver.

    /** `clear_error_flags` of every family but H7: reads SR once, then for each flag of the
        family's list, in order, writes a 1 to it in SR when the snapshot showed it set. */
    method ClearErrorFlags()
      requires variant != H7
      modifies this`bank1
      ensures bank1 == ErrorsCleared(variant, old(bank1))
    {
      var sr := bank1.sr;
      var flags := ErrorFlags(variant);
      for i := 0 to |flags|
        invariant bank1 == old(bank1).(sr := old(bank1).sr.(errs := old(bank1).sr.errs - ListedUpTo(flags, i)))
      {
        if flags[i] in sr.errs {
          ClearStatusFlag(flags[i]);
        }
        ListedUpToStep(flags, i);
      }
      ListedUpToAll(flags);
    }

    /** H7 `clear_error_flags` on one bank's block: the same pass over H7's list, each clear
        being a write of the flag's clear bit to CCR. */
    method ClearErrorFlagsH7(b: Bank)
      requires variant == H7
      modifies this`bank1, this`bank2
      ensures Regs(b) == ErrorsCleared(H7, old(Regs(b))) && Regs(OtherBank(b)) == old(Regs(OtherBank(b)))
    {
      var sr := Regs(b).sr;
      var flags := ErrorFlags(H7);
      ghost var r0 := Regs(b);
      for i := 0 to |flags|
        invariant Regs(b) == CcrPass(r0, flags, i)
        invariant Regs(OtherBank(b)) == old(Regs(OtherBank(b)))
      {
        ClearViaCcrIfSet(b, flags[i], sr.errs);
        CcrPassStep(r0, flags, i);
      }
      CcrPassAll(r0);
    }

    /** One step of the H7 pass: the CCR write for f, made when the SR snapshot showed f set. */
    method ClearViaCcrIfSet(b: Bank, f: Flag, snapshot: set<Flag>)
      modifies this`bank1, this`bank2
      ensures Regs(b) == CcrClear(old(Regs(b)), f, snapshot)
      ensures Regs(OtherBank(b)) == old(Regs(OtherBank(b)))
    {
      if f in snapshot {
        ClearViaCcr(b, f);
      }
    }

    /** `unlock`: nothing is written when CR is open; otherwise KEY1 then KEY2, once each,
        and the result says whether CR then reads open. */
    method Unlock() returns (res: Result)
      modifies this`bank1
      ensures bank1 == Unlocked(old(bank1))
      ensures res == if bank1.cr.lock then Err(Failure) else Ok
    {
      if !bank1.cr.lock {
        return Ok;
      }
      WriteKey(FLASH_KEY1);
      WriteKey(FLASH_KEY2);
      if !bank1.cr.lock {
        res := Ok;
      } else {
        res := Err(Failure);
      }
    }

    /** `lock`: waits for BSY to clear, then sets LOCK. */
    method Lock()
      modifies this`bank1
      ensures bank1 == Relocked(old(bank1))
    {
      AwaitNotBusy();
      ModifyCr(bank1.cr.(lock := true));
    }

    /** `erase_page` of every family but H7. The bank argument plays no part. */
    method ErasePage(page: nat, bank: Bank) returns (res: Result)
      requires variant != H7
      modifies this`bank1
      ensures Outcome(State(), res) == ErasePageSpec(variant, old(State()), page)
      ensures bank1.cr.lock
    {
      res := Unlock();
      if res.Err? {
        return;
      }
      if bank1.sr.bsy {
        Lock();
        return Err(Busy);
      }
      ClearErrorFlags();
      SelectPage(page);
      FinishPageErase(page);
      Lock();
      res := Ok;
    }

    /** Step 3 of `erase_page`: the mode bit and the page, in the family's registers. */
    method SelectPage(page: nat)
      requires !bank1.cr.lock
      modifies this`bank1
      ensures bank1 == PageSelected(variant, old(bank1), page)
    {
      match variant {
        case F3 => SelectPageByAddress(page);
        case F4 => SelectSector(page);
        case G4DualCapable =>
          if dualBank == Dual {
            SelectPageNumber(page);
          } else {
            SelectPageNumber(page);
          }
        case _ => SelectPageNumber(page);
      }
    }

    /** F3: PER, then the page index, cut to 32 bits, in AR (the code writes the index, not
        the page's address). */
    method SelectPageByAddress(page: nat)
      requires variant == F3 && !bank1.cr.lock
      modifies this`bank1
      ensures bank1 == PageSelected(variant, old(bank1), page)
    {
      ModifyCr(bank1.cr.(per := true));
      WriteAr(page % 0x1_0000_0000);
    }

    /** F4: SER and the sector number in SNB. */
    method SelectSector(page: nat)
      requires variant == F4 && !bank1.cr.lock
      modifies this`bank1
      ensures bank1 == PageSelected(variant, old(bank1), page)
    {
      ModifyCr(bank1.cr.(ser := true, snb := page % 0x100));
    }

    /** The other families: the page number in PNB and PER. */
    method SelectPageNumber(page: nat)
      requires variant != F3 && variant != F4 && !bank1.cr.lock
      modifies this`bank1
      ensures bank1 == PageSelected(variant, old(bank1), page)
    {
      ModifyCr(bank1.cr.(pnb := page % 0x100, per := true));
    }

    /** Steps 4 and 5 of `erase_page` and the mode-bit clear after them. */
    method FinishPageErase(page: nat)
      requires variant != H7 && !bank1.cr.lock && PageLoaded(variant, bank1, page)
      requires ErrorsClear(variant, bank1)
      modifies this`bank1
      ensures bank1 == PageEraseFinished(variant, old(bank1))
    {
      StartPageErase(page);
      AwaitPageErased();
      ClearEraseMode();
    }

    /** Step 4 of `erase_page`: the start bit, written once the error flags are cleared and
        the mode bit and the page are loaded; the controller turns BSY on. */
    method StartPageErase(page: nat)
      requires variant != H7 && !bank1.cr.lock && PageLoaded(variant, bank1, page)
      requires ErrorsClear(variant, bank1)
      modifies this`bank1
      ensures bank1 == Started(variant, old(bank1))
    {
      bank1 := Started(variant, bank1);
    }

    /** The wait for BSY to clear after the start and, on F3 and F4, for EOP, which is then
        cleared. */
    method AwaitPageErased()
      requires bank1.cr.strt
      modifies this`bank1
      ensures bank1 == old(bank1).(sr := if variant == F3 || variant == F4
        then old(bank1).sr.(bsy := false, eop := false) else old(bank1).sr.(bsy := false))
    {
      AwaitNotBusy();
      if variant == F3 || variant == F4 {
        AwaitEndOfOperation();
        ClearEndOfOperation();
      }
    }

    /** Clears the page-erase mode bit (SER on F4, PER elsewhere) once the erase has started
        and BSY, and on F3 and F4 EOP, have been seen. */
    method ClearEraseMode()
      requires !bank1.cr.lock && bank1.cr.strt && !bank1.sr.bsy
      requires variant == F3 || variant == F4 ==> !bank1.sr.eop
      modifies this`bank1
      ensures bank1 == old(bank1).(cr := if variant == F4 then old(bank1).cr.(ser := false) else old(bank1).cr.(per := false))
    {
      if variant != F4 {
        ModifyCr(bank1.cr.(per := false));
      } else {
        ModifyCr(bank1.cr.(ser := false));
      }
    }

    /** H7 `erase_sector`: unlocks (bank 1), clears the chosen bank's error flags, loads SER
        and SNB, starts, waits for QW and re-locks bank 1. */
    method EraseSector(sector: nat, bank: Bank) returns (res: Result)
      requires variant == H7
      modifies this`bank1, this`bank2
      ensures Outcome(State(), res) == EraseSectorSpec(old(State()), sector, bank)
      ensures bank1.cr.lock
    {
      res := Unlock();
      if res.Err? {
        return;
      }
      SectorEraseSteps(sector, bank);
      Lock();
      res := Ok;
    }

    /** The steps of `erase_sector` on the chosen bank's block between unlocking and
        re-locking. */
    method SectorEraseSteps(sector: nat, bank: Bank)
      requires variant == H7
      modifies this`bank1, this`bank2
      ensures Regs(bank) == SectorEraseDone(ErrorsCleared(H7, old(Regs(bank))), sector)
      ensures Regs(OtherBank(bank)) == old(Regs(OtherBank(bank)))
    {
      ClearErrorFlagsH7(bank);
      ModifyBankCr(bank, Regs(bank).cr.(ser := true, snb := sector % 0x100));
      StartSectorErase(bank, sector);
      AwaitBankQueueEmpty(bank);
    }

    /** Step 4 of `erase_sector`: START, written once the bank's error flags are cleared and
        SER and the sector are loaded; the controller turns QW on. A locked CR ignores all
        three writes. */
    method StartSectorErase(b: Bank, sector: nat)
      requires variant == H7 && ErrorsClear(H7, Regs(b))
      requires Regs(b).cr.lock || (Regs(b).cr.ser && Regs(b).cr.snb == sector % 0x100)
      modifies this`bank1, this`bank2
      ensures Regs(b) == Started(H7, old(Regs(b))) && Regs(OtherBank(b)) == old(Regs(OtherBank(b)))
    {
      SetRegs(b, Started(variant, Regs(b)));
    }

    /** `erase_bank`: a mass erase of the only bank, or on H7 of the chosen one. */
    method EraseBank(bank: Bank) returns (res: Result)
      modifies this`bank1, this`bank2
      ensures Outcome(State(), res) == EraseBankSpec(variant, old(State()), bank)
      ensures bank1.cr.lock
    {
      res := Unlock();
      if res.Err? {
        return;
      }
      var target := TargetBank(variant, bank);
      var sr := Regs(target).sr;
      if sr.bsy {
        Lock();
        return Err(Busy);
      }
      if variant == H7 {
        ClearErrorFlagsH7(target);
      } else {
        ClearErrorFlags();
      }
      BankEraseSteps(bank, target);
      Lock();
      res := Ok;
    }

    /** The steps of `erase_bank` between clearing the error flags and re-locking: set the
        family's mass-erase bit, start, wait for QW (H7) and BSY, clear the bit again. */
    method BankEraseSteps(bank: Bank, target: Bank)
      requires ErrorsClear(variant, Regs(target))
      modifies this`bank1, this`bank2
      ensures Regs(target) == BankEraseDone(variant, bank, old(Regs(target)))
      ensures Regs(OtherBank(target)) == old(Regs(OtherBank(target)))
    {
      ArmMassErase(bank, target);
      RunMassErase(bank, target);
      DisarmMassErase(target);
    }

    /** Sets the mass-erase bit: MER (F3, F4, G0), BER (H7), MER1 for bank 1 (the rest). */
    method ArmMassErase(bank: Bank, target: Bank)
      modifies this`bank1, this`bank2
      ensures Regs(target) == CrWrite(old(Regs(target)), MassEraseArmed(variant, bank, old(Regs(target)).cr))
      ensures Regs(OtherBank(target)) == old(Regs(OtherBank(target)))
    {
      match variant {
        case F3 | F4 | G0 =>
          ModifyBankCr(target, Regs(target).cr.(mer := true));
        case H7 =>
          ModifyBankCr(target, Regs(target).cr.(ber := true));
        case _ =>
          if bank == B1 {
            ModifyBankCr(target, Regs(target).cr.(mer1 := true));
          }
      }
    }

    /** Sets the start bit once the mass-erase bit is set, and waits for QW (H7) and then
        BSY to clear. */
    method RunMassErase(bank: Bank, target: Bank)
      requires Regs(target).cr.lock || MassEraseSelected(variant, bank, Regs(target).cr)
      requires ErrorsClear(variant, Regs(target))
      modifies this`bank1, this`bank2
      ensures Regs(target) == MassEraseRun(variant, old(Regs(target)))
      ensures Regs(OtherBank(target)) == old(Regs(OtherBank(target)))
    {
      StartMassErase(bank, target);
      AwaitMassErased(target);
    }

    /** Step 4 of `erase_bank`: the start bit, written once the error flags are cleared and
        the family's mass-erase bit is set; the controller turns BSY (QW on H7) on. */
    method StartMassErase(bank: Bank, target: Bank)
      requires Regs(target).cr.lock || MassEraseSelected(variant, bank, Regs(target).cr)
      requires ErrorsClear(variant, Regs(target))
      modifies this`bank1, this`bank2
      ensures Regs(target) == Started(variant, old(Regs(target)))
      ensures Regs(OtherBank(target)) == old(Regs(OtherBank(target)))
    {
      SetRegs(target, Started(variant, Regs(target)));
    }

    /** The waits after the start: QW first on H7, then BSY. */
    method AwaitMassErased(target: Bank)
      requires Regs(target).cr.lock || Regs(target).cr.strt
      modifies this`bank1, this`bank2
      ensures var r := old(Regs(target));
        Regs(target) == r.(sr := if variant == H7 then r.sr.(qw := false, bsy := false) else r.sr.(bsy := false))
      ensures Regs(OtherBank(target)) == old(Regs(OtherBank(target)))
    {
      if variant == H7 {
        AwaitBankQueueEmpty(target);
      }
      AwaitBankNotBusy(target);
    }

    /** Clears the mass-erase bit again (BER on H7, MER1 on L4 and G4, MER on the rest) once
        the erase has started and BSY, and on H7 QW, have been seen clear. */
    method DisarmMassErase(target: Bank)
      requires Regs(target).cr.lock || (Regs(target).cr.strt && !Regs(target).sr.bsy)
      requires variant == H7 ==> !Regs(target).sr.qw
      modifies this`bank1, this`bank2
      ensures Regs(target) == CrWrite(old(Regs(target)), MassEraseDisarmed(variant, old(Regs(target)).cr))
      ensures Regs(OtherBank(target)) == old(Regs(OtherBank(target)))
    {
      if variant == H7 {
        ModifyBankCr(target, Regs(target).cr.(ber := false));
      } else if variant == L4 || variant == G4 || variant == G4DualCapable {
        ModifyBankCr(target, Regs(target).cr.(mer1 := false));
      } else {
        ModifyBankCr(target, Regs(target).cr.(mer := false));
      }
    }

    /** `write_page` of every family but H7: each whole 8-byte chunk of data becomes two
        little-endian words stored at consecutive word addresses from the page's address. */
    method WritePage(page: nat, bank: Bank, data: seq<uint8>) returns (res: Result)
      requires variant != H7
      modifies this`bank1, this`mem
      ensures Outcome(State(), res) == WritePageSpec(variant, dualBank, old(State()), page, bank, data)
      ensures bank1.cr.lock
    {
      res := Unlock();
      if res.Err? {
        return;
      }
      if bank1.sr.bsy {
        Lock();
        return Err(Busy);
      }
      ProgramPage(TargetAddress(variant, dualBank, page, bank), data);
      Lock();
      res := Ok;
    }

    /** Steps 2 to 7 of `write_page`: clear the error flags, set PG, program the chunks from
        address on, clear PG. */
    method ProgramPage(address: nat, data: seq<uint8>)
      requires variant != H7 && !bank1.sr.bsy && !bank1.cr.lock
      modifies this`bank1, this`mem
      ensures mem == StoreWords(old(mem), address, ChunkWords(data))
      ensures bank1 == ProgramDone(ErrorsCleared(variant, old(bank1)), |data| / 8)
    {
      ClearErrorFlags();
      ModifyCr(bank1.cr.(pg := true));
      ProgramChunks(address, data);
      ModifyCr(bank1.cr.(pg := false));
    }

    /** The chunk loop of `write_page`: two word stores per whole 8-byte chunk from address
        on, each chunk followed by the wait for BSY and the EOP clear. */
    method ProgramChunks(address: nat, data: seq<uint8>)
      requires variant != H7 && !bank1.cr.lock && !bank1.sr.bsy && bank1.cr.pg
      requires ErrorsClear(variant, bank1)
      modifies this`bank1, this`mem
      ensures mem == StoreWords(old(mem), address, ChunkWords(data))
      ensures bank1 == old(bank1).(sr := old(bank1).sr.(eop := old(bank1).sr.eop && |data| / 8 == 0))
    {
      for i := 0 to |data| / 8
        invariant mem == StoreWords(old(mem), address, ChunkWords(data[..8 * i]))
        invariant bank1 == old(bank1).(sr := old(bank1).sr.(eop := old(bank1).sr.eop && i == 0))
      {
        assert 8 * i + 8 <= 8 * (|data| / 8) <= |data|;
        ProgramNextChunk(old(mem), address, data, i);
      }
      ChunkWordsDropsTail(data);
    }

    /** Pass i of the chunk loop, at address + 8 * i, with the words of the first i chunks
        already stored. */
    method ProgramNextChunk(ghost m: map<nat, uint32>, address: nat, data: seq<uint8>, i: nat)
      requires variant != H7 && 8 * i + 8 <= |data|
      requires !bank1.cr.lock && bank1.cr.pg && !bank1.sr.bsy && ErrorsClear(variant, bank1)
      requires mem == StoreWords(m, address, ChunkWords(data[..8 * i]))
      modifies this`bank1, this`mem
      ensures mem == StoreWords(m, address, ChunkWords(data[..8 * (i + 1)]))
      ensures bank1 == old(bank1).(sr := old(bank1).sr.(bsy := false, eop := false))
    {
      ProgramChunk(address + 8 * i, data[8 * i..8 * i + 8]);
      WrittenChunk(m, address, data, i);
    }

    /** One pass of the chunk loop: the chunk's two little-endian words stored at a and a + 4,
        then the wait for BSY and, when EOP reads set, its clear. */
    method ProgramChunk(a: nat, chunk: seq<uint8>)
      requires variant != H7 && |chunk| == 8
      requires !bank1.cr.lock && bank1.cr.pg && !bank1.sr.bsy && ErrorsClear(variant, bank1)
      modifies this`bank1, this`mem
      ensures mem == old(mem)[a := LeWord(chunk[0..4])][a + 4 := LeWord(chunk[4..8])]
      ensures bank1 == old(bank1).(sr := old(bank1).sr.(bsy := false, eop := false))
    {
      WriteDoubleWord(a, LeWord(chunk[0..4]), LeWord(chunk[4..8]));
      AwaitNotBusy();
      ClearEndOfOperationIfSet();
    }

    /** The EOP clear after each chunk, made once BSY has been seen clear and only when EOP
        reads set. */
    method ClearEndOfOperationIfSet()
      requires !bank1.sr.bsy
      modifies this`bank1
      ensures bank1 == old(bank1).(sr := old(bank1).sr.(eop := false))
    {
      if bank1.sr.eop {
        ClearEndOfOperation();
      }
    }

    /** H7 `write_page`: sets PG on bank 1, stores each word at the next word address from the
        sector's address in the chosen bank, waiting for bank 1's QW after each, and re-locks. */
    method WritePageH7(page: nat, bank: Bank, data: seq<uint32>) returns (res: Result)
      requires variant == H7
      modifies this`bank1, this`mem
      ensures Outcome(State(), res) == WritePageH7Spec(old(State()), page, bank, data)
      ensures bank1.cr.lock
    {
      res := Unlock();
      if res.Err? {
        return;
      }
      ModifyCr(bank1.cr.(pg := true));
      ProgramWords(SectorToAddress(page, bank), data);
      Lock();
      res := Ok;
    }

    /** The word loop of H7 `write_page`: each word stored at the next word address from
        address on, followed by the wait for QW to clear. */
    method ProgramWords(address: nat, data: seq<uint32>)
      requires variant == H7 && !bank1.cr.lock && bank1.cr.pg
      modifies this`bank1, this`mem
      ensures mem == StoreWords(old(mem), address, data)
      ensures bank1 == old(bank1).(sr := old(bank1).sr.(qw := old(bank1).sr.qw && data == []))
    {
      var a := address;
      for i := 0 to |data|
        invariant a == address + 4 * i
        invariant mem == StoreWords(old(mem), address, data[..i])
        invariant bank1 == old(bank1).(sr := old(bank1).sr.(qw := old(bank1).sr.qw && i == 0))
      {
        WriteWord(a, data[i]);
        a := a + 4;
        AwaitQueueEmpty();
        StoreWordsAppend(old(mem), address, data[..i], data[i]);
        assert data[..i + 1] == data[..i] + [data[i]];
      }
      assert data[..|data|] == data;
    }

    /** `erase_write_page` of every family but H7: both results are discarded. */
    method EraseWritePage(page: nat, bank: Bank, data: seq<uint8>)
      requires variant != H7
      modifies this`bank1, this`mem
      ensures State() == EraseWritePageSpec(variant, dualBank, old(State()), page, bank, data)
    {
      var _ := ErasePage(page, bank);
      var _ := WritePage(page, bank, data);
    }

    /** H7 `erase_write_page`: sector erase, then write; both results are discarded. */
    method EraseWritePageH7(page: nat, bank: Bank, data: seq<uint32>)
      requires variant == H7
      modifies this`bank1, this`bank2, this`mem
      ensures State() == EraseWritePageH7Spec(old(State()), page, bank, data)
    {
      var _ := EraseSector(page, bank);
      var _ := WritePageH7(page, bank, data);
    }

    /** `read` of the families with one linear page layout: the 64-bit cell offset cells
        past the page's address. */
    function Read(page: nat, offset: nat): (v: uint64)
      requires variant != H7 && variant != G4DualCapable
      reads this
      ensures v % 0x1_0000_0000 == WordAt(mem, PageToAddress(page) + 8 * offset)
      ensures v / 0x1_0000_0000 == WordAt(mem, PageToAddress(page) + 8 * offset + 4)
    {
      ReadDouble(mem, PageToAddress(page) + 8 * offset)
    }

    /** `read` of the dual-bank-capable G4 parts, with the DBANK setting passed in and a signed
        cell offset that must stay inside the address space. */
    function ReadG4(page: nat, dual: DualBank, bank: Bank, offset: int): (v: uint64)
      requires variant == G4DualCapable
      requires PageToAddressG4(page, dual, bank) + 8 * offset >= 0
      reads this
      ensures v % 0x1_0000_0000 == WordAt(mem, PageToAddressG4(page, dual, bank) + 8 * offset)
      ensures v / 0x1_0000_0000 == WordAt(mem, PageToAddressG4(page, dual, bank) + 8 * offset + 4)
    {
      ReadDouble(mem, PageToAddressG4(page, dual, bank) + 8 * offset)
    }
  }

  /** The flags among the first i of fs. */
  function ListedUpTo(fs: seq<Flag>, i: nat): set<Flag>
    requires i <= |fs|
  {
    set j | 0 <= j < i :: fs[j]
  }

  lemma ListedUpToStep(fs: seq<Flag>, i: nat)
    requires i < |fs|
    ensures ListedUpTo(fs, i + 1) == ListedUpTo(fs, i) + {fs[i]}
  {
  }

  lemma ListedUpToAll(fs: seq<Flag>)
    ensures ListedUpTo(fs, |fs|) == set f: Flag | f in fs
  {
    forall f: Flag | f in fs
      ensures f in ListedUpTo(fs, |fs|)
    {
      var j :| 0 <= j < |fs| && fs[j] == f;
    }
  }

  /** A block after the CCR write for f, made only when the snapshot showed f set. */
  function CcrClear(r: RegisterBlock, f: Flag, snapshot: set<Flag>): RegisterBlock {
    if f in snapshot then r.(sr := r.sr.(errs := r.sr.errs - {f}), ccr := r.ccr + [f]) else r
  }

  /** A block after the H7 pass has handled the first i flags of fs, starting from r. */
  function CcrPass(r: RegisterBlock, fs: seq<Flag>, i: nat): RegisterBlock
    requires i <= |fs|
  {
    r.(sr := r.sr.(errs := r.sr.errs - ListedUpTo(fs, i)), ccr := r.ccr + Present(fs[..i], r.sr.errs))
  }

  lemma CcrPassStep(r: RegisterBlock, fs: seq<Flag>, i: nat)
    requires i < |fs|
    ensures CcrClear(CcrPass(r, fs, i), fs[i], r.sr.errs) == CcrPass(r, fs, i + 1)
  {
    var f, e := fs[i], r.sr.errs;
    var p := CcrPass(r, fs, i);
    ListedUpToStep(fs, i);
    PresentSnoc(fs[..i], f, e);
    assert fs[..i + 1] == fs[..i] + [f];
    if f in e {
      assert p.sr.errs - {f} == e - ListedUpTo(fs, i + 1);
      assert p.ccr + [f] == r.ccr + Present(fs[..i + 1], e);
    } else {
      assert p.sr.errs == e - ListedUpTo(fs, i + 1);
      assert p.ccr == r.ccr + Present(fs[..i + 1], e);
    }
  }

  /** The whole pass over H7's list is `ErrorsCleared`. */
  lemma CcrPassAll(r: RegisterBlock)
    ensures CcrPass(r, ErrorFlags(H7), |ErrorFlags(H7)|) == ErrorsCleared(H7, r)
  {
    var fs := ErrorFlags(H7);
    ListedUpToAll(fs);
    assert fs[..|fs|] == fs;
  }
}
