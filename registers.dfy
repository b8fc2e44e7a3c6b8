/** The flash controller's registers as the driver sees them: CR (lock and mode bits),
    SR (busy, queue-wait, end-of-operation and the error flags), AR (F3 address
    register), KEYR (a log of the values written to it), CCR (H7 clear register, a log
    of the clear bits written to it), and the hardware's response to key writes. */
module Registers {
  import opened FlashTypes

  /** The status-register error flags that some family's clearing pass names. */
  datatype Flag =
    | WrprtErr | PgErr                                    // F3
    | PgsErr | PgpErr | PgaErr | WrpErr | OpErr | RdErr   // F4 and later families
    | OptvErr | FastErr | MisErr | SizErr | ProgErr       // L4, G0, G4, WL and others
    | DbeccErr | SneccErr1 | RdsErr | RdpErr | IncErr | StrbErr // H7

  /** CR. `strt` is the start bit (named START on L4 and H7); `pnb` and `snb` hold the
      page or sector number the driver loads, `ber` is H7's bank-erase bit. */
  datatype ControlReg = ControlReg(
    lock: bool, per: bool, ser: bool, mer: bool, mer1: bool, ber: bool, pg: bool, strt: bool,
    pnb: uint8, snb: uint8)

  /** SR. Every error flag and EOP is write-1-to-clear. */
  datatype StatusReg = StatusReg(bsy: bool, qw: bool, eop: bool, errs: set<Flag>)

  /** One register block. `keyArmed` (KEY1 accepted, KEY2 awaited) and `keyFault` (a wrong
      key was written; CR stays locked until reset) are the hardware's key-sequence state. */
  datatype RegisterBlock = RegisterBlock(
    cr: ControlReg, sr: StatusReg, ar: uint32, keyr: seq<uint32>, ccr: seq<Flag>,
    keyArmed: bool, keyFault: bool)

  /** The controller's register blocks: every family but H7 uses only `bank1`; H7 has one
      block per bank. */
  datatype Peripheral = Peripheral(bank1: RegisterBlock, bank2: RegisterBlock) {
    function Get(b: Bank): RegisterBlock {
      match b
      case B1 => bank1
      case B2 => bank2
    }

    /** The controller with bank b's block replaced by r and the other block untouched. */
    function Put(b: Bank, r: RegisterBlock): (p: Peripheral)
      ensures p.Get(b) == r
      ensures forall c: Bank :: c != b ==> p.Get(c) == Get(c)
    {
      match b
      case B1 => this.(bank1 := r)
      case B2 => this.(bank2 := r)
    }
  }

  /** The hardware's response to one write of k to KEYR: KEY1 arms the unit, KEY2 after
      KEY1 clears LOCK, any other write latches a fault that keeps CR locked. */
  function KeyWrite(r: RegisterBlock, k: uint32): (w: RegisterBlock)
    ensures w.keyr == r.keyr + [k]
    ensures w.sr == r.sr && w.ar == r.ar && w.ccr == r.ccr
    ensures w.cr == r.cr.(lock := w.cr.lock)
    ensures r.cr.lock && !w.cr.lock ==> !r.keyFault && r.keyArmed && k == FLASH_KEY2
    ensures r.keyFault ==> w.keyFault && w.cr == r.cr
  {
    var logged := r.(keyr := r.keyr + [k]);
    if r.keyFault then logged
    else if !r.keyArmed && k == FLASH_KEY1 then logged.(keyArmed := true)
    else if r.keyArmed && k == FLASH_KEY2 then logged.(keyArmed := false, cr := r.cr.(lock := false))
    else logged.(keyArmed := false, keyFault := true)
  }

  /** The hardware's response to a write of c to CR: a locked CR ignores it. */
  function CrWrite(r: RegisterBlock, c: ControlReg): (w: RegisterBlock)
    ensures w.cr == if r.cr.lock then r.cr else c
    ensures w == r.(cr := w.cr)
  {
    if r.cr.lock then r else r.(cr := c)
  }

  /** The key unit is idle and has seen no wrong key: a KEY1, KEY2 sequence will be accepted. */
  predicate KeysClean(r: RegisterBlock) {
    !r.keyArmed && !r.keyFault
  }

  /** The flags each family's `clear_error_flags` tests and clears, in the order it does so. */
  function ErrorFlags(v: Variant): seq<Flag> {
    match v
    case F3 => [WrprtErr, PgErr]
    case F4 => [PgsErr, PgpErr, PgaErr, WrpErr, OpErr]
    case H7 => [DbeccErr, SneccErr1, RdsErr, RdpErr, OpErr, IncErr, StrbErr, PgsErr, WrpErr]
    case WL => [OptvErr, RdErr, FastErr, PgsErr, SizErr, PgaErr, WrpErr, ProgErr, OpErr]
    case _ => [OptvErr, RdErr, FastErr, MisErr, PgsErr, SizErr, PgaErr, WrpErr, ProgErr, OpErr]
  }

  /** No flag appears twice in fs. */
  predicate NoRepeats(fs: seq<Flag>) {
    forall i, j :: 0 <= i < j < |fs| ==> fs[i] != fs[j]
  }

  /** No family's pass tests a flag twice. */
  lemma ErrorFlagsDistinct(v: Variant)
    ensures NoRepeats(ErrorFlags(v))
  {
    match v
    case F3 =>
    case F4 =>
    case H7 =>
    case WL =>
    case _ =>
  }

  /** The flags of fs that are set in s, in the order of fs. */
  function Present(fs: seq<Flag>, s: set<Flag>): (r: seq<Flag>)
    ensures forall f :: f in r <==> f in fs && f in s
    ensures |r| <= |fs|
  {
    if fs == [] then []
    else (if fs[0] in s then [fs[0]] else []) + Present(fs[1..], s)
  }

  /** Filtering one more flag appends it exactly when it is set. */
  lemma {:induction false} PresentSnoc(fs: seq<Flag>, f: Flag, s: set<Flag>)
    ensures Present(fs + [f], s) == Present(fs, s) + (if f in s then [f] else [])
  {
    var tail: seq<Flag> := if f in s then [f] else [];
    if fs == [] {
      assert [] + [f] == [f];
      assert Present([f], s) == tail + Present([], s);
    } else {
      var t := fs + [f];
      var head: seq<Flag> := if fs[0] in s then [fs[0]] else [];
      assert t[0] == fs[0] && t[1..] == fs[1..] + [f];
      PresentSnoc(fs[1..], f, s);
      calc {
        Present(t, s);
        head + Present(fs[1..] + [f], s);
        head + (Present(fs[1..], s) + tail);
        (head + Present(fs[1..], s)) + tail;
        Present(fs, s) + tail;
      }
    }
  }

  /** Filtering a list none of whose flags is set gives nothing. */
  lemma {:induction false} PresentNone(fs: seq<Flag>, s: set<Flag>)
    requires forall i :: 0 <= i < |fs| ==> fs[i] !in s
    ensures Present(fs, s) == []
  {
    if fs != [] {
      PresentNone(fs[1..], s);
    }
  }

  /** Filtering a list without repeats gives a list without repeats. */
  lemma {:induction false} PresentDistinct(fs: seq<Flag>, s: set<Flag>)
    requires NoRepeats(fs)
    ensures NoRepeats(Present(fs, s))
  {
    if fs != [] {
      assert forall i :: 0 <= i < |fs| - 1 ==> fs[1..][i] == fs[i + 1];
      PresentDistinct(fs[1..], s);
      var rest := Present(fs[1..], s);
      assert fs[0] !in rest;
      if fs[0] in s {
        var r := [fs[0]] + rest;
        assert Present(fs, s) == r;
        forall i, j | 0 <= i < j < |r|
          ensures r[i] != r[j]
        {
          assert r[j] == rest[j - 1];
          if i > 0 {
            assert r[i] == rest[i - 1];
          }
        }
      }
    }
  }

  lemma {:induction false} PresentSubsequence(fs: seq<Flag>, s: set<Flag>)
    ensures |Present(fs, s)| == |fs| <==> forall i :: 0 <= i < |fs| ==> fs[i] in s
  {
    if fs != [] {
      PresentSubsequence(fs[1..], s);
      assert forall i :: 1 <= i < |fs| ==> fs[i] == fs[1..][i - 1];
    }
  }
}
