/** Value types of the flash driver: the families whose code paths differ, the small
    enumerations of the driver's interface, its error set and the fixed-width integers
    that registers and flash words hold. */
module FlashTypes {

  type uint8 = x: int | 0 <= x < 0x100
  type uint32 = x: int | 0 <= x < 0x1_0000_0000
  type uint64 = x: int | 0 <= x < 0x1_0000_0000_0000_0000

  /** The family the driver is built for. The driver selects it at build time; here it is
      a value, and every place where the families' code differs branches on it. */
  datatype Variant =
    | F3             // feature "f3"
    | F4             // feature "f4"
    | G0             // feature "g0"
    | L4             // feature "l4"
    | G4             // a G4 part without the dual-bank option
    | G4DualCapable  // g473, g474, g483, g484: carry a runtime DualBank setting
    | WL             // feature "wl": like Other, but has no MISERR flag
    | Other          // any further family, which takes the default branch everywhere
    | H7             // feature "h7": 128 KiB sectors, one register block per bank

  /** The DBANK option of the dual-bank-capable G4 parts. */
  datatype DualBank = Dual | Single

  /** Which half of flash (and, on H7, which register block) an operation targets. */
  datatype Bank = B1 | B2

  datatype Error = Busy | Illegal | EccError | PageOutOfRange | Failure

  /** `Result<(), Error>`. */
  datatype Result = Ok | Err(error: Error)

  /** The two values that must be written, in this order, to KEYR to clear LOCK. */
  const FLASH_KEY1: uint32 := 0x4567_0123
  const FLASH_KEY2: uint32 := 0xCDEF_89AB

  /** The erased state of a flash word. */
  const ERASED_WORD: uint32 := 0xFFFF_FFFF
}
