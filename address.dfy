/** The address translator: where a page (or, on H7, a sector) of a bank starts in the
    memory map. Indices are unbounded naturals; a real `usize` would overflow the products
    only for indices far beyond any part's flash. */
module Address {
  import opened FlashTypes

  const FLASH_BASE: nat := 0x0800_0000
  /** Where bank 2 starts on a dual-bank-capable G4 in dual-bank mode. */
  const G4_BANK2_BASE: nat := 0x0804_0000
  /** Where bank 2 starts on H7. */
  const H7_BANK2_BASE: nat := 0x0810_0000
  const PAGE_SIZE: nat := 2048
  const G4_SINGLE_PAGE_SIZE: nat := 4096
  const H7_SECTOR_SIZE: nat := 0x2_0000
  /** Pages per bank of a dual-bank G4 in dual-bank mode, sectors per bank of H7. */
  const G4_BANK_PAGES: nat := 128
  const H7_BANK_SECTORS: nat := 8

  /** `page_to_address` of every family except the dual-bank-capable G4 parts and H7. */
  function PageToAddress(page: nat): (a: nat)
    ensures a >= FLASH_BASE && (a - FLASH_BASE) % PAGE_SIZE == 0
    ensures (a - FLASH_BASE) / PAGE_SIZE == page
  {
    FLASH_BASE + page * PAGE_SIZE
  }

  /** The first address of a bank on a dual-bank-capable G4. */
  function G4BankBase(dual: DualBank, bank: Bank): nat {
    if dual == Dual && bank == B2 then G4_BANK2_BASE else FLASH_BASE
  }

  function G4PageSize(dual: DualBank): nat {
    if dual == Single then G4_SINGLE_PAGE_SIZE else PAGE_SIZE
  }

  /** `page_to_address` of the dual-bank-capable G4 parts: single-bank mode is one linear
      region of 4 KiB pages (the bank is ignored); dual-bank mode gives each bank its own
      window of 2 KiB pages. */
  function PageToAddressG4(page: nat, dual: DualBank, bank: Bank): (a: nat)
    ensures a >= G4BankBase(dual, bank) && (a - G4BankBase(dual, bank)) % G4PageSize(dual) == 0
    ensures (a - G4BankBase(dual, bank)) / G4PageSize(dual) == page
  {
    if dual == Single then FLASH_BASE + page * G4_SINGLE_PAGE_SIZE
    else match bank
      case B1 => FLASH_BASE + page * PAGE_SIZE
      case B2 => G4_BANK2_BASE + page * PAGE_SIZE
  }

  function H7BankBase(bank: Bank): nat {
    if bank == B1 then FLASH_BASE else H7_BANK2_BASE
  }

  /** `sector_to_address` of H7: a per-bank base plus 128 KiB per sector. */
  function SectorToAddress(sector: nat, bank: Bank): (a: nat)
    ensures a >= H7BankBase(bank) && (a - H7BankBase(bank)) % H7_SECTOR_SIZE == 0
    ensures (a - H7BankBase(bank)) / H7_SECTOR_SIZE == sector
  {
    var startingPoint := match bank
      case B1 => FLASH_BASE
      case B2 => H7_BANK2_BASE;
    startingPoint + sector * H7_SECTOR_SIZE
  }

  /** The translation each family's `write_page` uses for (index, bank), given the
      controller's dual-bank setting. */
  function TargetAddress(v: Variant, dual: DualBank, index: nat, bank: Bank): (a: nat)
    ensures a >= FLASH_BASE
  {
    if v == H7 then SectorToAddress(index, bank)
    else if v == G4DualCapable then PageToAddressG4(index, dual, bank)
    else PageToAddress(index)
  }

  /** The size of one translated unit. */
  function UnitSize(v: Variant, dual: DualBank): nat {
    if v == H7 then H7_SECTOR_SIZE
    else if v == G4DualCapable then G4PageSize(dual)
    else PAGE_SIZE
  }

  /** The start of the window a bank's indices are counted from. */
  function WindowBase(v: Variant, dual: DualBank, bank: Bank): nat {
    if v == H7 then H7BankBase(bank)
    else if v == G4DualCapable then G4BankBase(dual, bank)
    else FLASH_BASE
  }

  /** Every translation is linear in the index: the window base plus index times the unit size. */
  lemma TargetAddressLinear(v: Variant, dual: DualBank, index: nat, bank: Bank)
    ensures TargetAddress(v, dual, index, bank) == WindowBase(v, dual, bank) + index * UnitSize(v, dual)
  {
  }

  /** Within one bank, later indices start at least one whole unit higher: the translation is
      strictly increasing, and units never overlap. */
  lemma TargetAddressIncreasing(v: Variant, dual: DualBank, bank: Bank, p: nat, q: nat)
    requires p < q
    ensures TargetAddress(v, dual, p, bank) + UnitSize(v, dual) <= TargetAddress(v, dual, q, bank)
  {
    TargetAddressLinear(v, dual, p, bank);
    TargetAddressLinear(v, dual, q, bank);
    var u := UnitSize(v, dual);
    assert (q - p) * u >= u;
    assert q * u == p * u + (q - p) * u;
  }

  /** Within one bank, distinct indices give distinct addresses. */
  lemma TargetAddressInjective(v: Variant, dual: DualBank, bank: Bank, p: nat, q: nat)
    ensures TargetAddress(v, dual, p, bank) == TargetAddress(v, dual, q, bank) <==> p == q
  {
    if p < q {
      TargetAddressIncreasing(v, dual, bank, p, q);
    } else if q < p {
      TargetAddressIncreasing(v, dual, bank, q, p);
    }
  }

  /** In single-bank mode the G4 page is twice the dual-bank page and the bank plays no part. */
  lemma G4SingleModeMergesBanks(page: nat, bank: Bank)
    ensures PageToAddressG4(page, Single, bank) == PageToAddressG4(page, Single, B1)
    ensures PageToAddressG4(page, Single, bank) == PageToAddressG4(2 * page, Dual, B1)
    ensures G4PageSize(Single) == 2 * G4PageSize(Dual)
  {
  }

  /** In dual-bank mode, every byte of bank 1's pages 0..127 lies below bank 2's first
      page, so the two windows never overlap. */
  lemma G4DualBanksDisjoint(p: nat, q: nat)
    requires p < G4_BANK_PAGES
    ensures PageToAddressG4(p, Dual, B1) + PAGE_SIZE <= PageToAddressG4(q, Dual, B2)
    ensures PageToAddressG4(0, Dual, B1) != PageToAddressG4(0, Dual, B2)
  {
  }

  /** On H7, bank 1's sectors 0..7 lie wholly below bank 2's first sector. */
  lemma H7BanksDisjoint(s: nat, t: nat)
    requires s < H7_BANK_SECTORS
    ensures SectorToAddress(s, B1) + H7_SECTOR_SIZE <= SectorToAddress(t, B2)
  {
  }
}
