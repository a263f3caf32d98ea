/** The interrupt controller configurator of App1/NVIC.c: it enables, disables and
    prioritises the interrupt lines and the system exceptions of a TM4C123 by
    read-modify-writes of 32-bit registers.

    The registers are plain storage. The functions `IrqEnabled`, `IrqDisabled`,
    `IrqPrioritySet`, `ExceptionEnabled`, `ExceptionDisabled` and
    `ExceptionPrioritySet` give what each driver function leaves behind, in terms
    of the register and the bit or field its argument selects; their lemmas say
    what that means for the interrupt lines and exceptions. The methods of
    `NvicRegisters` follow the driver's if/else chains with its literal masks and
    shifts and are proved to agree with those functions. */
module Nvic {
  import opened Bits

  /** Interrupt lines 0 .. 138 have an enable bit. */
  const IRQ_COUNT: nat := 139

  /** EN0 .. EN4 and DIS0 .. DIS4. */
  const ENABLE_REGISTERS: nat := 5

  /** PRI0 .. PRI34, four interrupt lines each. */
  const PRIORITY_REGISTERS: nat := 35

  // ---------------------------------------------------------------------------
  // Enabling and disabling interrupt lines

  /** The EN/DIS register that holds the bit of interrupt line n. */
  function BankIndex(n: nat): nat
  {
    n / 32
  }

  /** `1 << (n mod 32)`: the bit of interrupt line n within its register. */
  function LineBit(n: nat): Word
  {
    {(n % 32) as BitIndex}
  }

  /** Line n owns bit n mod 32 of register n / 32 of a bank of five registers. */
  predicate LineSet(bank: seq<Word>, n: nat)
    requires |bank| == ENABLE_REGISTERS
  {
    BankIndex(n) < ENABLE_REGISTERS && (n % 32) as BitIndex in bank[BankIndex(n)]
  }

  /** The lines whose bit is set in a bank of five registers. */
  function SetLines(bank: seq<Word>): set<nat>
    requires |bank| == ENABLE_REGISTERS
  {
    set n: nat | n < 32 * ENABLE_REGISTERS && LineSet(bank, n)
  }

  /** Two lines with the same register and the same bit are the same line. */
  lemma SameBitSameLine(m: nat, n: nat)
    requires BankIndex(m) == BankIndex(n) && m % 32 == n % 32
    ensures m == n
  {
  }

  /** EN0 .. EN4 after `NVIC_EnableIRQ(n)`: only the register of line n can
      change, and a number of 139 or more changes nothing. */
  function IrqEnabled(en: seq<Word>, n: nat): (r: seq<Word>)
    requires |en| == ENABLE_REGISTERS
    ensures |r| == ENABLE_REGISTERS
    ensures forall i :: 0 <= i < ENABLE_REGISTERS && (n >= IRQ_COUNT || i != BankIndex(n)) ==> r[i] == en[i]
  {
    if n < IRQ_COUNT then en[BankIndex(n) := en[BankIndex(n)] + LineBit(n)] else en
  }

  /** For a line below 139 the bit of the line is set and every other bit of its
      register is kept. */
  lemma IrqEnableEffect(en: seq<Word>, n: nat)
    requires |en| == ENABLE_REGISTERS && n < IRQ_COUNT
    ensures LineBit(n) <= IrqEnabled(en, n)[BankIndex(n)]
    ensures IrqEnabled(en, n)[BankIndex(n)] - LineBit(n) == en[BankIndex(n)] - LineBit(n)
  {
  }

  /** Enabling line n adds n to the enabled lines and no other line; a number of
      139 or more adds nothing. */
  lemma IrqEnableLines(en: seq<Word>, n: nat)
    requires |en| == ENABLE_REGISTERS
    ensures SetLines(IrqEnabled(en, n)) == SetLines(en) + (if n < IRQ_COUNT then {n} else {})
  {
    forall m | m in SetLines(IrqEnabled(en, n))
      ensures m in SetLines(en) || (n < IRQ_COUNT && m == n)
    {
      if n < IRQ_COUNT && BankIndex(m) == BankIndex(n) && m % 32 == n % 32 {
        SameBitSameLine(m, n);
      }
    }
  }

  /** DIS0 .. DIS4 after `NVIC_DisableIRQ(n)`: lines below 128 have their bit
      cleared, lines 128 .. 138 have their bit of DIS4 set, and a number of 139 or
      more changes nothing. */
  function IrqDisabled(dis: seq<Word>, n: nat): (r: seq<Word>)
    requires |dis| == ENABLE_REGISTERS
    ensures |r| == ENABLE_REGISTERS
    ensures forall i :: 0 <= i < ENABLE_REGISTERS && (n >= IRQ_COUNT || i != BankIndex(n)) ==> r[i] == dis[i]
  {
    if n < 128 then dis[BankIndex(n) := dis[BankIndex(n)] - LineBit(n)]
    else if n < IRQ_COUNT then dis[4 := dis[4] + LineBit(n)]
    else dis
  }

  /** For a line below 128 the bit of the line is cleared and every other bit of
      its register is kept. */
  lemma IrqDisableEffect(dis: seq<Word>, n: nat)
    requires |dis| == ENABLE_REGISTERS && n < 128
    ensures LineBit(n) !! IrqDisabled(dis, n)[BankIndex(n)]
    ensures IrqDisabled(dis, n)[BankIndex(n)] - LineBit(n) == dis[BankIndex(n)] - LineBit(n)
  {
  }

  /** For lines 128 .. 138 the driver ORs the bit into DIS4 where it clears it for
      the lower lines: the bit ends up set and every other bit of DIS4 is kept. */
  lemma IrqDisableTopBlockSets(dis: seq<Word>, n: nat)
    requires |dis| == ENABLE_REGISTERS && 128 <= n < IRQ_COUNT
    ensures BankIndex(n) == 4
    ensures LineBit(n) <= IrqDisabled(dis, n)[4]
    ensures IrqDisabled(dis, n)[4] - LineBit(n) == dis[4] - LineBit(n)
  {
  }

  /** In terms of lines: a line below 128 leaves the set of lines with a DIS bit,
      a line 128 .. 138 joins it, and any other number changes nothing. */
  lemma IrqDisableLines(dis: seq<Word>, n: nat)
    requires |dis| == ENABLE_REGISTERS
    ensures SetLines(IrqDisabled(dis, n)) ==
              if n < 128 then SetLines(dis) - {n}
              else if n < IRQ_COUNT then SetLines(dis) + {n}
              else SetLines(dis)
  {
    forall m: nat | m < 32 * ENABLE_REGISTERS && BankIndex(m) == BankIndex(n) && m % 32 == n % 32
      ensures m == n
    {
      SameBitSameLine(m, n);
    }
  }

  lemma IrqEnableIdempotent(en: seq<Word>, n: nat)
    requires |en| == ENABLE_REGISTERS
    ensures IrqEnabled(IrqEnabled(en, n), n) == IrqEnabled(en, n)
  {
  }

  /** Enabling two lines in either order leaves the same registers. */
  lemma IrqEnableCommutes(en: seq<Word>, m: nat, n: nat)
    requires |en| == ENABLE_REGISTERS
    ensures IrqEnabled(IrqEnabled(en, m), n) == IrqEnabled(IrqEnabled(en, n), m)
  {
    if m < IRQ_COUNT && n < IRQ_COUNT && BankIndex(m) == BankIndex(n) {
      assert en[BankIndex(m)] + LineBit(m) + LineBit(n) == en[BankIndex(m)] + LineBit(n) + LineBit(m);
    }
  }

  lemma IrqDisableIdempotent(dis: seq<Word>, n: nat)
    requires |dis| == ENABLE_REGISTERS
    ensures IrqDisabled(IrqDisabled(dis, n), n) == IrqDisabled(dis, n)
  {
  }

  // ---------------------------------------------------------------------------
  // Interrupt line priorities

  /** The PRI register that holds the priority field of interrupt line n. */
  function PriorityIndex(n: nat): nat
  {
    n / 4
  }

  /** The lowest bit of the priority field of line n: bits 5-7, 13-15, 21-23 or
      29-31 of its PRI register as n mod 4 is 0, 1, 2 or 3. */
  function PriorityPos(n: nat): FieldPos
  {
    (n % 4) * 8 + 5
  }

  /** The priority of line n as its PRI field reads. */
  function PriorityOf(pri: seq<Word>, n: nat): Word
    requires |pri| == PRIORITY_REGISTERS && n < 4 * PRIORITY_REGISTERS
  {
    Field3(pri[PriorityIndex(n)], PriorityPos(n))
  }

  /** PRI0 .. PRI34 after `NVIC_SetPriorityIRQ(n, p)`: only the register of line n
      changes. */
  function IrqPrioritySet(pri: seq<Word>, n: nat, p: Word): (r: seq<Word>)
    requires |pri| == PRIORITY_REGISTERS && n < 4 * PRIORITY_REGISTERS
    ensures |r| == PRIORITY_REGISTERS
    ensures forall i :: 0 <= i < PRIORITY_REGISTERS && i != PriorityIndex(n) ==> r[i] == pri[i]
  {
    var i, pos := PriorityIndex(n), PriorityPos(n);
    pri[i := PlaceField(pri[i], FieldMask(pos), Shl(p, pos))]
  }

  /** The field of line n reads back as the low three bits of p. p is not masked,
      so its higher bits are ORed into the rest of the register, which is
      otherwise kept. */
  lemma IrqPriorityEffect(pri: seq<Word>, n: nat, p: Word)
    requires |pri| == PRIORITY_REGISTERS && n < 4 * PRIORITY_REGISTERS
    ensures PriorityOf(IrqPrioritySet(pri, n, p), n) == p * Low3
    ensures IrqPrioritySet(pri, n, p)[PriorityIndex(n)] - FieldMask(PriorityPos(n)) ==
              (pri[PriorityIndex(n)] - FieldMask(PriorityPos(n))) + (Shl(p, PriorityPos(n)) - FieldMask(PriorityPos(n)))
  {
    PlaceFieldReadBack(pri[PriorityIndex(n)], PriorityPos(n), p);
  }

  /** A priority below 8 reads back as written and reaches only its own field:
      the other 29 bits of the register keep their values. */
  lemma IrqPriorityExact(pri: seq<Word>, n: nat, p: Word)
    requires |pri| == PRIORITY_REGISTERS && n < 4 * PRIORITY_REGISTERS && p <= Low3
    ensures PriorityOf(IrqPrioritySet(pri, n, p), n) == p
    ensures IrqPrioritySet(pri, n, p)[PriorityIndex(n)] - FieldMask(PriorityPos(n)) ==
              pri[PriorityIndex(n)] - FieldMask(PriorityPos(n))
  {
    PlaceFieldExact(pri[PriorityIndex(n)], PriorityPos(n), p);
  }

  /** Setting a priority that fits a byte (any value of a `uint8` priority type)
      for line n leaves the priority of every other line as it was, also of the
      lines that share n's register: the unmasked bits 3-7 of p land in bits of
      the register that belong to no line. */
  lemma IrqPriorityKeepsOtherLines(pri: seq<Word>, n: nat, m: nat, p: Word)
    requires |pri| == PRIORITY_REGISTERS && n < 4 * PRIORITY_REGISTERS && p <= Low8
    requires m < 4 * PRIORITY_REGISTERS && m != n
    ensures PriorityOf(IrqPrioritySet(pri, n, p), m) == PriorityOf(pri, m)
  {
    if PriorityIndex(m) == PriorityIndex(n) {
      ByteWriteKeepsField(pri[PriorityIndex(n)], PriorityPos(n), PriorityPos(m), p);
    }
  }

  /** A priority wider than a byte spills into the next line's field:
      `NVIC_SetPriorityIRQ(0, 0x100)` on cleared registers gives line 1 the
      priority 1. */
  lemma IrqPriorityWideValueSpills()
    ensures PriorityOf(IrqPrioritySet(seq(PRIORITY_REGISTERS, _ => {}), 0, {8}), 1) == {0}
  {
    var pri: seq<Word> := seq(PRIORITY_REGISTERS, _ => {});
    assert ShiftedIn({8}, 5, 13);
    assert Shl({8}, 5) == {13};
  }

  lemma IrqPriorityIdempotent(pri: seq<Word>, n: nat, p: Word)
    requires |pri| == PRIORITY_REGISTERS && n < 4 * PRIORITY_REGISTERS
    ensures IrqPrioritySet(IrqPrioritySet(pri, n, p), n, p) == IrqPrioritySet(pri, n, p)
  {
    var i, mask, bits := PriorityIndex(n), FieldMask(PriorityPos(n)), Shl(p, PriorityPos(n));
    assert PlaceField(PlaceField(pri[i], mask, bits), mask, bits) == PlaceField(pri[i], mask, bits);
  }

  /** For one line the last write wins, provided the earlier priority fitted its
      field (a wider one leaves its high bits behind). */
  lemma IrqPriorityLastWriteWins(pri: seq<Word>, n: nat, p: Word, q: Word)
    requires |pri| == PRIORITY_REGISTERS && n < 4 * PRIORITY_REGISTERS && p <= Low3
    ensures IrqPrioritySet(IrqPrioritySet(pri, n, p), n, q) == IrqPrioritySet(pri, n, q)
  {
    PlaceFieldOverwrite(pri[PriorityIndex(n)], PriorityPos(n), p, q);
  }

  // ---------------------------------------------------------------------------
  // System exceptions

  /** The system exceptions the driver has a branch for; `Other` is any other
      value of the exception enumeration, which no branch matches. */
  datatype Exception =
    | MemFault | BusFault | UsageFault
    | Svc | DebugMonitor | PendSv | SysTick
    | Other(code: nat)

  /** The three exceptions SYSHNDCTRL can enable and disable. */
  predicate IsFault(e: Exception)
  {
    e.MemFault? || e.BusFault? || e.UsageFault?
  }

  /** A priority field of a system priority register: the mask the driver clears
      and the position it shifts the priority to. */
  datatype PriorityField = PriorityField(mask: Word, pos: BitIndex)

  /** The masks and bit positions that NVIC.h defines, one per exception
      (NVIC.h is not part of this model). */
  datatype Layout = Layout(
    memFaultEnable: Word,
    busFaultEnable: Word,
    usageFaultEnable: Word,
    memFaultPriority: PriorityField,
    busFaultPriority: PriorityField,
    usageFaultPriority: PriorityField,
    svcPriority: PriorityField,
    debugMonitorPriority: PriorityField,
    pendSvPriority: PriorityField,
    sysTickPriority: PriorityField)

  /** The SYSHNDCTRL enable mask of a fault exception. */
  function EnableMask(l: Layout, e: Exception): Word
    requires IsFault(e)
  {
    if e.MemFault? then l.memFaultEnable
    else if e.BusFault? then l.busFaultEnable
    else l.usageFaultEnable
  }

  /** The priority field of an exception the driver handles. */
  function PriorityFieldOf(l: Layout, e: Exception): PriorityField
    requires !e.Other?
  {
    match e
    case MemFault => l.memFaultPriority
    case BusFault => l.busFaultPriority
    case UsageFault => l.usageFaultPriority
    case Svc => l.svcPriority
    case DebugMonitor => l.debugMonitorPriority
    case PendSv => l.pendSvPriority
    case SysTick => l.sysTickPriority
  }

  /** The three enable masks are non-empty and pairwise disjoint. */
  predicate SeparateEnableMasks(l: Layout)
  {
    l.memFaultEnable != {} && l.busFaultEnable != {} && l.usageFaultEnable != {} &&
    l.memFaultEnable !! l.busFaultEnable && l.memFaultEnable !! l.usageFaultEnable &&
    l.busFaultEnable !! l.usageFaultEnable
  }

  /** The mask covers exactly the 3-bit field the priority is shifted into. */
  predicate ExactField(f: PriorityField)
  {
    f.pos <= 29 && f.mask == FieldMask(f.pos)
  }

  predicate ExactLayout(l: Layout)
  {
    ExactField(l.memFaultPriority) && ExactField(l.busFaultPriority) &&
    ExactField(l.usageFaultPriority) && ExactField(l.svcPriority) &&
    ExactField(l.debugMonitorPriority) && ExactField(l.pendSvPriority) &&
    ExactField(l.sysTickPriority)
  }

  /** The layout of section B3.2 of the ARMv7-M Architecture Reference Manual:
      SHCSR enable bits 16, 17 and 18, and the top three bits of each priority
      byte of SHPR1 .. SHPR3 (the TM4C123 implements three priority bits). */
  const ArchitectureLayout: Layout := Layout(
    {16}, {17}, {18},
    PriorityField(FieldMask(5), 5), PriorityField(FieldMask(13), 13), PriorityField(FieldMask(21), 21),
    PriorityField(FieldMask(29), 29),
    PriorityField(FieldMask(5), 5), PriorityField(FieldMask(21), 21), PriorityField(FieldMask(29), 29))

  lemma ArchitectureLayoutIsExact()
    ensures ExactLayout(ArchitectureLayout) && SeparateEnableMasks(ArchitectureLayout)
  {
  }

  /** A fault exception is enabled when all bits of its mask are set. */
  predicate FaultEnabled(l: Layout, w: Word, e: Exception)
    requires IsFault(e)
  {
    EnableMask(l, e) <= w
  }

  /** SYSHNDCTRL after `NVIC_EnableException(e)`. */
  function ExceptionEnabled(l: Layout, w: Word, e: Exception): Word
  {
    if IsFault(e) then w + EnableMask(l, e) else w
  }

  /** SYSHNDCTRL after `NVIC_DisableException(e)`. */
  function ExceptionDisabled(l: Layout, w: Word, e: Exception): Word
  {
    if IsFault(e) then w - EnableMask(l, e) else w
  }

  /** Enabling a fault sets its enable mask and keeps every other bit; enabling any
      other exception leaves SYSHNDCTRL alone. */
  lemma ExceptionEnableEffect(l: Layout, w: Word, e: Exception)
    ensures IsFault(e) ==> EnableMask(l, e) <= ExceptionEnabled(l, w, e)
    ensures IsFault(e) ==> ExceptionEnabled(l, w, e) - EnableMask(l, e) == w - EnableMask(l, e)
    ensures !IsFault(e) ==> ExceptionEnabled(l, w, e) == w
  {
  }

  /** Disabling a fault clears its enable mask and keeps every other bit;
      disabling any other exception leaves SYSHNDCTRL alone. */
  lemma ExceptionDisableEffect(l: Layout, w: Word, e: Exception)
    ensures IsFault(e) ==> EnableMask(l, e) !! ExceptionDisabled(l, w, e)
    ensures IsFault(e) ==> ExceptionDisabled(l, w, e) - EnableMask(l, e) == w - EnableMask(l, e)
    ensures !IsFault(e) ==> ExceptionDisabled(l, w, e) == w
  {
  }

  /** With separate masks, enabling e enables e and leaves whether each other
      fault is enabled as it was. */
  lemma ExceptionEnableFaults(l: Layout, w: Word, e: Exception, d: Exception)
    requires SeparateEnableMasks(l) && IsFault(d)
    ensures FaultEnabled(l, ExceptionEnabled(l, w, e), d) <==> d == e || FaultEnabled(l, w, d)
  {
    if IsFault(e) && d != e {
      assert EnableMask(l, d) !! EnableMask(l, e);
    }
  }

  /** With separate masks, disabling e disables e and leaves whether each other
      fault is enabled as it was. */
  lemma ExceptionDisableFaults(l: Layout, w: Word, e: Exception, d: Exception)
    requires SeparateEnableMasks(l) && IsFault(d)
    ensures FaultEnabled(l, ExceptionDisabled(l, w, e), d) <==> d != e && FaultEnabled(l, w, d)
  {
    if IsFault(e) && d != e {
      assert EnableMask(l, d) !! EnableMask(l, e);
    }
    if d == e {
      var b :| b in EnableMask(l, d);
      assert b !in ExceptionDisabled(l, w, e);
    }
  }

  /** Disabling after enabling ends where disabling alone ends, so if the mask
      bits were clear to begin with it restores the register. */
  lemma ExceptionDisableUndoesEnable(l: Layout, w: Word, e: Exception)
    ensures ExceptionDisabled(l, ExceptionEnabled(l, w, e), e) == ExceptionDisabled(l, w, e)
    ensures IsFault(e) && EnableMask(l, e) !! w ==> ExceptionDisabled(l, ExceptionEnabled(l, w, e), e) == w
  {
  }

  /** Enabling after disabling ends where enabling alone ends. */
  lemma ExceptionEnableUndoesDisable(l: Layout, w: Word, e: Exception)
    ensures ExceptionEnabled(l, ExceptionDisabled(l, w, e), e) == ExceptionEnabled(l, w, e)
  {
  }

  lemma ExceptionEnableIdempotent(l: Layout, w: Word, e: Exception)
    ensures ExceptionEnabled(l, ExceptionEnabled(l, w, e), e) == ExceptionEnabled(l, w, e)
    ensures ExceptionDisabled(l, ExceptionDisabled(l, w, e), e) == ExceptionDisabled(l, w, e)
  {
  }

  /** SYSPRI1 .. SYSPRI3. */
  datatype SystemPriorities = SystemPriorities(pri1: Word, pri2: Word, pri3: Word)
  {
    /** Register k, 1 <= k <= 3. */
    function Register(k: nat): Word
      requires 1 <= k <= 3
    {
      if k == 1 then pri1 else if k == 2 then pri2 else pri3
    }
  }

  /** The system priority register that holds an exception's priority: SYSPRI1 for
      the faults, SYSPRI2 for SVCall, SYSPRI3 for the rest. */
  function TargetRegister(e: Exception): (k: nat)
    requires !e.Other?
    ensures 1 <= k <= 3
  {
    if IsFault(e) then 1 else if e.Svc? then 2 else 3
  }

  /** SYSPRI1 .. SYSPRI3 after `NVIC_SetPriorityException(e, p)`. Only the target
      register changes. Its field holds p shifted into place; every other bit of it
      is taken from SYSPRI1, also when the target is SYSPRI2 or SYSPRI3 (the driver
      reads SYSPRI1 in all seven branches), with the bits of the unmasked p that
      fall outside the field ORed in. Any other exception changes nothing. */
  function ExceptionPrioritySet(l: Layout, s: SystemPriorities, e: Exception, p: Word): (r: SystemPriorities)
    ensures e.Other? ==> r == s
    ensures !e.Other? ==> forall k :: 1 <= k <= 3 && k != TargetRegister(e) ==> r.Register(k) == s.Register(k)
  {
    if e.Other? then s
    else
      var f := PriorityFieldOf(l, e);
      var v := PlaceField(s.pri1, f.mask, Shl(p, f.pos));
      if IsFault(e) then s.(pri1 := v)
      else if e.Svc? then s.(pri2 := v)
      else s.(pri3 := v)
  }

  /** The target register's field holds p shifted into place; every other bit
      of it comes from SYSPRI1, with the bits of p that fall outside the field ORed
      in. */
  lemma ExceptionPriorityEffect(l: Layout, s: SystemPriorities, e: Exception, p: Word)
    requires !e.Other?
    ensures var f := PriorityFieldOf(l, e);
      ExceptionPrioritySet(l, s, e, p).Register(TargetRegister(e)) * f.mask == Shl(p, f.pos) * f.mask
    ensures var f := PriorityFieldOf(l, e);
      ExceptionPrioritySet(l, s, e, p).Register(TargetRegister(e)) - f.mask ==
        (s.pri1 - f.mask) + (Shl(p, f.pos) - f.mask)
  {
  }

  /** For SVCall, DebugMonitor, PendSV and SysTick the new target register is a
      function of SYSPRI1 and p alone: its previous contents do not matter. */
  lemma ExceptionPriorityIgnoresOldTarget(l: Layout, s: SystemPriorities, t: SystemPriorities, e: Exception, p: Word)
    requires !e.Other? && !IsFault(e) && s.pri1 == t.pri1
    ensures ExceptionPrioritySet(l, s, e, p).Register(TargetRegister(e)) ==
            ExceptionPrioritySet(l, t, e, p).Register(TargetRegister(e))
  {
  }

  /** Setting the SVCall priority copies the bits of SYSPRI1 outside the SVCall
      field into SYSPRI2: with the architecture's layout, SYSPRI1 = 0x1 and
      SYSPRI2 = 0, priority 0 leaves SYSPRI2 = 0x1. */
  lemma ExceptionPrioritySvcCopiesSysPri1()
    ensures ExceptionPrioritySet(ArchitectureLayout, SystemPriorities({0}, {}, {}), Svc, {}).pri2 == {0}
  {
    assert Shl({}, 29) == {};
  }

  /** With exact fields and a priority below 8, the exception's field reads back
      as p and the rest of the target register is a copy of SYSPRI1. */
  lemma ExceptionPriorityExact(l: Layout, s: SystemPriorities, e: Exception, p: Word)
    requires ExactLayout(l) && !e.Other? && p <= Low3
    ensures var f := PriorityFieldOf(l, e);
      Field3(ExceptionPrioritySet(l, s, e, p).Register(TargetRegister(e)), f.pos) == p &&
      ExceptionPrioritySet(l, s, e, p).Register(TargetRegister(e)) - f.mask == s.pri1 - f.mask
  {
    var f := PriorityFieldOf(l, e);
    PlaceFieldExact(s.pri1, f.pos, p);
  }

  lemma ExceptionPriorityIdempotent(l: Layout, s: SystemPriorities, e: Exception, p: Word)
    ensures ExceptionPrioritySet(l, ExceptionPrioritySet(l, s, e, p), e, p) == ExceptionPrioritySet(l, s, e, p)
  {
  }

  /** The last write wins. For the exceptions held in SYSPRI2 and SYSPRI3 this
      holds for any priorities; for the faults the earlier priority must fit its
      exact field. */
  lemma ExceptionPriorityLastWriteWins(l: Layout, s: SystemPriorities, e: Exception, p: Word, q: Word)
    requires IsFault(e) ==> ExactLayout(l) && p <= Low3
    ensures ExceptionPrioritySet(l, ExceptionPrioritySet(l, s, e, p), e, q) == ExceptionPrioritySet(l, s, e, q)
  {
    if IsFault(e) {
      var f := PriorityFieldOf(l, e);
      PlaceFieldOverwrite(s.pri1, f.pos, p, q);
    }
  }

  /** DebugMonitor, PendSV and SysTick share SYSPRI3 and each write rebuilds it from
      SYSPRI1, so a write for one of them discards what a write for another left in
      SYSPRI3. */
  lemma ExceptionPrioritySysPri3Overwritten(l: Layout, s: SystemPriorities, d: Exception, e: Exception, p: Word, q: Word)
    requires d.DebugMonitor? || d.PendSv? || d.SysTick?
    requires e.DebugMonitor? || e.PendSv? || e.SysTick?
    ensures ExceptionPrioritySet(l, ExceptionPrioritySet(l, s, d, p), e, q) == ExceptionPrioritySet(l, s, e, q)
  {
  }

  // ---------------------------------------------------------------------------
  // The registers

  /** 0xFFFF_FF1F, 0xFFFF_1FFF, 0xFF1F_FFFF and 0x1FFF_FFFF: the keep masks of the
      four priority fields of a PRI register. */
  const PRI_KEEP_0: Word := AllBits - {5, 6, 7}
  const PRI_KEEP_1: Word := AllBits - {13, 14, 15}
  const PRI_KEEP_2: Word := AllBits - {21, 22, 23}
  const PRI_KEEP_3: Word := AllBits - {29, 30, 31}

  /** The NVIC and system control registers the driver writes. */
  class NvicRegisters {
    /** The masks and positions of NVIC.h. */
    const layout: Layout
    /** EN0 .. EN4, DIS0 .. DIS4 and PRI0 .. PRI34. */
    const en: array<Word>
    const dis: array<Word>
    const pri: array<Word>
    /** SYSHNDCTRL and SYSPRI1 .. SYSPRI3. */
    var sysHndCtrl: Word
    var sysPri1: Word
    var sysPri2: Word
    var sysPri3: Word

    ghost predicate Valid()
      reads this
    {
      en.Length == ENABLE_REGISTERS && dis.Length == ENABLE_REGISTERS &&
      pri.Length == PRIORITY_REGISTERS && en != dis
    }

    function SystemPriorityRegisters(): SystemPriorities
      reads this
    {
      SystemPriorities(sysPri1, sysPri2, sysPri3)
    }

    /** All registers read zero, as after reset. */
    constructor (layout: Layout)
      ensures Valid() && this.layout == layout
      ensures fresh(en) && fresh(dis) && fresh(pri)
      ensures forall i :: 0 <= i < ENABLE_REGISTERS ==> en[i] == {} && dis[i] == {}
      ensures forall i :: 0 <= i < PRIORITY_REGISTERS ==> pri[i] == {}
      ensures sysHndCtrl == {} && SystemPriorityRegisters() == SystemPriorities({}, {}, {})
    {
      this.layout := layout;
      en := new Word[ENABLE_REGISTERS](_ => {});
      dis := new Word[ENABLE_REGISTERS](_ => {});
      pri := new Word[PRIORITY_REGISTERS](_ => {});
      sysHndCtrl := {};
      sysPri1, sysPri2, sysPri3 := {}, {}, {};
    }

    /** `NVIC_EnableIRQ`. */
    method EnableIRQ(n: nat)
      requires Valid()
      modifies en
      ensures en[..] == IrqEnabled(old(en[..]), n)
    {
      if n < 32 {
        en[0] := en[0] + {n};
      } else if n > 31 && n < 64 {
        en[1] := en[1] + {n - 32};
      } else if n > 63 && n < 96 {
        en[2] := en[2] + {n - 64};
      } else if n > 95 && n < 128 {
        en[3] := en[3] + {n - 96};
      } else if n > 127 && n < 139 {
        en[4] := en[4] + {n - 128};
      }
    }

    /** `NVIC_DisableIRQ`. */
    method DisableIRQ(n: nat)
      requires Valid()
      modifies dis
      ensures dis[..] == IrqDisabled(old(dis[..]), n)
    {
      if n < 32 {
        dis[0] := dis[0] - {n};
      } else if n > 31 && n < 64 {
        dis[1] := dis[1] - {n - 32};
      } else if n > 63 && n < 96 {
        dis[2] := dis[2] - {n - 64};
      } else if n > 95 && n < 128 {
        dis[3] := dis[3] - {n - 96};
      } else if n > 127 && n < 139 {
        dis[4] := dis[4] + {n - 128};
      }
    }

    /** `NVIC_SetPriorityIRQ`; `PriorityIndex` is the register the driver's
        register macro selects. */
    method SetPriorityIRQ(n: nat, p: Word)
      requires Valid() && n < 4 * PRIORITY_REGISTERS
      modifies pri
      ensures pri[..] == IrqPrioritySet(old(pri[..]), n, p)
    {
      var i := PriorityIndex(n);
      ghost var w := pri[i];
      if n % 4 == 0 {
        KeepIsClear(w, FieldMask(5));
        pri[i] := (pri[i] * PRI_KEEP_0) + Shl(p, 5);
      } else if (n - 1) % 4 == 0 {
        KeepIsClear(w, FieldMask(13));
        pri[i] := (pri[i] * PRI_KEEP_1) + Shl(p, 13);
      } else if (n - 2) % 4 == 0 {
        KeepIsClear(w, FieldMask(21));
        pri[i] := (pri[i] * PRI_KEEP_2) + Shl(p, 21);
      } else if (n - 3) % 4 == 0 {
        KeepIsClear(w, FieldMask(29));
        pri[i] := (pri[i] * PRI_KEEP_3) + Shl(p, 29);
      } else {
        assert false;
      }
    }

    /** `NVIC_EnableException`. */
    method EnableException(e: Exception)
      modifies this`sysHndCtrl
      ensures sysHndCtrl == ExceptionEnabled(layout, old(sysHndCtrl), e)
    {
      if e == MemFault {
        sysHndCtrl := sysHndCtrl + layout.memFaultEnable;
      } else if e == BusFault {
        sysHndCtrl := sysHndCtrl + layout.busFaultEnable;
      } else if e == UsageFault {
        sysHndCtrl := sysHndCtrl + layout.usageFaultEnable;
      }
    }

    /** `NVIC_DisableException`. */
    method DisableException(e: Exception)
      modifies this`sysHndCtrl
      ensures sysHndCtrl == ExceptionDisabled(layout, old(sysHndCtrl), e)
    {
      if e == MemFault {
        sysHndCtrl := sysHndCtrl - layout.memFaultEnable;
      } else if e == BusFault {
        sysHndCtrl := sysHndCtrl - layout.busFaultEnable;
      } else if e == UsageFault {
        sysHndCtrl := sysHndCtrl - layout.usageFaultEnable;
      }
    }

    /** `NVIC_SetPriorityException`. */
    method SetPriorityException(e: Exception, p: Word)
      modifies this`sysPri1, this`sysPri2, this`sysPri3
      ensures SystemPriorityRegisters() == ExceptionPrioritySet(layout, old(SystemPriorityRegisters()), e, p)
    {
      var l := layout;
      if e == MemFault {
        sysPri1 := (sysPri1 - l.memFaultPriority.mask) + Shl(p, l.memFaultPriority.pos);
      } else if e == BusFault {
        sysPri1 := (sysPri1 - l.busFaultPriority.mask) + Shl(p, l.busFaultPriority.pos);
      } else if e == UsageFault {
        sysPri1 := (sysPri1 - l.usageFaultPriority.mask) + Shl(p, l.usageFaultPriority.pos);
      } else if e == Svc {
        sysPri2 := (sysPri1 - l.svcPriority.mask) + Shl(p, l.svcPriority.pos);
      } else if e == DebugMonitor {
        sysPri3 := (sysPri1 - l.debugMonitorPriority.mask) + Shl(p, l.debugMonitorPriority.pos);
      } else if e == PendSv {
        sysPri3 := (sysPri1 - l.pendSvPriority.mask) + Shl(p, l.pendSvPriority.pos);
      } else if e == SysTick {
        sysPri3 := (sysPri1 - l.sysTickPriority.mask) + Shl(p, l.sysTickPriority.pos);
      }
    }
  }
}
