# TM4C123 interrupt controller and SysTick drivers in Dafny

This project models the two peripheral drivers of App1:

- `App1/NVIC.c` enables, disables and prioritises interrupt lines and system exceptions on the NVIC of a TM4C123 (Cortex-M4).
  - It writes the EN0-4 and DIS0-4 registers.
  - It writes the priority registers PRI0-34.
  - It writes SYSHNDCTRL and the system priority registers SYSPRI1-3.
- `App1/SysTick.c` programs the CTRL, RELOAD and CURRENT registers of the SysTick timer.
  - It sets the timer up for interrupt mode or for a busy wait.
  - It starts, stops and de-initialises the timer.
  - Its interrupt handler dispatches one stored callback.

Both drivers are read-modify-writes of 32-bit registers. In `Bits.dfy` a register word is the set of the positions of its one bits:

- `w | m` becomes `w + m`;
- `w & ~m` becomes `w - m`;
- `w & m` becomes `w * m`;
- `p << k` becomes `Shl(p, k)`.

Each hexadecimal constant of the drivers appears as the set of its one bits, with the constant in a comment beside it.

Each driver module has three layers:

- **Specification functions.** Pure functions give the registers left behind by each driver function, for example `IrqEnabled` and `Stopped`.
- **Lemmas.** These say what the result means: which line is enabled, which field reads back, and which bits are kept. They also cover idempotence, last write wins and the other relations between operations.
- **Classes.** `Nvic.NvicRegisters` and `SysTick.SysTickTimer` hold the registers as fields and arrays. Their methods follow the drivers' if/else chains with the literal masks and shifts, and each method is proved equal to its specification function.

Files:

- `Bits.dfy`: words, shifts, 3-bit fields and the field read-modify-write;
- `Nvic.dfy`: the interrupt controller;
- `SysTick.dfy`: the timer and its callback;
- `Wrappers.dfy`: `Option`.

Header values the model needs:

- **NVIC.h masks and positions.** NVIC.h is not part of this model. Its masks and bit positions for the system exceptions are a `Layout` value held by the register bank. The frame properties for them hold for any layout whose fields are exact (`ExactLayout`) and whose enable masks are separate (`SeparateEnableMasks`). `ArchitectureLayout` is the instance from section B3.2 of the ARMv7-M Architecture Reference Manual.
- **The SysTick constant.** `RELOAD_VALUE_PER_1_SECOND` is 15999999, as App2/SysTick.h defines it.

Two behaviours of the code are reproduced on purpose:

- `NVIC_DisableIRQ` ORs the bit into DIS4 for lines 128-138, where it clears the bit for lines below 128.
- `NVIC_SetPriorityException` computes SYSPRI2 and SYSPRI3 from SYSPRI1.

## Model

| member | source | states |
|---|---|---|
| Nvic.IrqEnabled | App1/NVIC.c:35-59 | EnableIRQ writes only the register of line n, and a number of 139 or more changes no register |
| Nvic.IrqEnableEffect | App1/NVIC.c:37-57 | for n < 139 the bit n mod 32 of EN[n/32] is set and every other bit of that register is kept |
| Nvic.IrqEnableLines | App1/NVIC.c:35-59 | the set of enabled lines gains exactly n when n < 139 and is unchanged otherwise |
| Nvic.IrqEnableIdempotent | App1/NVIC.c:35-59 | enabling a line twice is enabling it once |
| Nvic.IrqEnableCommutes | App1/NVIC.c:35-59 | enabling two lines in either order gives the same registers |
| Nvic.IrqDisabled | App1/NVIC.c:73-97 | DisableIRQ writes only the register of line n, and a number of 139 or more changes no register |
| Nvic.IrqDisableEffect | App1/NVIC.c:75-90 | for n < 128 the bit n mod 32 of DIS[n/32] is cleared and every other bit is kept |
| Nvic.IrqDisableTopBlockSets | App1/NVIC.c:91-94 | for 128 <= n < 139 the bit n - 128 of DIS4 is set, not cleared, and every other bit is kept |
| Nvic.IrqDisableLines | App1/NVIC.c:73-97 | line n leaves the set of lines with a DIS bit for n < 128, joins it for 128-138, and nothing changes otherwise |
| Nvic.IrqDisableIdempotent | App1/NVIC.c:73-97 | disabling a line twice is disabling it once |
| Nvic.IrqPrioritySet | App1/NVIC.c:111-144 | SetPriorityIRQ writes only the register PRI[n/4] |
| Nvic.IrqPriorityEffect | App1/NVIC.c:115-140 | the field at bit 8*(n mod 4)+5 reads back as the low three bits of p; the rest of the register keeps its bits with the unmasked high bits of p ORed in |
| Nvic.IrqPriorityExact | App1/NVIC.c:115-140 | for p < 8 the field reads back as p and the other 29 bits of the register are unchanged |
| Nvic.IrqPriorityKeepsOtherLines | App1/NVIC.c:115-140 | for a priority that fits a byte, every other line's priority, including those sharing the register, is unchanged |
| Nvic.IrqPriorityWideValueSpills | App1/NVIC.c:118 | priority 0x100 for line 0 on cleared registers gives line 1 the priority 1, because p is not masked |
| Nvic.IrqPriorityIdempotent | App1/NVIC.c:118-139 | setting the same priority twice equals setting it once |
| Nvic.IrqPriorityLastWriteWins | App1/NVIC.c:118-139 | for the same line a later write discards an earlier priority below 8 |
| Nvic.ArchitectureLayoutIsExact | App1/NVIC.c:158-257 | the ARMv7-M SHCSR/SHPR layout has exact priority fields and separate enable masks |
| Nvic.ExceptionEnableEffect | App1/NVIC.c:158-177 | for the three faults the enable mask is set and every other bit of SYSHNDCTRL is kept; any other exception leaves it unchanged |
| Nvic.ExceptionDisableEffect | App1/NVIC.c:191-209 | for the three faults the enable mask is cleared and every other bit is kept; any other exception leaves SYSHNDCTRL unchanged |
| Nvic.ExceptionEnableFaults | App1/NVIC.c:158-177 | with separate masks, after enabling e a fault d is enabled if and only if d is e or d was enabled |
| Nvic.ExceptionDisableFaults | App1/NVIC.c:191-209 | with separate masks, after disabling e a fault d is enabled if and only if d is not e and d was enabled |
| Nvic.ExceptionDisableUndoesEnable | App1/NVIC.c:158-209 | Disable after Enable clears the mask bits again, and restores SYSHNDCTRL when they were clear before |
| Nvic.ExceptionEnableUndoesDisable | App1/NVIC.c:158-209 | Enable after Disable is Enable alone |
| Nvic.ExceptionEnableIdempotent | App1/NVIC.c:158-209 | enabling or disabling twice is doing it once |
| Nvic.TargetRegister | App1/NVIC.c:223-260 | every handled exception writes one of SYSPRI1-3 |
| Nvic.ExceptionPrioritySet | App1/NVIC.c:223-260 | only the target register changes, and an exception without a branch changes nothing |
| Nvic.ExceptionPriorityEffect | App1/NVIC.c:225-257 | the field holds p shifted into place; the rest of the target register is SYSPRI1's bits with p's bits outside the field ORed in |
| Nvic.ExceptionPriorityIgnoresOldTarget | App1/NVIC.c:240-257 | for SVCall, DebugMonitor, PendSV and SysTick the new target register does not depend on its previous contents |
| Nvic.ExceptionPrioritySvcCopiesSysPri1 | App1/NVIC.c:242 | SYSPRI1 = 0x1, SYSPRI2 = 0 and SVCall priority 0 give SYSPRI2 = 0x1 |
| Nvic.ExceptionPriorityExact | App1/NVIC.c:225-257 | with exact fields and p < 8 the field reads back as p and the other bits of the target are a copy of SYSPRI1 |
| Nvic.ExceptionPriorityIdempotent | App1/NVIC.c:223-260 | setting the same priority twice equals setting it once |
| Nvic.ExceptionPriorityLastWriteWins | App1/NVIC.c:223-260 | a later write for the same exception discards an earlier one (for faults, an earlier one below 8 with exact fields) |
| Nvic.ExceptionPrioritySysPri3Overwritten | App1/NVIC.c:245-257 | a write for DebugMonitor, PendSV or SysTick discards what a write for another of them left in SYSPRI3 |
| Bits.Shl | App1/NVIC.c:118 | a shifted priority has no bit below the shift amount, a shift by 0 is the identity, and a shift by 32 or more leaves nothing |
| Bits.ByteWriteKeepsField | App1/NVIC.c:118-139 | writing a byte-wide priority into one field of a PRI register keeps every field outside the byte it starts |
| Nvic.NvicRegisters.EnableIRQ | App1/NVIC.c:35-59 | EN0-4 become `IrqEnabled` of their old contents |
| Nvic.NvicRegisters.DisableIRQ | App1/NVIC.c:73-97 | DIS0-4 become `IrqDisabled` of their old contents |
| Nvic.NvicRegisters.SetPriorityIRQ | App1/NVIC.c:111-144 | PRI0-34 become `IrqPrioritySet` of their old contents |
| Nvic.NvicRegisters.EnableException | App1/NVIC.c:158-177 | SYSHNDCTRL becomes `ExceptionEnabled` of its old value |
| Nvic.NvicRegisters.DisableException | App1/NVIC.c:191-209 | SYSHNDCTRL becomes `ExceptionDisabled` of its old value |
| Nvic.NvicRegisters.SetPriorityException | App1/NVIC.c:223-260 | SYSPRI1-3 become `ExceptionPrioritySet` of their old values |
| SysTick.ReloadValue | App1/SysTick.c:45 | the reload value is ms * 15999 (integer division of App2/SysTick.h's 15999999 by 1000) and fits 32 bits for every uint16 ms |
| SysTick.ReloadFits24Bits | App1/SysTick.c:45 | the reload value fits the 24-bit reload field exactly when ms <= 1048 |
| SysTick.InitRegisters | App1/SysTick.c:42-54 | after Init, CTRL = 0x07 (ENABLE, TICKINT, CLKSOURCE), RELOAD = ms * 15999 and CURRENT = 0 |
| SysTick.BusyWaitRegisters | App1/SysTick.c:74-83 | after the busy-wait setup, CTRL = 0x05 with TICKINT clear, RELOAD = ms * 15999 and CURRENT = 0 |
| SysTick.Started | App1/SysTick.c:142-146 | Start sets bit 0 only; every other CTRL bit, RELOAD and CURRENT are unchanged |
| SysTick.Stopped | App1/SysTick.c:159-161 | Stop clears bit 0 and every bit from 8 up, including COUNTFLAG; it keeps bits 1-7, RELOAD and CURRENT |
| SysTick.DeInited | App1/SysTick.c:174-178 | DeInit zeroes CTRL and CURRENT and leaves RELOAD as it was |
| SysTick.SetupsDifferInTickInt | App1/SysTick.c:50 | the two setups differ only in TICKINT |
| SysTick.WaitForCountFlag | App1/SysTick.c:84 | the poll exits at the first read of CTRL with bit 16 set, and never exits when no read has it |
| SysTick.StartStopIdempotent | App1/SysTick.c:142-161 | Start twice is Start once, and Stop twice is Stop once |
| SysTick.StopStartResumes | App1/SysTick.c:142-161 | with no CTRL bit above 7, Stop then Start equals Start |
| SysTick.StopStartAfterSetup | App1/SysTick.c:42-161 | after Init (or the busy-wait setup) Stop then Start restores all three registers, CTRL = 0x07 |
| SysTick.StartAfterDeInit | App1/SysTick.c:174-178 | DeInit zeroes CTRL and CURRENT and keeps RELOAD, so a later Start counts from the old reload |
| SysTick.Dispatch | App1/SysTick.c:100-108 | the handler invokes the stored callback once when it is non-null and nothing otherwise |
| SysTick.StoredAfter | App1/SysTick.c:123-127 | after a sequence of SetCallBack calls and interrupts the stored reference is the initial one or one that was set |
| SysTick.Invocations | App1/SysTick.c:100-108 | over any sequence of events there are at most as many invocations as interrupts |
| SysTick.AppendEvent | App1/SysTick.c:100-127 | one more SetCallBack replaces the stored reference and invokes nothing; one more interrupt dispatches the stored reference |
| SysTick.InterruptsKeepStored | App1/SysTick.c:100-108 | interrupts never change the stored reference |
| SysTick.NothingStoredDropsInterrupts | App1/SysTick.c:102 | while the stored reference is null, interrupts invoke nothing |
| SysTick.StoredCallbackRunsPerInterrupt | App1/SysTick.c:100-127 | while a callback stays stored, each interrupt invokes it exactly once |
| SysTick.NullCallbackDropsInterrupts | App1/SysTick.c:100-127 | after a null reference is set, interrupts invoke nothing |
| SysTick.InvokedWasStored | App1/SysTick.c:100-127 | every invoked procedure was the initial reference or was passed to SetCallBack |
| SysTick.SysTickTimer.Init | App1/SysTick.c:42-54 | the registers become `InitRegisters(ms)` and the callback is untouched |
| SysTick.SysTickTimer.StartBusyWait | App1/SysTick.c:72-87 | the registers become `BusyWaitRegisters(ms)`, and the poll outcome is as for `WaitForCountFlag` |
| SysTick.SysTickTimer.Handler | App1/SysTick.c:100-108 | `Dispatch` of the stored reference is appended to the invocation log |
| SysTick.SysTickTimer.Run | App1/SysTick.c:100-127 | a sequence of SetCallBack calls and Handler runs leaves the stored reference `StoredAfter` and appends `Invocations` of the events to the log |
| SysTick.SysTickTimer.SetCallBack | App1/SysTick.c:123-127 | the stored reference is overwritten; the registers are untouched |
| SysTick.SysTickTimer.Start | App1/SysTick.c:142-146 | the registers become `Started` of their old values |
| SysTick.SysTickTimer.Stop | App1/SysTick.c:159-161 | the registers become `Stopped` of their old values |
| SysTick.SysTickTimer.DeInit | App1/SysTick.c:174-178 | the registers become `DeInited` of their old values |
| SysTick.SysTickTimer.constructor | App1/SysTick.c:19 | the callback reference starts out null |

## Left out

- The register addresses of `tm4c123gh6pm_registers.h` and the contents of NVIC.h are not part of this model.
  - The registers are class fields and arrays.
  - The exception masks and positions are the abstract `Layout`.
- `volatile` accesses and other hardware register semantics are not modelled:
  - EN and DIS are separate plain storage, with no write-one-to-set or write-one-to-clear behaviour. So the driver's effect on which lines the hardware actually has enabled is not modelled.
  - COUNTFLAG is not cleared on read.
  - CURRENT does not decrement.
  - RELOAD does not drop bits 24-31 (the reserved bits of SYST_RVR).
- StartBusyWait: the poll takes the successive hardware values of CTRL as a finite sequence. An outcome of `None` stands for a loop still waiting after those reads. The contract does not relate the number of polls to ms, since the counter is not modelled. The source comment promises the timer stops at the end, but the code never calls Stop, and neither does the model.
- Register words are sets of one-bit positions (`Bits.Word`), not `bv32` bitvectors. The drivers use only `|`, `&`, `& ~`, and `<<` by less than 32, all of which sets capture exactly, while proofs over `bv32` values were too costly for the verifier. Arithmetic on register values beyond these bitwise operations is not modelled.
- Interrupt preemption is not modelled: the handler racing with mainline code is concurrency.
- The callback's body is not modelled: the callback is an identifier (`CallbackId`), and an invocation is an entry in a log.
- NvicRegisters.SetPriorityIRQ: requires n < 140, the lines that PRI0-34 hold. The type of `NVIC_IRQType` is not part of this model, and the driver's register macro for larger numbers is unknown.
- Nvic: the widths of the IRQ number and priority types are not part of this model.
  - IRQ numbers are unbounded naturals.
  - Priorities are arbitrary words.
  - The C undefined behaviour of `1 << 31` on a signed int is modelled as setting bit 31.
- App2/SysTick.h is used only for `RELOAD_VALUE_PER_1_SECOND`: it holds prototypes and no logic.
- DeInit does not clear RELOAD, so a Start after it resumes with the old reload value rather than a zero one; the model follows the code (`StartAfterDeInit`).
