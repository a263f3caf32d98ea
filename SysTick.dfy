/** The periodic timer driver of App1/SysTick.c: it programs the CTRL, RELOAD and
    CURRENT registers of the Cortex-M SysTick timer for interrupt mode or for a
    busy wait, starts, stops and de-initialises it, and dispatches one stored
    callback from the timer's interrupt handler.

    CTRL is a `Word` (a set of one-bit positions). Its bits follow SYST_CSR in
    section B3.3.3 of the ARMv7-M Architecture Reference Manual: ENABLE is bit 0,
    TICKINT bit 1, CLKSOURCE bit 2 and COUNTFLAG bit 16. RELOAD and CURRENT are
    only ever assigned numbers, so they are numbers here. */
module SysTick {
  import opened Bits
  import opened Wrappers

  /** `uint16`, the type of the driver's millisecond arguments. */
  type uint16 = x: nat | x < 0x1_0000

  /** Ticks per second of the system clock, less one, as the driver's header
      defines it. */
  const RELOAD_VALUE_PER_1_SECOND: nat := 15999999

  const ENABLE: BitIndex := 0
  const TICKINT: BitIndex := 1
  const CLKSOURCE: BitIndex := 2
  const COUNTFLAG: BitIndex := 16

  /** 0x06: TICKINT and CLKSOURCE, ORed in by `SysTick_Init`. */
  const INTERRUPT_MODE_BITS: Word := {TICKINT, CLKSOURCE}

  /** 0x04: CLKSOURCE alone, ORed in by `SysTick_StartBusyWait`. */
  const BUSY_WAIT_BITS: Word := {CLKSOURCE}

  /** 0x01: ENABLE, ORed in by `SysTick_Start`. */
  const START_BITS: Word := {ENABLE}

  /** 0xFE: bits 1-7, the mask `SysTick_Stop` ANDs CTRL with. */
  const STOP_KEEP: Word := Low8 - {ENABLE}

  /** `ms * (RELOAD_VALUE_PER_1_SECOND / 1000)`, the value both setups write to
      RELOAD. The quotient truncates to 15999 ticks per millisecond, and the
      product is a 32-bit value for every `uint16` argument. */
  function ReloadValue(ms: uint16): (r: nat)
    ensures r == ms * 15999
    ensures r < 0x1_0000_0000
  {
    ms * (RELOAD_VALUE_PER_1_SECOND / 1000)
  }

  /** The driver does not check its argument: the reload value fits the 24-bit
      RELOAD field of the timer exactly when the period is at most 1048 ms. */
  lemma ReloadFits24Bits(ms: uint16)
    ensures ReloadValue(ms) < 0x100_0000 <==> ms <= 1048
  {
    if ms > 1048 {
      assert ReloadValue(ms) >= 1049 * 15999;
    }
  }

  /** The three SysTick registers the driver writes. */
  datatype Registers = Registers(ctrl: Word, reload: nat, current: nat)

  /** The registers after `SysTick_Start`, which ORs ENABLE into CTRL: ENABLE is
      set, and every other bit of CTRL, RELOAD and CURRENT keep their values. */
  function Started(r: Registers): (s: Registers)
    ensures ENABLE in s.ctrl && s.ctrl - {ENABLE} == r.ctrl - {ENABLE}
    ensures s.reload == r.reload && s.current == r.current
  {
    r.(ctrl := r.ctrl + START_BITS)
  }

  /** The registers after `SysTick_Stop`, which ANDs CTRL with 0xFE: ENABLE is
      cleared and so is every bit from bit 8 up, COUNTFLAG among them; bits 1-7 of
      CTRL, RELOAD and CURRENT keep their values. */
  function Stopped(r: Registers): (s: Registers)
    ensures ENABLE !in s.ctrl && COUNTFLAG !in s.ctrl
    ensures forall i: BitIndex :: i >= 8 ==> i !in s.ctrl
    ensures forall i: BitIndex :: 1 <= i < 8 ==> (i in s.ctrl <==> i in r.ctrl)
    ensures s.reload == r.reload && s.current == r.current
  {
    r.(ctrl := r.ctrl * STOP_KEEP)
  }

  /** After `SysTick_DeInit`: CTRL and CURRENT are zero and RELOAD is left as it
      was. */
  function DeInited(r: Registers): (s: Registers)
    ensures s.ctrl == {} && s.current == 0
    ensures s.reload == r.reload
  {
    r.(ctrl := {}, current := 0)
  }

  /** The registers after `SysTick_Init(ms)`: CTRL is zeroed, RELOAD and CURRENT
      are written, 0x06 is ORed into CTRL and the timer is started. The result is
      CTRL = 0x07: enabled, interrupting, on the system clock. */
  function InitRegisters(ms: uint16): (r: Registers)
    ensures r.ctrl == {ENABLE, TICKINT, CLKSOURCE}
    ensures r.reload == ms * 15999 && r.current == 0
  {
    Started(Registers({} + INTERRUPT_MODE_BITS, ReloadValue(ms), 0))
  }

  /** The registers after the setup part of `SysTick_StartBusyWait(ms)`: the same
      sequence with 0x04 ORed in, giving CTRL = 0x05: enabled on the system clock
      with TICKINT clear. */
  function BusyWaitRegisters(ms: uint16): (r: Registers)
    ensures r.ctrl == {ENABLE, CLKSOURCE} && TICKINT !in r.ctrl
    ensures r.reload == ms * 15999 && r.current == 0
  {
    Started(Registers({} + BUSY_WAIT_BITS, ReloadValue(ms), 0))
  }

  /** The two setups differ only in TICKINT. */
  lemma SetupsDifferInTickInt(ms: uint16)
    ensures InitRegisters(ms).ctrl - {TICKINT} == BusyWaitRegisters(ms).ctrl
    ensures InitRegisters(ms).reload == BusyWaitRegisters(ms).reload
    ensures InitRegisters(ms).current == BusyWaitRegisters(ms).current
  {
  }

  lemma StartStopIdempotent(r: Registers)
    ensures Started(Started(r)) == Started(r)
    ensures Stopped(Stopped(r)) == Stopped(r)
  {
  }

  /** Stop then Start gives back what Start alone gives, so a timer whose CTRL
      has no bit above bit 7 resumes with the same configuration and period. */
  lemma StopStartResumes(r: Registers)
    requires r.ctrl <= Low8
    ensures Started(Stopped(r)) == Started(r)
  {
  }

  /** After either setup, Stop followed by Start restores the registers: in
      particular CTRL = 0x07 again after `SysTick_Init`. */
  lemma StopStartAfterSetup(ms: uint16)
    ensures Started(Stopped(InitRegisters(ms))) == InitRegisters(ms)
    ensures Started(Stopped(BusyWaitRegisters(ms))) == BusyWaitRegisters(ms)
  {
    StopStartResumes(Registers({} + INTERRUPT_MODE_BITS, ReloadValue(ms), 0));
    StopStartResumes(Registers({} + BUSY_WAIT_BITS, ReloadValue(ms), 0));
  }

  /** DeInit keeps RELOAD, so a Start after it counts down from the old reload
      value, with TICKINT and CLKSOURCE clear. */
  lemma StartAfterDeInit(r: Registers)
    ensures Started(DeInited(r)) == Registers({ENABLE}, r.reload, 0)
    ensures Started(DeInited(r)).reload == r.reload
  {
  }

  /** Polls CTRL as `while (!(CTRL & (1 << 16)));` does, over the successive values
      the hardware returns for CTRL. `Some(i)` is the read at which the loop exits:
      the first with COUNTFLAG set. `None` means no supplied read had it set, so the
      loop was still waiting. */
  method WaitForCountFlag(samples: seq<Word>) returns (outcome: Option<nat>)
    ensures outcome.Some? ==> outcome.value < |samples| && COUNTFLAG in samples[outcome.value]
    ensures outcome.Some? ==> forall j :: 0 <= j < outcome.value ==> COUNTFLAG !in samples[j]
    ensures outcome.None? <==> forall j :: 0 <= j < |samples| ==> COUNTFLAG !in samples[j]
  {
    var i := 0;
    while i < |samples| && COUNTFLAG !in samples[i]
      invariant 0 <= i <= |samples|
      invariant forall j :: 0 <= j < i ==> COUNTFLAG !in samples[j]
    {
      i := i + 1;
    }
    if i < |samples| {
      outcome := Some(i);
    } else {
      outcome := None;
    }
  }

  // ---------------------------------------------------------------------------
  // The callback

  /** A callback procedure, which is not modelled beyond its identity. */
  datatype CallbackId = CallbackId(id: nat)

  /** The invocations `SysTick_Handler` makes with the reference it reads: one of
      the stored procedure, or none for a null reference. */
  function Dispatch(callback: Option<CallbackId>): (calls: seq<CallbackId>)
    ensures |calls| <= 1
    ensures calls == [] <==> callback.None?
    ensures forall c :: c in calls ==> callback == Some(c)
  {
    match callback
    case None => []
    case Some(c) => [c]
  }

  /** What can happen to the callback state: a call of `SysTick_SetCallBack`, or a
      timer interrupt, which runs `SysTick_Handler`. */
  datatype Event = SetCallBack(reference: Option<CallbackId>) | Interrupt

  /** The stored reference after a sequence of events, starting from `callback`:
      the last reference set, if any. It is the initial reference or one that an
      event set. */
  function StoredAfter(callback: Option<CallbackId>, events: seq<Event>): (stored: Option<CallbackId>)
    ensures stored == callback || SetCallBack(stored) in events
    decreases |events|
  {
    if events == [] then callback
    else
      var before := events[..|events| - 1];
      assert events == before + [events[|events| - 1]];
      match events[|events| - 1]
      case SetCallBack(ref) => ref
      case Interrupt => StoredAfter(callback, before)
  }

  /** The number of interrupts in a sequence of events. */
  function InterruptCount(events: seq<Event>): nat
    decreases |events|
  {
    if events == [] then 0
    else InterruptCount(events[..|events| - 1]) + (if events[|events| - 1].Interrupt? then 1 else 0)
  }

  /** The invocations the handler makes over a sequence of events, starting from
      `callback`. Every interrupt invokes at most one procedure, so there are never
      more invocations than interrupts. */
  function Invocations(callback: Option<CallbackId>, events: seq<Event>): (calls: seq<CallbackId>)
    ensures |calls| <= InterruptCount(events)
    decreases |events|
  {
    if events == [] then []
    else
      var before := events[..|events| - 1];
      match events[|events| - 1]
      case SetCallBack(_) => Invocations(callback, before)
      case Interrupt => Invocations(callback, before) + Dispatch(StoredAfter(callback, before))
  }

  /** One more event: a `SysTick_SetCallBack` replaces the stored reference and
      invokes nothing, an interrupt dispatches the stored reference. */
  lemma AppendEvent(callback: Option<CallbackId>, events: seq<Event>, e: Event)
    ensures StoredAfter(callback, events + [e]) == if e.Interrupt? then StoredAfter(callback, events) else e.reference
    ensures Invocations(callback, events + [e]) ==
              Invocations(callback, events) + (if e.Interrupt? then Dispatch(StoredAfter(callback, events)) else [])
  {
    assert (events + [e])[..|events|] == events;
  }

  /** Interrupts leave the stored reference alone. */
  lemma {:induction false} InterruptsKeepStored(callback: Option<CallbackId>, events: seq<Event>, k: nat)
    ensures StoredAfter(callback, events + seq(k, _ => Interrupt)) == StoredAfter(callback, events)
    decreases k
  {
    if k == 0 {
      assert events + seq(0, _ => Interrupt) == events;
    } else {
      var shorter := events + seq(k - 1, _ => Interrupt);
      assert events + seq(k, _ => Interrupt) == shorter + [Interrupt];
      InterruptsKeepStored(callback, events, k - 1);
      AppendEvent(callback, shorter, Interrupt);
    }
  }

  /** While a procedure stays stored, every interrupt invokes it exactly once. */
  lemma {:induction false} StoredCallbackRunsPerInterrupt(callback: Option<CallbackId>, events: seq<Event>, c: CallbackId, k: nat)
    requires StoredAfter(callback, events) == Some(c)
    ensures Invocations(callback, events + seq(k, _ => Interrupt)) == Invocations(callback, events) + seq(k, _ => c)
    ensures StoredAfter(callback, events + seq(k, _ => Interrupt)) == Some(c)
    decreases k
  {
    InterruptsKeepStored(callback, events, k);
    if k == 0 {
      assert events + seq(0, _ => Interrupt) == events;
    } else {
      var shorter := events + seq(k - 1, _ => Interrupt);
      assert events + seq(k, _ => Interrupt) == shorter + [Interrupt];
      StoredCallbackRunsPerInterrupt(callback, events, c, k - 1);
      InterruptsKeepStored(callback, events, k - 1);
      AppendEvent(callback, shorter, Interrupt);
      assert seq(k - 1, _ => c) + [c] == seq(k, _ => c);
    }
  }

  /** While no procedure is stored, interrupts invoke nothing. */
  lemma {:induction false} NothingStoredDropsInterrupts(callback: Option<CallbackId>, events: seq<Event>, k: nat)
    requires StoredAfter(callback, events) == None
    ensures Invocations(callback, events + seq(k, _ => Interrupt)) == Invocations(callback, events)
    decreases k
  {
    if k == 0 {
      assert events + seq(0, _ => Interrupt) == events;
    } else {
      var shorter := events + seq(k - 1, _ => Interrupt);
      assert events + seq(k, _ => Interrupt) == shorter + [Interrupt];
      NothingStoredDropsInterrupts(callback, events, k - 1);
      InterruptsKeepStored(callback, events, k - 1);
      AppendEvent(callback, shorter, Interrupt);
    }
  }

  /** Storing a null reference disables dispatch: no interrupt after it invokes
      anything. */
  lemma NullCallbackDropsInterrupts(callback: Option<CallbackId>, events: seq<Event>, k: nat)
    ensures Invocations(callback, events + [SetCallBack(None)] + seq(k, _ => Interrupt)) == Invocations(callback, events)
    ensures StoredAfter(callback, events + [SetCallBack(None)] + seq(k, _ => Interrupt)) == None
  {
    var cleared := events + [SetCallBack(None)];
    AppendEvent(callback, events, SetCallBack(None));
    InterruptsKeepStored(callback, cleared, k);
    NothingStoredDropsInterrupts(callback, cleared, k);
  }

  /** Every procedure the handler invokes is the initial reference or was passed
      to `SysTick_SetCallBack` among the events. */
  lemma {:induction false} InvokedWasStored(callback: Option<CallbackId>, events: seq<Event>, c: CallbackId)
    requires c in Invocations(callback, events)
    ensures callback == Some(c) || SetCallBack(Some(c)) in events
    decreases |events|
  {
    var before := events[..|events| - 1];
    assert events == before + [events[|events| - 1]];
    if c in Invocations(callback, before) {
      InvokedWasStored(callback, before, c);
    } else {
      assert StoredAfter(callback, before) == Some(c);
    }
  }

  // ---------------------------------------------------------------------------
  // The timer

  /** The SysTick registers and the driver's global callback reference. */
  class SysTickTimer {
    var ctrl: Word
    var reload: nat
    var current: nat
    /** `g_callBackPtr`; a null pointer is `None`. */
    var callback: Option<CallbackId>
    /** The procedures invoked through the callback reference so far. */
    var invocations: seq<CallbackId>

    function Regs(): Registers
      reads this
    {
      Registers(ctrl, reload, current)
    }

    /** The registers hold whatever they held before the driver runs; the callback
        reference starts out null. */
    constructor (r: Registers)
      ensures Regs() == r && callback == None && invocations == []
    {
      ctrl, reload, current := r.ctrl, r.reload, r.current;
      callback := None;
      invocations := [];
    }

    /** `SysTick_Init`. */
    method Init(ms: uint16)
      modifies this`ctrl, this`reload, this`current
      ensures Regs() == InitRegisters(ms)
    {
      ctrl := {};
      reload := ms * (RELOAD_VALUE_PER_1_SECOND / 1000);
      current := 0;
      ctrl := ctrl + INTERRUPT_MODE_BITS;
      Start();
    }

    /** `SysTick_StartBusyWait`: the setup, then the poll of CTRL over the values
        the hardware returns, `samples`. The setup is complete whatever the poll's
        outcome; no Stop follows it. */
    method StartBusyWait(ms: uint16, samples: seq<Word>) returns (outcome: Option<nat>)
      modifies this`ctrl, this`reload, this`current
      ensures Regs() == BusyWaitRegisters(ms)
      ensures outcome.Some? ==> outcome.value < |samples| && COUNTFLAG in samples[outcome.value]
      ensures outcome.Some? ==> forall j :: 0 <= j < outcome.value ==> COUNTFLAG !in samples[j]
      ensures outcome.None? <==> forall j :: 0 <= j < |samples| ==> COUNTFLAG !in samples[j]
    {
      ctrl := {};
      reload := ms * (RELOAD_VALUE_PER_1_SECOND / 1000);
      current := 0;
      ctrl := ctrl + BUSY_WAIT_BITS;
      Start();
      outcome := WaitForCountFlag(samples);
    }

    /** `SysTick_Handler`. */
    method Handler()
      modifies this`invocations
      ensures invocations == old(invocations) + Dispatch(callback)
    {
      if callback != None {
        invocations := invocations + [callback.value];
      }
    }

    /** `SysTick_SetCallBack`. */
    method SetCallBack(reference: Option<CallbackId>)
      modifies this`callback
      ensures callback == reference
    {
      callback := reference;
    }

    /** A sequence of `SysTick_SetCallBack` calls and timer interrupts, each
        interrupt running `SysTick_Handler`: the stored reference and the
        invocations are those the event sequence gives. */
    method Run(events: seq<Event>)
      modifies this`callback, this`invocations
      ensures callback == StoredAfter(old(callback), events)
      ensures invocations == old(invocations) + Invocations(old(callback), events)
    {
      var i := 0;
      while i < |events|
        invariant 0 <= i <= |events|
        invariant callback == StoredAfter(old(callback), events[..i])
        invariant invocations == old(invocations) + Invocations(old(callback), events[..i])
      {
        assert events[..i + 1][..i] == events[..i];
        if events[i].Interrupt? {
          Handler();
        } else {
          this.SetCallBack(events[i].reference);
        }
        i := i + 1;
      }
      assert events[..|events|] == events;
    }

    /** `SysTick_Start`. */
    method Start()
      modifies this`ctrl
      ensures Regs() == Started(old(Regs()))
    {
      ctrl := ctrl + START_BITS;
    }

    /** `SysTick_Stop`. */
    method Stop()
      modifies this`ctrl
      ensures Regs() == Stopped(old(Regs()))
    {
      ctrl := ctrl * STOP_KEEP;
    }

    /** `SysTick_DeInit`. */
    method DeInit()
      modifies this`ctrl, this`current
      ensures Regs() == DeInited(old(Regs()))
    {
      ctrl := {};
      current := 0;
    }
  }
}
