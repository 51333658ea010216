/**
 * Entering and leaving x86_64 user space (src/x86_64/uspace.rs): the user
 * context constructors, the FS-base swap around the trip, and the
 * classification of the trap that brings control back.
 */
module X86Uspace {
  import opened Types
  import opened X86Context
  import opened Trap
  import opened X86Trap

  /** `RFlags::INTERRUPT_FLAG`: bit 9; IOPL (bits 12-13) stays 0. */
  const INTERRUPT_FLAG: u64 := 0x200

  const INVALID_OPCODE_VECTOR: u8 := 6

  /** The user code and data selectors of the GDT (`UCODE64_SELECTOR`, `UDATA_SELECTOR`). */
  datatype UserSelectors = UserSelectors(ucode64: u16, udata: u16)

  /**
   * The frame of `UserContext::new(entry, ustack_top, arg0)`: the argument
   * in rdi, the entry point, the user segments, interrupts enabled, the
   * user stack, and zero everywhere else.
   */
  function NewUserRegisters(entry: u64, ustackTop: u64, arg0: u64, sel: UserSelectors): (r: Registers)
    ensures forall k :: 0 <= k < 22 ==>
      r.Layout()[k] == (if k == 6 then arg0
                        else if k == 17 then entry
                        else if k == 18 then sel.ucode64
                        else if k == 19 then INTERRUPT_FLAG
                        else if k == 20 then ustackTop
                        else if k == 21 then sel.udata
                        else 0)
    ensures r.fsBase == 0
  {
    ZeroRegisters().(rdi := arg0, rip := entry, cs := sel.ucode64, rflags := INTERRUPT_FLAG,
                     rsp := ustackTop, ss := sel.udata)
  }

  /** The frame of `UserContext::from(tf)`: the user segments, and every other register kept. */
  function FromRegisters(src: Registers, sel: UserSelectors): (r: Registers)
    ensures forall k :: 0 <= k < 22 && k != 18 && k != 21 ==> r.Layout()[k] == src.Layout()[k]
    ensures r.cs == sel.ucode64 && r.ss == sel.udata && r.fsBase == src.fsBase
  {
    src.(cs := sel.ucode64, ss := sel.udata)
  }

  /** `from` is idempotent, and a frame already in user segments comes through unchanged. */
  lemma FromRegistersIdempotent(src: Registers, sel: UserSelectors)
    ensures FromRegisters(FromRegisters(src, sel), sel) == FromRegisters(src, sel)
    ensures src.cs == sel.ucode64 && src.ss == sel.udata ==> FromRegisters(src, sel) == src
  {
  }

  /** A fresh user context already sits in the user segments: `from` leaves it alone. */
  lemma NewIsFromFixpoint(entry: u64, ustackTop: u64, arg0: u64, sel: UserSelectors)
    ensures var r := NewUserRegisters(entry, ustackTop, arg0, sel);
      FromRegisters(r, sel) == r && r.rip == entry && r.rsp == ustackTop && r.rdi == arg0
  {
    var r := NewUserRegisters(entry, ustackTop, arg0, sel);
    assert r.Layout()[6] == arg0 && r.Layout()[17] == entry && r.Layout()[20] == ustackTop;
    assert r.Layout()[18] == sel.ucode64 && r.Layout()[21] == sel.udata;
  }

  /** Information about an exception taken in user space. */
  datatype ExceptionInfo = ExceptionInfo(trapVector: u64, rip: u64, errorCode: u64, cr4: u64)
  {
    /** `ExceptionInfo::kind`, on the low byte of the vector. */
    function Kind(): (k: ExceptionKind)
      ensures k == Breakpoint <==> LowByte(trapVector) == BREAKPOINT_VECTOR
      ensures k == IllegalInstruction <==> LowByte(trapVector) == INVALID_OPCODE_VECTOR
      ensures k != Misaligned
    {
      var v := LowByte(trapVector);
      if v == BREAKPOINT_VECTOR then Breakpoint
      else if v == INVALID_OPCODE_VECTOR then IllegalInstruction
      else Other
    }
  }

  /**
   * The reason `run` returns, from the frame saved on the trap back:
   * `cr2` and `cr4` are the register values read at that point and
   * `defined` the bits `PageFaultErrorCode` knows. An invalid page-fault
   * error code panics.
   */
  function ClassifyUserTrap(exit: Registers, cr2: u64, cr4: u64, defined: bv64): (o: RunOutcome<ExceptionInfo>)
    ensures o.Returned? ==> !o.reason.Unknown?
  {
    var v := LowByte(exit.vector);
    if v == PAGE_FAULT_VECTOR then
      match ErrorCodeAccess(exit.errorCode, defined)
      case Ok(flags) => Returned(PageFault(cr2, flags))
      case Err(_) => Fatal(exit.errorCode)
    else if v == LEGACY_SYSCALL_VECTOR then Returned(Syscall)
    else if IRQ_VECTOR_START <= v <= IRQ_VECTOR_END then Returned(Interrupt)
    else Returned(Exception(ExceptionInfo(exit.vector, exit.rip, exit.errorCode, cr4)))
  }

  /**
   * The classification by the low byte `v` of the vector: a page fault with
   * the faulting address and its access flags (a panic on an invalid code);
   * 0x80 is a syscall even though it lies in the IRQ range; the rest of
   * 0x20..0xff are interrupts; every other vector is an exception carrying
   * the full vector, rip, error code and cr4.
   */
  lemma ClassifyUserTrapCases(exit: Registers, cr2: u64, cr4: u64, defined: bv64)
    ensures var o := ClassifyUserTrap(exit, cr2, cr4, defined);
      var v := LowByte(exit.vector);
      var access := ErrorCodeAccess(exit.errorCode, defined);
      && (o.Fatal? <==> v == 14 && access.Err?)
      && (o.Fatal? ==> o.code == exit.errorCode)
      && (o == Returned(Syscall) <==> v == 0x80)
      && (o == Returned(Interrupt) <==> 0x20 <= v && v != 0x80)
      && (o.Returned? && o.reason.PageFault? <==> v == 14 && access.Ok?)
      && (o.Returned? && o.reason.PageFault? ==> o.reason.vaddr == cr2 && o.reason.flags == access.value)
      && (o.Returned? && o.reason.Exception? <==> v < 0x20 && v != 14)
      && (o.Returned? && o.reason.Exception? ==>
            o.reason.info == ExceptionInfo(exit.vector, exit.rip, exit.errorCode, cr4))
  {
  }

  /** What the user program does between entry and the trap back: the frame the trap saves and the thread pointer it leaves. */
  datatype UserTrip = UserTrip(saved: Registers, threadPointer: u64)

  /**
   * What `run` sees besides the frame: the features, `is_user` (not
   * defined by the frame of context.rs), the values of cr2 and cr4 at the
   * trap, the known error-code bits and the IRQ handler slot.
   */
  datatype RunEnv = RunEnv(
    features: Features,
    isUser: Registers -> bool,
    cr2: u64,
    cr4: u64,
    definedErrorBits: bv64,
    irq: seq<u64 -> bool>)

  /** `switch_to_user_fs_base`: for a user frame, save the kernel thread pointer (with `tls`) and install the user one. */
  method SwitchToUserFsBase(tf: TrapFrame, cpu: Cpu, features: Features, isUser: Registers -> bool)
    modifies cpu`kernelFsBase, cpu`threadPointer, cpu`trace
    ensures isUser(tf.regs) ==> cpu.threadPointer == tf.regs.fsBase
                                && cpu.trace == old(cpu.trace) + [ThreadPointerWritten(tf.regs.fsBase)]
    ensures !isUser(tf.regs) ==> cpu.threadPointer == old(cpu.threadPointer) && cpu.trace == old(cpu.trace)
    ensures cpu.kernelFsBase == if isUser(tf.regs) && features.tls then old(cpu.threadPointer) else old(cpu.kernelFsBase)
  {
    if isUser(tf.regs) {
      if features.tls {
        cpu.kernelFsBase := cpu.threadPointer;
      }
      cpu.WriteThreadPointer(tf.regs.fsBase);
    }
  }

  /** `switch_to_kernel_fs_base`: for a user frame, save the user thread pointer in the frame and (with `tls`) restore the kernel one. */
  method SwitchToKernelFsBase(tf: TrapFrame, cpu: Cpu, features: Features, isUser: Registers -> bool)
    modifies tf, cpu`threadPointer, cpu`trace
    ensures tf.regs == if isUser(old(tf.regs)) then old(tf.regs).(fsBase := old(cpu.threadPointer)) else old(tf.regs)
    ensures isUser(old(tf.regs)) && features.tls ==>
              cpu.threadPointer == cpu.kernelFsBase
              && cpu.trace == old(cpu.trace) + [ThreadPointerWritten(cpu.kernelFsBase)]
    ensures !(isUser(old(tf.regs)) && features.tls) ==>
              cpu.threadPointer == old(cpu.threadPointer) && cpu.trace == old(cpu.trace)
  {
    if isUser(tf.regs) {
      tf.regs := tf.regs.(fsBase := cpu.threadPointer);
      if features.tls {
        cpu.WriteThreadPointer(cpu.kernelFsBase);
      }
    }
  }

  /**
   * `enter_user`, whose assembly is not modelled: the user program runs
   * and traps back, the trap entry saves its registers into the frame
   * (which has no slot for the FS base), and it leaves its thread pointer.
   */
  method EnterUser(tf: TrapFrame, cpu: Cpu, trip: UserTrip)
    modifies tf, cpu`threadPointer, cpu`trace
    ensures tf.regs == trip.saved.(fsBase := old(tf.regs.fsBase))
    ensures cpu.threadPointer == trip.threadPointer
    ensures cpu.trace == old(cpu.trace) + [UserEntered]
  {
    tf.regs := trip.saved.(fsBase := tf.regs.fsBase);
    cpu.threadPointer := trip.threadPointer;
    cpu.trace := cpu.trace + [UserEntered];
  }

  /** The events of the trip itself: the thread-pointer writes around the user program. */
  function TripSteps(entryTp: Option<u64>, exitTp: Option<u64>): seq<CpuEvent>
  {
    (if entryTp.Some? then [ThreadPointerWritten(entryTp.value)] else [])
    + [UserEntered]
    + (if exitTp.Some? then [ThreadPointerWritten(exitTp.value)] else [])
  }

  /** The events after the trip: the IRQ dispatch, if any, then interrupts re-enabled if `run` returns. */
  function ExitSteps(irq: Option<u64>, returned: bool): seq<CpuEvent>
  {
    (if irq.Some? then [IrqDispatched(irq.value)] else [])
    + (if returned then [IrqsEnabled] else [])
  }

  /** The events of one `run`, in order. */
  function RunSteps(entryTp: Option<u64>, exitTp: Option<u64>, irq: Option<u64>, returned: bool): seq<CpuEvent>
  {
    [IrqsDisabled] + TripSteps(entryTp, exitTp) + ExitSteps(irq, returned)
  }

  /**
   * Interrupts are disabled first and, on every path that returns,
   * re-enabled last; the user program runs only while they are disabled,
   * between the two thread-pointer writes.
   */
  lemma RunStepsBracketed(entryTp: Option<u64>, exitTp: Option<u64>, irq: Option<u64>, returned: bool)
    ensures var s := RunSteps(entryTp, exitTp, irq, returned);
      && s[0] == IrqsDisabled
      && (returned <==> s[|s| - 1] == IrqsEnabled)
      && (forall i :: 0 < i < |s| ==> s[i] != IrqsDisabled)
      && (forall i :: 0 <= i < |s| - 1 ==> s[i] != IrqsEnabled)
      && (exists u :: 0 < u < |s| && s[u] == UserEntered
            && (entryTp.Some? ==> s[u - 1] == ThreadPointerWritten(entryTp.value))
            && (exitTp.Some? ==> u + 1 < |s| && s[u + 1] == ThreadPointerWritten(exitTp.value)))
  {
    var s := RunSteps(entryTp, exitTp, irq, returned);
    var u := if entryTp.Some? then 2 else 1;
    assert s[u] == UserEntered;
    assert entryTp.Some? ==> s[u - 1] == ThreadPointerWritten(entryTp.value);
    assert exitTp.Some? ==> s[u + 1] == ThreadPointerWritten(exitTp.value);
  }

  /** The final frame of `run`: the saved registers, with the user thread pointer stored for a user frame. */
  function FrameAfterRun(before: Registers, trip: UserTrip, isUser: Registers -> bool): Registers
  {
    var saved := trip.saved.(fsBase := before.fsBase);
    if isUser(saved) then saved.(fsBase := trip.threadPointer) else saved
  }

  /** Context to enter user space: a trap frame that `run` loads and that the trap back refills. */
  class UserContext {
    const tf: TrapFrame

    /** `UserContext::empty()`: all registers zero. */
    constructor Empty()
      ensures fresh(tf) && tf.regs == ZeroRegisters()
    {
      tf := new TrapFrame(ZeroRegisters());
    }

    /** `UserContext::new(entry, ustack_top, arg0)`. */
    constructor New(entry: u64, ustackTop: u64, arg0: u64, sel: UserSelectors)
      ensures fresh(tf) && tf.regs == NewUserRegisters(entry, ustackTop, arg0, sel)
    {
      tf := new TrapFrame(NewUserRegisters(entry, ustackTop, arg0, sel));
    }

    /** `UserContext::from(tf)`. */
    constructor From(src: Registers, sel: UserSelectors)
      ensures fresh(tf) && tf.regs == FromRegisters(src, sel)
    {
      tf := new TrapFrame(FromRegisters(src, sel));
    }

    /**
     * `run()`: disable interrupts, switch to the user FS base, run the user
     * program until it traps back, switch back to the kernel FS base,
     * classify the trap (dispatching an IRQ to its handler), and re-enable
     * interrupts unless the classification panicked.
     */
    method Run(cpu: Cpu, trip: UserTrip, env: RunEnv) returns (o: RunOutcome<ExceptionInfo>)
      modifies tf, cpu`threadPointer, cpu`kernelFsBase, cpu`trace
      ensures o == ClassifyUserTrap(trip.saved, env.cr2, env.cr4, env.definedErrorBits)
      ensures tf.regs == FrameAfterRun(old(tf.regs), trip, env.isUser)
      ensures var entering := env.isUser(old(tf.regs));
        var leaving := env.isUser(trip.saved.(fsBase := old(tf.regs.fsBase)));
        && cpu.trace == old(cpu.trace) + RunSteps(
             if entering then Some(old(tf.regs.fsBase)) else None,
             if leaving && env.features.tls then Some(cpu.kernelFsBase) else None,
             if o == Returned(Interrupt) && |env.irq| > 0 then Some(trip.saved.vector) else None,
             o.Returned?)
        && cpu.kernelFsBase == (if entering && env.features.tls then old(cpu.threadPointer) else old(cpu.kernelFsBase))
        && cpu.threadPointer == (if leaving && env.features.tls then cpu.kernelFsBase else trip.threadPointer)
        && (env.features.tls && entering && leaving ==> cpu.threadPointer == old(cpu.threadPointer))
    {
      ghost var t0 := cpu.trace;
      cpu.DisableIrqs();
      RoundTrip(tf, cpu, trip, env.features, env.isUser);
      ghost var t1 := cpu.trace;
      ClassifyIgnoresFsBase(trip.saved, tf.regs.fsBase, env.cr2, env.cr4, env.definedErrorBits);
      o := ClassifyUserTrap(tf.regs, env.cr2, env.cr4, env.definedErrorBits);
      if o == Returned(Interrupt) && |env.irq| > 0 {
        // `handle_trap!(IRQ, vector)`: the first registered IRQ handler runs.
        cpu.trace := cpu.trace + [IrqDispatched(tf.regs.vector)];
      }
      ghost var irq := if o == Returned(Interrupt) && |env.irq| > 0 then Some(trip.saved.vector) else None;
      if o.Fatal? {
        // The invalid error code panics with interrupts still disabled.
        assert cpu.trace == t1 + ExitSteps(irq, false);
        AppendSteps(t0, t1, cpu.trace);
        return;
      }
      cpu.EnableIrqs();
      assert cpu.trace == t1 + ExitSteps(irq, true);
      AppendSteps(t0, t1, cpu.trace);
    }
  }

  /**
   * The part of `run` from the switch to the user FS base to the switch
   * back: the thread pointer is written on entry for a user frame, and on
   * exit for a user frame when the kernel keeps its own (`tls`).
   */
  method RoundTrip(tf: TrapFrame, cpu: Cpu, trip: UserTrip, features: Features, isUser: Registers -> bool)
    modifies tf, cpu`threadPointer, cpu`kernelFsBase, cpu`trace
    ensures tf.regs == FrameAfterRun(old(tf.regs), trip, isUser)
    ensures var entering := isUser(old(tf.regs));
      var leaving := isUser(trip.saved.(fsBase := old(tf.regs.fsBase)));
      && cpu.trace == old(cpu.trace) + TripSteps(
           if entering then Some(old(tf.regs.fsBase)) else None,
           if leaving && features.tls then Some(cpu.kernelFsBase) else None)
      && cpu.kernelFsBase == (if entering && features.tls then old(cpu.threadPointer) else old(cpu.kernelFsBase))
      && cpu.threadPointer == (if leaving && features.tls then cpu.kernelFsBase else trip.threadPointer)
  {
    SwitchToUserFsBase(tf, cpu, features, isUser);
    EnterUser(tf, cpu, trip);
    SwitchToKernelFsBase(tf, cpu, features, isUser);
  }

  /** Concatenation regrouped: the trace of `run` as the trace before it and the steps it adds. */
  lemma AppendSteps(t0: seq<CpuEvent>, t1: seq<CpuEvent>, t2: seq<CpuEvent>)
    ensures forall a, b :: t1 == t0 + [IrqsDisabled] + a && t2 == t1 + b ==> t2 == t0 + ([IrqsDisabled] + a + b)
  {
  }

  /** The classification reads neither the FS base nor anything outside the frame's trap fields. */
  lemma ClassifyIgnoresFsBase(r: Registers, fs: u64, cr2: u64, cr4: u64, defined: bv64)
    ensures ClassifyUserTrap(r.(fsBase := fs), cr2, cr4, defined) == ClassifyUserTrap(r, cr2, cr4, defined)
  {
  }
}
