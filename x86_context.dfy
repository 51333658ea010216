/**
 * The x86_64 register frame, the kernel task context and the context switch
 * (src/x86_64/context.rs), together with the abstract processor that its
 * assembly and the `crate::asm` primitives act on.
 */
module X86Context {
  import opened Types

  /**
   * The registers saved on a trap, field by field in the `repr(C)` order
   * the entry stubs in trap.S rely on. `TrapFrame` is `Copy`, so the
   * registers form a value; a `TrapFrame` object below is a place that
   * holds one and is updated in place.
   */
  datatype Registers = Registers(
    rax: u64, rcx: u64, rdx: u64, rbx: u64, rbp: u64, rsi: u64, rdi: u64,
    r8: u64, r9: u64, r10: u64, r11: u64, r12: u64, r13: u64, r14: u64, r15: u64,
    // pushed by trap.S
    vector: u64, errorCode: u64,
    // pushed by the CPU
    rip: u64, cs: u64, rflags: u64, rsp: u64, ss: u64,
    /**
     * The user thread pointer. uspace.rs reads and writes it, but it is not
     * among the fields of the struct declared in context.rs, so it is kept
     * out of `Layout()`.
     */
    fsBase: u64)
  {
    /** The 22 words of the frame, lowest address first (word `i` at byte offset `8 * i`). */
    function Layout(): seq<u64>
    {
      [rax, rcx, rdx, rbx, rbp, rsi, rdi, r8, r9, r10, r11, r12, r13, r14, r15,
       vector, errorCode, rip, cs, rflags, rsp, ss]
    }

    /**
     * `impl From<&TrapFrame> for kprobe::PtRegs`: every word of the layout but
     * the error code (word 16) is carried over, the vector as `orig_rax`.
     */
    function ToPtRegs(): (p: PtRegs)
      ensures [p.rax, p.rcx, p.rdx, p.rbx, p.rbp, p.rsi, p.rdi, p.r8, p.r9, p.r10, p.r11,
               p.r12, p.r13, p.r14, p.r15, p.origRax] == Layout()[..16]
      ensures [p.rip, p.cs, p.rflags, p.rsp, p.ss] == Layout()[17..]
    {
      PtRegs(r15, r14, r13, r12, rbp, rbx, r11, r10, r9, r8, rax, rcx, rdx, rsi, rdi,
             vector, rip, cs, rsp, ss, rflags)
    }
  }

  /** `TrapFrame::default()`, and the all-zero frame of `MaybeUninit::zeroed()`. */
  function ZeroRegisters(): (r: Registers)
    ensures r.Layout() == seq(22, _ => 0) && r.fsBase == 0
  {
    Registers(0, 0, 0, 0, 0, 0, 0, 0, 0, 0, 0, 0, 0, 0, 0, 0, 0, 0, 0, 0, 0, 0, 0)
  }

  /** A trap frame in memory, with the accessors of context.rs. */
  class TrapFrame {
    var regs: Registers

    constructor (r: Registers)
      ensures regs == r
    {
      regs := r;
    }

    // Syscall arguments follow the System V calling convention, except that
    // the fourth argument travels in r10 because `syscall` clobbers rcx. Each
    // accessor reads one word of the frame's layout.

    function Arg0(): (v: u64)
      reads this
      ensures v == regs.Layout()[6]
    {
      regs.rdi
    }

    function Arg1(): (v: u64)
      reads this
      ensures v == regs.Layout()[5]
    {
      regs.rsi
    }

    function Arg2(): (v: u64)
      reads this
      ensures v == regs.Layout()[2]
    {
      regs.rdx
    }

    function Arg3(): (v: u64)
      reads this
      ensures v == regs.Layout()[9]
    {
      regs.r10
    }

    function Arg4(): (v: u64)
      reads this
      ensures v == regs.Layout()[7]
    {
      regs.r8
    }

    function Arg5(): (v: u64)
      reads this
      ensures v == regs.Layout()[8]
    {
      regs.r9
    }

    function Ip(): (v: u64)
      reads this
      ensures v == regs.Layout()[17]
    {
      regs.rip
    }

    function Sp(): (v: u64)
      reads this
      ensures v == regs.Layout()[20]
    {
      regs.rsp
    }

    function Sysno(): (v: u64)
      reads this
      ensures v == regs.Layout()[0]
    {
      regs.rax
    }

    function Retval(): (v: u64)
      reads this
      ensures v == regs.Layout()[0]
    {
      regs.rax
    }

    method SetArg0(v: u64)
      modifies this
      ensures Arg0() == v && regs == old(regs).(rdi := v)
    {
      regs := regs.(rdi := v);
    }

    method SetArg1(v: u64)
      modifies this
      ensures Arg1() == v && regs == old(regs).(rsi := v)
    {
      regs := regs.(rsi := v);
    }

    method SetArg2(v: u64)
      modifies this
      ensures Arg2() == v && regs == old(regs).(rdx := v)
    {
      regs := regs.(rdx := v);
    }

    method SetArg3(v: u64)
      modifies this
      ensures Arg3() == v && regs == old(regs).(r10 := v)
    {
      regs := regs.(r10 := v);
    }

    method SetArg4(v: u64)
      modifies this
      ensures Arg4() == v && regs == old(regs).(r8 := v)
    {
      regs := regs.(r8 := v);
    }

    method SetArg5(v: u64)
      modifies this
      ensures Arg5() == v && regs == old(regs).(r9 := v)
    {
      regs := regs.(r9 := v);
    }

    method SetIp(v: u64)
      modifies this
      ensures Ip() == v && regs == old(regs).(rip := v)
    {
      regs := regs.(rip := v);
    }

    method SetSp(v: u64)
      modifies this
      ensures Sp() == v && regs == old(regs).(rsp := v)
    {
      regs := regs.(rsp := v);
    }

    /** The syscall number and the return value share rax. */
    method SetSysno(v: u64)
      modifies this
      ensures Sysno() == v && Retval() == v && regs == old(regs).(rax := v)
    {
      regs := regs.(rax := v);
    }

    method SetRetval(v: u64)
      modifies this
      ensures Retval() == v && Sysno() == v && regs == old(regs).(rax := v)
    {
      regs := regs.(rax := v);
    }

    /**
     * `update_from_ptregs`: every register but the error code (and the
     * thread pointer) is taken from `p`, the trap vector from `orig_rax`.
     */
    method UpdateFromPtRegs(p: PtRegs)
      modifies this
      ensures regs.ToPtRegs() == p
      ensures regs.errorCode == old(regs.errorCode) && regs.fsBase == old(regs.fsBase)
      ensures p == old(regs.ToPtRegs()) ==> regs == old(regs)
    {
      regs := regs.(r15 := p.r15, r14 := p.r14, r13 := p.r13, r12 := p.r12);
      regs := regs.(rbp := p.rbp, rbx := p.rbx, r11 := p.r11, r10 := p.r10, r9 := p.r9, r8 := p.r8);
      regs := regs.(rax := p.rax, rcx := p.rcx, rdx := p.rdx, rsi := p.rsi, rdi := p.rdi);
      regs := regs.(vector := p.origRax);
      regs := regs.(rip := p.rip, cs := p.cs, rflags := p.rflags, rsp := p.rsp, ss := p.ss);
    }
  }

  /** Converting a frame to `PtRegs` keeps the trap vector in `orig_rax` and loses only the error code. */
  lemma PtRegsKeepsAllButErrorCode(a: Registers, b: Registers)
    requires a.ToPtRegs() == b.ToPtRegs()
    ensures a.ToPtRegs().origRax == a.vector
    ensures a == b.(errorCode := a.errorCode, fsBase := a.fsBase)
  {
  }

  /** kprobe's `PtRegs`, in its own field order. */
  datatype PtRegs = PtRegs(
    r15: u64, r14: u64, r13: u64, r12: u64, rbp: u64, rbx: u64, r11: u64, r10: u64,
    r9: u64, r8: u64, rax: u64, rcx: u64, rdx: u64, rsi: u64, rdi: u64, origRax: u64,
    rip: u64, cs: u64, rsp: u64, ss: u64, rflags: u64)

  /** The frame `context_switch` leaves on a task's stack, lowest address first. */
  datatype ContextSwitchFrame = ContextSwitchFrame(
    r15: u64, r14: u64, r13: u64, r12: u64, rbx: u64, rbp: u64, rip: u64)
  {
    function Words(): seq<u64>
    {
      [r15, r14, r13, r12, rbx, rbp, rip]
    }
  }

  /** Size of a `ContextSwitchFrame` in bytes. */
  const CONTEXT_SWITCH_FRAME_SIZE: nat := 56

  // Memory is modelled as a sequence of 64-bit words indexed by byte
  // address: `mem[a]` is the word stored at the 8-aligned address `a`.

  /** Stores `f` at byte address `at`: word `k` of the frame goes to `at + 8 * k`. */
  function StoreFrame(mem: seq<u64>, at: nat, f: ContextSwitchFrame): (m: seq<u64>)
    requires at + CONTEXT_SWITCH_FRAME_SIZE <= |mem|
    ensures |m| == |mem|
  {
    mem[at := f.r15][at + 8 := f.r14][at + 16 := f.r13][at + 24 := f.r12]
       [at + 32 := f.rbx][at + 40 := f.rbp][at + 48 := f.rip]
  }

  /** Loads the `ContextSwitchFrame` stored at byte address `at`. */
  function LoadFrame(mem: seq<u64>, at: nat): ContextSwitchFrame
    requires at + CONTEXT_SWITCH_FRAME_SIZE <= |mem|
  {
    ContextSwitchFrame(mem[at], mem[at + 8], mem[at + 16], mem[at + 24], mem[at + 32], mem[at + 40], mem[at + 48])
  }

  /** The frame occupies the seven words from `at` upward, in `Words()` order. */
  lemma StoreFrameLayout(mem: seq<u64>, at: nat, f: ContextSwitchFrame)
    requires at + CONTEXT_SWITCH_FRAME_SIZE <= |mem|
    ensures var m := StoreFrame(mem, at, f);
      && (forall k :: 0 <= k < 7 ==> m[at + 8 * k] == f.Words()[k])
      && (forall i :: 0 <= i < |mem| && (i < at || at + CONTEXT_SWITCH_FRAME_SIZE <= i) ==> m[i] == mem[i])
  {
    var m := StoreFrame(mem, at, f);
    forall k | 0 <= k < 7
      ensures m[at + 8 * k] == f.Words()[k]
    {
      if k == 0 {} else if k == 1 {} else if k == 2 {} else if k == 3 {} else if k == 4 {} else if k == 5 {} else {}
    }
  }

  /** Storing a frame and loading it back from the same place gives the frame. */
  lemma LoadAfterStore(mem: seq<u64>, at: nat, f: ContextSwitchFrame)
    requires at + CONTEXT_SWITCH_FRAME_SIZE <= |mem|
    ensures LoadFrame(StoreFrame(mem, at, f), at) == f
  {
  }

  /** Storing back the frame just loaded from a place changes nothing. */
  lemma StoreLoaded(mem: seq<u64>, at: nat)
    requires at + CONTEXT_SWITCH_FRAME_SIZE <= |mem|
    ensures StoreFrame(mem, at, LoadFrame(mem, at)) == mem
  {
  }

  /** Storing a frame leaves a frame elsewhere, on another stack, readable as before. */
  lemma LoadElsewhere(mem: seq<u64>, at: nat, f: ContextSwitchFrame, other: nat)
    requires at + CONTEXT_SWITCH_FRAME_SIZE <= |mem| && other + CONTEXT_SWITCH_FRAME_SIZE <= |mem|
    requires other + CONTEXT_SWITCH_FRAME_SIZE <= at || at + CONTEXT_SWITCH_FRAME_SIZE <= other
    ensures LoadFrame(StoreFrame(mem, at, f), other) == LoadFrame(mem, other)
  {
  }

  /** The x87/SSE save area used by FXSAVE and FXRSTOR. */
  datatype FxsaveArea = FxsaveArea(
    fcw: u16, fsw: u16, ftw: u16, fop: u16, fip: u64, fdp: u64, mxcsr: u32, mxcsrMask: u32,
    st: seq<u64>, xmm: seq<u64>, padding: seq<u64>)
  {
    ghost predicate Valid()
    {
      |st| == 16 && |xmm| == 32 && |padding| == 12
    }

    /** The size in bytes of the `repr(C)` struct. */
    function Size(): nat
    {
      4 * 2 + 2 * 8 + 2 * 4 + 8 * (|st| + |xmm| + |padding|)
    }
  }

  /** Every well-formed save area is the 512 bytes FXSAVE writes. */
  lemma FxsaveAreaSize(a: FxsaveArea)
    requires a.Valid()
    ensures a.Size() == 512
  {
  }

  /** Extended (FP/SIMD) state of a task. */
  datatype ExtendedState = ExtendedState(fxsaveArea: FxsaveArea)

  function ZeroedFxsaveArea(): FxsaveArea
  {
    FxsaveArea(0, 0, 0, 0, 0, 0, 0, 0, seq(16, _ => 0), seq(32, _ => 0), seq(12, _ => 0))
  }

  /** `ExtendedState::default()`: a zeroed area with the x87 and SSE reset values. */
  function DefaultExtendedState(): (e: ExtendedState)
    ensures e.fxsaveArea.Valid()
    ensures e.fxsaveArea.fcw == 0x37f && e.fxsaveArea.ftw == 0xffff && e.fxsaveArea.mxcsr == 0x1f80
    ensures e.fxsaveArea.fsw == 0 && e.fxsaveArea.fop == 0 && e.fxsaveArea.fip == 0
    ensures e.fxsaveArea.fdp == 0 && e.fxsaveArea.mxcsrMask == 0
    ensures forall i :: 0 <= i < 16 ==> e.fxsaveArea.st[i] == 0
    ensures forall i :: 0 <= i < 32 ==> e.fxsaveArea.xmm[i] == 0
    ensures forall i :: 0 <= i < 12 ==> e.fxsaveArea.padding[i] == 0
  {
    ExtendedState(ZeroedFxsaveArea().(fcw := 0x37f, ftw := 0xffff, mxcsr := 0x1f80))
  }

  /** Observable steps of the processor, in the order they happen. */
  datatype CpuEvent =
    | IrqsDisabled
    | IrqsEnabled
    | FpStateSwitched
    | ThreadPointerWritten(tp: u64)
    | PageTableWritten(root: u64)
    | RegistersSwitched
    | UserEntered
    | IrqDispatched(vector: u64)

  /**
   * The part of one processor that the assembly acts on: memory indexed by
   * byte address (see `StoreFrame`), the stack pointer, the
   * callee-saved registers and the instruction pointer, the FS base (thread
   * pointer), CR3, the FP/SIMD registers as an FXSAVE image, and the
   * per-CPU `KERNEL_FS_BASE` of uspace.rs.
   */
  class Cpu {
    const mem: array<u64>
    var rsp: u64
    var rbx: u64
    var rbp: u64
    var r12: u64
    var r13: u64
    var r14: u64
    var r15: u64
    var rip: u64
    var threadPointer: u64
    var pageTableRoot: u64
    var fpu: FxsaveArea
    var kernelFsBase: u64
    ghost var trace: seq<CpuEvent>

    /** Every byte address of memory fits in 64 bits. */
    ghost predicate Valid()
    {
      mem.Length < 0x1_0000_0000_0000_0000
    }

    constructor (memory: array<u64>)
      requires memory.Length < 0x1_0000_0000_0000_0000
      ensures Valid() && mem == memory && trace == []
    {
      mem := memory;
      rsp, rbx, rbp, r12, r13, r14, r15, rip := 0, 0, 0, 0, 0, 0, 0, 0;
      threadPointer, pageTableRoot, kernelFsBase := 0, 0, 0;
      fpu := ZeroedFxsaveArea();
      trace := [];
    }

    /** What `context_switch` pushes for this processor: the callee-saved registers and the return address. */
    function Live(): ContextSwitchFrame
      reads this
    {
      ContextSwitchFrame(r15, r14, r13, r12, rbx, rbp, rip)
    }

    /**
     * The saving half of `context_switch`: the return address pushed by the
     * `call`, then `push rbp; push rbx; push r12; push r13; push r14; push r15`.
     */
    method PushFrame()
      requires Valid() && rsp % 8 == 0 && CONTEXT_SWITCH_FRAME_SIZE <= rsp <= mem.Length
      modifies this`rsp, mem
      ensures rsp == old(rsp) - CONTEXT_SWITCH_FRAME_SIZE
      ensures mem[..] == StoreFrame(old(mem[..]), rsp, Live())
    {
      rsp := rsp - 8;
      mem[rsp] := rip;
      rsp := rsp - 8;
      mem[rsp] := rbp;
      rsp := rsp - 8;
      mem[rsp] := rbx;
      rsp := rsp - 8;
      mem[rsp] := r12;
      rsp := rsp - 8;
      mem[rsp] := r13;
      rsp := rsp - 8;
      mem[rsp] := r14;
      rsp := rsp - 8;
      mem[rsp] := r15;
    }

    /** The restoring half: `pop r15; pop r14; pop r13; pop r12; pop rbx; pop rbp; ret`. */
    method PopFrame()
      requires Valid() && rsp + CONTEXT_SWITCH_FRAME_SIZE <= mem.Length
      modifies this`rsp, this`r15, this`r14, this`r13, this`r12, this`rbx, this`rbp, this`rip
      ensures Live() == LoadFrame(mem[..], old(rsp)) && rsp == old(rsp) + CONTEXT_SWITCH_FRAME_SIZE
    {
      r15 := mem[rsp];
      rsp := rsp + 8;
      r14 := mem[rsp];
      rsp := rsp + 8;
      r13 := mem[rsp];
      rsp := rsp + 8;
      r12 := mem[rsp];
      rsp := rsp + 8;
      rbx := mem[rsp];
      rsp := rsp + 8;
      rbp := mem[rsp];
      rsp := rsp + 8;
      rip := mem[rsp];
      rsp := rsp + 8;
    }

    /**
     * `context_switch(&mut cur.rsp, &next.rsp)`, including the return
     * address that the `call` into it pushes: the current task's frame is
     * pushed below the stack pointer, the stack pointer is saved in `cur`,
     * and the next task's frame is popped from its saved stack pointer.
     */
    method ContextSwitch(cur: TaskContext, next: TaskContext)
      requires Valid() && cur != next
      requires rsp % 8 == 0 && CONTEXT_SWITCH_FRAME_SIZE <= rsp <= mem.Length
      requires next.rsp + CONTEXT_SWITCH_FRAME_SIZE <= mem.Length
      modifies this, mem, cur`rsp
      ensures cur.rsp == old(rsp) - CONTEXT_SWITCH_FRAME_SIZE
      ensures mem[..] == StoreFrame(old(mem[..]), cur.rsp, old(Live()))
      ensures Live() == LoadFrame(mem[..], next.rsp) && rsp == next.rsp + CONTEXT_SWITCH_FRAME_SIZE
      ensures threadPointer == old(threadPointer) && pageTableRoot == old(pageTableRoot)
      ensures fpu == old(fpu) && kernelFsBase == old(kernelFsBase)
      ensures trace == old(trace) + [RegistersSwitched]
    {
      PushFrame();
      cur.rsp := rsp;
      rsp := next.rsp;
      PopFrame();
      trace := trace + [RegistersSwitched];
    }

    /**
     * Switching from task `a` to task `b` and straight back restores `a`'s
     * callee-saved registers, instruction pointer and stack pointer exactly,
     * and leaves `b`'s saved frame and stack pointer as they were. The two
     * frames must lie on different stacks.
     */
    method SwitchThereAndBack(a: TaskContext, b: TaskContext)
      requires Valid() && a != b
      requires rsp % 8 == 0 && CONTEXT_SWITCH_FRAME_SIZE <= rsp <= mem.Length
      requires b.rsp % 8 == 0 && b.rsp + CONTEXT_SWITCH_FRAME_SIZE <= mem.Length
      requires b.rsp + CONTEXT_SWITCH_FRAME_SIZE <= rsp - CONTEXT_SWITCH_FRAME_SIZE || rsp <= b.rsp
      modifies this, mem, a`rsp, b`rsp
      ensures Live() == old(Live()) && rsp == old(rsp)
      ensures a.rsp == old(rsp) - CONTEXT_SWITCH_FRAME_SIZE
      ensures b.rsp == old(b.rsp) && LoadFrame(mem[..], b.rsp) == old(LoadFrame(mem[..], b.rsp))
      ensures threadPointer == old(threadPointer) && pageTableRoot == old(pageTableRoot)
      ensures fpu == old(fpu) && kernelFsBase == old(kernelFsBase)
      ensures trace == old(trace) + [RegistersSwitched, RegistersSwitched]
      ensures mem[..] == StoreFrame(old(mem[..]), a.rsp, old(Live()))
    {
      ghost var m0 := mem[..];
      ghost var live := Live();
      ContextSwitch(a, b);
      ghost var m1 := mem[..];
      ghost var bFrame := Live();
      LoadElsewhere(m0, a.rsp, live, b.rsp);
      LoadAfterStore(m0, a.rsp, live);
      ContextSwitch(b, a);
      LoadAfterStore(m1, b.rsp, bFrame);
      LoadElsewhere(m1, b.rsp, bFrame, a.rsp);
      LoadElsewhere(m0, a.rsp, live, b.rsp);
      StoreLoaded(m1, b.rsp);
    }

    method WriteThreadPointer(tp: u64)
      modifies this`threadPointer, this`trace
      ensures threadPointer == tp && trace == old(trace) + [ThreadPointerWritten(tp)]
    {
      threadPointer := tp;
      trace := trace + [ThreadPointerWritten(tp)];
    }

    method WriteUserPageTable(root: u64)
      modifies this`pageTableRoot, this`trace
      ensures pageTableRoot == root && trace == old(trace) + [PageTableWritten(root)]
    {
      pageTableRoot := root;
      trace := trace + [PageTableWritten(root)];
    }

    method DisableIrqs()
      modifies this`trace
      ensures trace == old(trace) + [IrqsDisabled]
    {
      trace := trace + [IrqsDisabled];
    }

    method EnableIrqs()
      modifies this`trace
      ensures trace == old(trace) + [IrqsEnabled]
    {
      trace := trace + [IrqsEnabled];
    }
  }

  /** The steps `switch_to` takes, in order, for the given features. */
  function SwitchSteps(features: Features, rootChanges: bool, nextRoot: u64, nextTp: u64): seq<CpuEvent>
  {
    PrepareSteps(features, rootChanges, nextRoot, nextTp) + [RegistersSwitched]
  }

  /** The steps before the register switch. */
  function PrepareSteps(features: Features, rootChanges: bool, nextRoot: u64, nextTp: u64): seq<CpuEvent>
  {
    (if features.fpSimd then [FpStateSwitched] else [])
    + (if features.tls then [ThreadPointerWritten(nextTp)] else [])
    + (if features.uspace && rootChanges then [PageTableWritten(nextRoot)] else [])
  }

  /**
   * The register switch always comes last, the page table is written only
   * when the root changes, and the steps before it come in the order FP/SIMD
   * state, thread pointer, page table.
   */
  lemma SwitchStepsOrder(features: Features, rootChanges: bool, nextRoot: u64, nextTp: u64)
    ensures var s := SwitchSteps(features, rootChanges, nextRoot, nextTp);
      && |s| >= 1 && s[|s| - 1] == RegistersSwitched
      && (PageTableWritten(nextRoot) in s <==> features.uspace && rootChanges)
      && (features.fpSimd && features.tls ==> s[0] == FpStateSwitched && s[1] == ThreadPointerWritten(nextTp))
      && (features.uspace && rootChanges ==>
            s[|s| - 2] == PageTableWritten(nextRoot)
            && (features.tls ==> s[|s| - 3] == ThreadPointerWritten(nextTp)))
      && (forall i :: 0 <= i < |s| - 1 ==> s[i] != RegistersSwitched)
  {
  }

  /** Saved state of a kernel task. */
  class TaskContext {
    var kstackTop: u64
    /** The stack pointer after the callee-saved registers were pushed. */
    var rsp: u64
    var fsBase: u64
    var extState: ExtendedState
    var cr3: u64

    /** `TaskContext::new()`; `kernelRoot` is what `read_kernel_page_table()` returns. */
    constructor (kernelRoot: u64)
      ensures kstackTop == 0 && rsp == 0 && fsBase == 0
      ensures extState == DefaultExtendedState() && cr3 == kernelRoot
    {
      kstackTop, rsp, fsBase := 0, 0, 0;
      extState := DefaultExtendedState();
      cr3 := kernelRoot;
    }

    /**
     * `init(entry, kstack_top, tls_area)`: one word below the stack top, a
     * `ContextSwitchFrame` whose registers are zero and whose return address
     * is `entry`; the saved stack pointer points at it.
     */
    method Init(entry: u64, top: u64, tlsArea: u64, mem: array<u64>)
      requires top % 8 == 0 && 64 <= top <= mem.Length
      modifies this`rsp, this`kstackTop, this`fsBase, mem
      ensures rsp == top - 64 && kstackTop == top && fsBase == tlsArea
      ensures mem[..] == StoreFrame(old(mem[..]), rsp, InitialFrame(entry))
    {
      var framePtr := top - 8;
      framePtr := framePtr - CONTEXT_SWITCH_FRAME_SIZE;
      WriteFrame(mem, framePtr, InitialFrame(entry));
      rsp := framePtr;
      kstackTop := top;
      fsBase := tlsArea;
    }

    method SetPageTableRoot(root: u64)
      modifies this`cr3
      ensures cr3 == root
    {
      cr3 := root;
    }

    /**
     * `switch_to(next)`: FP/SIMD state, then the thread pointer, then CR3
     * (only when the roots differ), then the register switch.
     */
    method SwitchTo(next: TaskContext, cpu: Cpu, features: Features)
      requires next != this && cpu.Valid()
      requires cpu.rsp % 8 == 0 && CONTEXT_SWITCH_FRAME_SIZE <= cpu.rsp <= cpu.mem.Length
      requires next.rsp + CONTEXT_SWITCH_FRAME_SIZE <= cpu.mem.Length
      modifies this`extState, this`fsBase, this`rsp, cpu, cpu.mem
      ensures features.fpSimd ==> extState == ExtendedState(old(cpu.fpu)) && cpu.fpu == next.extState.fxsaveArea
      ensures !features.fpSimd ==> extState == old(extState) && cpu.fpu == old(cpu.fpu)
      ensures features.tls ==> fsBase == old(cpu.threadPointer) && cpu.threadPointer == next.fsBase
      ensures !features.tls ==> fsBase == old(fsBase) && cpu.threadPointer == old(cpu.threadPointer)
      ensures cpu.pageTableRoot == if features.uspace && next.cr3 != cr3 then next.cr3 else old(cpu.pageTableRoot)
      ensures cpu.trace == old(cpu.trace) + SwitchSteps(features, next.cr3 != cr3, next.cr3, next.fsBase)
      ensures rsp == old(cpu.rsp) - CONTEXT_SWITCH_FRAME_SIZE
      ensures cpu.mem[..] == StoreFrame(old(cpu.mem[..]), rsp, old(cpu.Live()))
      ensures cpu.Live() == LoadFrame(cpu.mem[..], next.rsp) && cpu.rsp == next.rsp + CONTEXT_SWITCH_FRAME_SIZE
      ensures cpu.kernelFsBase == old(cpu.kernelFsBase)
    {
      Prepare(next, cpu, features);
      cpu.ContextSwitch(this, next);
    }

    /** The part of `switch_to` before `context_switch`: FP/SIMD state, thread pointer and CR3. */
    method Prepare(next: TaskContext, cpu: Cpu, features: Features)
      requires next != this
      modifies this`extState, this`fsBase, cpu`fpu, cpu`threadPointer, cpu`pageTableRoot, cpu`trace
      ensures features.fpSimd ==> extState == ExtendedState(old(cpu.fpu)) && cpu.fpu == next.extState.fxsaveArea
      ensures !features.fpSimd ==> extState == old(extState) && cpu.fpu == old(cpu.fpu)
      ensures features.tls ==> fsBase == old(cpu.threadPointer) && cpu.threadPointer == next.fsBase
      ensures !features.tls ==> fsBase == old(fsBase) && cpu.threadPointer == old(cpu.threadPointer)
      ensures cpu.pageTableRoot == if features.uspace && next.cr3 != cr3 then next.cr3 else old(cpu.pageTableRoot)
      ensures cpu.trace == old(cpu.trace) + PrepareSteps(features, next.cr3 != cr3, next.cr3, next.fsBase)
    {
      if features.fpSimd {
        extState := ExtendedState(cpu.fpu);
        cpu.fpu := next.extState.fxsaveArea;
        cpu.trace := cpu.trace + [FpStateSwitched];
      }
      if features.tls {
        fsBase := cpu.threadPointer;
        cpu.WriteThreadPointer(next.fsBase);
      }
      if features.uspace {
        if next.cr3 != cr3 {
          cpu.WriteUserPageTable(next.cr3);
        }
      }
    }
  }

  /** `core::ptr::write` of a whole `ContextSwitchFrame` at byte address `at`. */
  method WriteFrame(mem: array<u64>, at: nat, f: ContextSwitchFrame)
    requires at + CONTEXT_SWITCH_FRAME_SIZE <= mem.Length
    modifies mem
    ensures mem[..] == StoreFrame(old(mem[..]), at, f)
  {
    mem[at] := f.r15;
    mem[at + 8] := f.r14;
    mem[at + 16] := f.r13;
    mem[at + 24] := f.r12;
    mem[at + 32] := f.rbx;
    mem[at + 40] := f.rbp;
    mem[at + 48] := f.rip;
  }

  /** The frame `init` lays down: zeroed callee-saved registers and `entry` as the return address. */
  function InitialFrame(entry: u64): ContextSwitchFrame
  {
    ContextSwitchFrame(0, 0, 0, 0, 0, 0, entry)
  }

  /**
   * What `init` leaves in memory below a stack top: six zero words at the
   * saved stack pointer `top - 64`, `entry` in the word above them, and
   * every other word, including the one at `top - 8`, as it was.
   */
  lemma InitialFrameLayout(mem: seq<u64>, top: nat, entry: u64)
    requires top % 8 == 0 && 64 <= top <= |mem|
    ensures var sp := top - 64;
      var m := StoreFrame(mem, sp, InitialFrame(entry));
      && |m| == |mem|
      && (forall k :: 0 <= k < 6 ==> m[sp + 8 * k] == 0)
      && m[sp + 48] == entry
      && (forall i :: 0 <= i < |mem| && (i < sp || top - 8 <= i) ==> m[i] == mem[i])
  {
    StoreFrameLayout(mem, top - 64, InitialFrame(entry));
  }

  /**
   * The first switch into a task that `init` prepared: `context_switch`
   * pops the zeroed callee-saved registers and returns to `entry` with the
   * stack pointer one word below the stack top, so stack pointer plus 8 is
   * 16-byte aligned exactly when the stack top is. The current task's frame
   * must not be pushed over the new one.
   */
  method EnterInitializedTask(cpu: Cpu, cur: TaskContext, next: TaskContext, entry: u64, top: u64, tlsArea: u64)
    requires cpu.Valid() && cur != next
    requires top % 8 == 0 && 64 <= top <= cpu.mem.Length
    requires cpu.rsp % 8 == 0 && CONTEXT_SWITCH_FRAME_SIZE <= cpu.rsp <= cpu.mem.Length
    requires cpu.rsp <= top - 64 || top - 8 <= cpu.rsp - CONTEXT_SWITCH_FRAME_SIZE
    modifies cpu, cpu.mem, cur`rsp, next`rsp, next`kstackTop, next`fsBase
    ensures cpu.rip == entry && cpu.rsp == top - 8
    ensures cpu.rbx == 0 && cpu.rbp == 0 && cpu.r12 == 0 && cpu.r13 == 0 && cpu.r14 == 0 && cpu.r15 == 0
    ensures (cpu.rsp + 8) % 16 == 0 <==> top % 16 == 0
    ensures next.kstackTop == top && next.fsBase == tlsArea
    ensures cur.rsp == old(cpu.rsp) - CONTEXT_SWITCH_FRAME_SIZE
    ensures LoadFrame(cpu.mem[..], cur.rsp) == old(cpu.Live())
    ensures next.rsp == top - 64
    ensures cpu.threadPointer == old(cpu.threadPointer) && cpu.pageTableRoot == old(cpu.pageTableRoot)
    ensures cpu.fpu == old(cpu.fpu) && cpu.kernelFsBase == old(cpu.kernelFsBase)
    ensures cpu.trace == old(cpu.trace) + [RegistersSwitched]
    ensures cpu.mem[..] == StoreFrame(StoreFrame(old(cpu.mem[..]), top - 64, InitialFrame(entry)), cur.rsp, old(cpu.Live()))
  {
    next.Init(entry, top, tlsArea, cpu.mem);
    ghost var m1 := cpu.mem[..];
    LoadAfterStore(old(cpu.mem[..]), top - 64, InitialFrame(entry));
    cpu.ContextSwitch(cur, next);
    LoadElsewhere(m1, cur.rsp, old(cpu.Live()), top - 64);
    LoadAfterStore(m1, cur.rsp, old(cpu.Live()));
  }
}
