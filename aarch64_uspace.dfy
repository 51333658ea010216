/**
 * The aarch64 user contexts (src/aarch64/uspace.rs): the constructors of
 * `UspaceContext` and `UserContext`, the frame layout that `enter_uspace`
 * loads from, and the classification of the trap that ends `run`.
 */
module AArch64Uspace {
  import opened Types
  import opened Trap

  /** The 31 general-purpose registers x0..x30. */
  type Gprs = s: seq<u64> | |s| == 31 witness seq(31, _ => 0)

  /** The aarch64 trap frame: x0..x30, then `sp_el0`, `tpidr_el0`, `elr_el1` and `spsr_el1`. */
  datatype TrapFrame = TrapFrame(r: Gprs, usp: u64, tpidr: u64, elr: u64, spsr: u64)

  /** The number of 64-bit words of a `TrapFrame` in memory. */
  const FRAME_WORDS: nat := 35

  /** The frame as it lies in memory (`#[repr(C)]`): x0..x30 in words 0-30, then usp, tpidr, elr, spsr. */
  function FrameWords(tf: TrapFrame): (w: seq<u64>)
    ensures |w| == FRAME_WORDS
    ensures forall i :: 0 <= i < 31 ==> w[i] == tf.r[i]
    ensures w[31] == tf.usp && w[32] == tf.tpidr && w[33] == tf.elr && w[34] == tf.spsr
  {
    tf.r + [tf.usp, tf.tpidr, tf.elr, tf.spsr]
  }

  /** Two frames with the same words in memory are the same frame. */
  lemma FrameWordsInjective(a: TrapFrame, b: TrapFrame)
    requires FrameWords(a) == FrameWords(b)
    ensures a == b
  {
    assert a.r == FrameWords(a)[..31];
    assert b.r == FrameWords(b)[..31];
  }

  // SPSR_EL1 fields: the mode M[3:0] and the D, A, I and F mask bits 9, 8, 7 and 6.
  const SPSR_M_EL0T: u64 := 0
  const SPSR_D_MASKED: u64 := 0x200
  const SPSR_A_MASKED: u64 := 0x100
  const SPSR_I_MASKED: u64 := 0x80
  const SPSR_F_MASKED: u64 := 0x40

  /** Bit `n` of `x`, for the SPSR bit positions below 16. */
  function Bit(x: u64, n: nat): bool
    requires n < 16
  {
    (x / Pow2(n)) % 2 == 1
  }

  /** `1 << n` for the SPSR bit positions. */
  function Pow2(n: nat): (p: nat)
    requires n < 16
    ensures p >= 1
  {
    [1, 2, 4, 8, 16, 32, 64, 128, 256, 512, 1024, 2048, 4096, 8192, 16384, 32768][n]
  }

  /** `M::EL0t + D::Masked + A::Masked + I::Unmasked + F::Masked`: the fields are disjoint, so their values add. */
  const USER_SPSR: u64 := SPSR_M_EL0T + SPSR_D_MASKED + SPSR_A_MASKED + SPSR_F_MASKED

  /** The user SPSR returns to EL0 on SP_EL0 with IRQs unmasked and debug, SError and FIQ masked. */
  lemma UserSpsrFields()
    ensures USER_SPSR == 0x340
    ensures USER_SPSR % 16 == 0
    ensures Bit(USER_SPSR, 9) && Bit(USER_SPSR, 8) && !Bit(USER_SPSR, 7) && Bit(USER_SPSR, 6)
  {
  }

  /** Context to enter user space through `enter_uspace`. */
  datatype UspaceContext = UspaceContext(tf: TrapFrame)

  /** `UspaceContext::empty()`: every word zero. */
  function UspaceEmpty(): (c: UspaceContext)
    ensures FrameWords(c.tf) == seq(FRAME_WORDS, _ => 0)
  {
    UspaceContext(TrapFrame(seq(31, _ => 0), 0, 0, 0, 0))
  }

  /** `UspaceContext::new(entry, ustack_top, arg0)`. */
  function UspaceNew(entry: u64, ustackTop: u64, arg0: u64): (c: UspaceContext)
    ensures c.tf.r[0] == arg0 && forall i :: 1 <= i < 31 ==> c.tf.r[i] == 0
    ensures c.tf.usp == ustackTop && c.tf.tpidr == 0 && c.tf.elr == entry
    ensures c.tf.spsr == USER_SPSR
  {
    UspaceContext(TrapFrame(seq(31, i => if i == 0 then arg0 else 0), ustackTop, 0, entry, USER_SPSR))
  }

  /** `UspaceContext::from(&tf)`: a verbatim copy. */
  function UspaceFrom(tf: TrapFrame): (c: UspaceContext)
    ensures FrameWords(c.tf) == FrameWords(tf)
  {
    UspaceContext(tf)
  }

  /** The registers `enter_uspace` touches: x0..x30, sp and the system registers. */
  datatype Cpu = Cpu(
    x: Gprs,
    sp: u64,
    spEl0: u64,
    tpidrEl0: u64,
    tpidrroEl0: u64,
    elrEl1: u64,
    spsrEl1: u64,
    irqsMasked: bool)

  /** The instructions of `enter_uspace` before `eret`; registers are numbered 0..30. */
  datatype Insn =
    | MovSp(src: nat)                                 // mov   sp, xN
    | MrsTpidr(dst: nat)                              // mrs   xN, tpidr_el0
    | MsrTpidrro(src: nat)                            // msr   tpidrro_el0, xN
    | MsrSpEl0(src: nat)                              // msr   sp_el0, xN
    | MsrTpidr(src: nat)                              // msr   tpidr_el0, xN
    | MsrElr(src: nat)                                // msr   elr_el1, xN
    | MsrSpsr(src: nat)                               // msr   spsr_el1, xN
    | Ldr(t: nat, base: nat, words: nat)              // ldr   xT, [xB, words * 8]
    | Ldp(t1: nat, t2: nat, base: nat, words: nat)    // ldp   xT1, xT2, [xB, words * 8]

  /** A list of instructions. */
  datatype Prog = Halt | Then(head: Insn, tail: Prog)

  /** The word at byte address `addr` of a word-addressed memory. */
  function Load(mem: seq<u64>, addr: int): u64
  {
    if addr >= 0 && addr % 8 == 0 && addr / 8 < |mem| then mem[addr / 8] else 0
  }

  /** Register `n`, reading 0 for a number outside x0..x30. */
  function Reg(c: Cpu, n: nat): u64
  {
    if n < 31 then c.x[n] else 0
  }

  function SetReg(c: Cpu, n: nat, v: u64): Cpu
  {
    if n < 31 then c.(x := c.x[n := v]) else c
  }

  /** One instruction; a load computes its address from the base register before writing any target. */
  function Step(i: Insn, mem: seq<u64>, c: Cpu): Cpu
  {
    match i
    case MovSp(n) => c.(sp := Reg(c, n))
    case MrsTpidr(n) => SetReg(c, n, c.tpidrEl0)
    case MsrTpidrro(n) => c.(tpidrroEl0 := Reg(c, n))
    case MsrSpEl0(n) => c.(spEl0 := Reg(c, n))
    case MsrTpidr(n) => c.(tpidrEl0 := Reg(c, n))
    case MsrElr(n) => c.(elrEl1 := Reg(c, n))
    case MsrSpsr(n) => c.(spsrEl1 := Reg(c, n))
    case Ldr(t, b, k) => SetReg(c, t, Load(mem, Reg(c, b) + 8 * k))
    case Ldp(t1, t2, b, k) =>
      var a := Reg(c, b) + 8 * k;
      SetReg(SetReg(c, t1, Load(mem, a)), t2, Load(mem, a + 8))
  }

  function Exec(p: Prog, mem: seq<u64>, c: Cpu): Cpu
  {
    match p
    case Halt => c
    case Then(i, rest) => Exec(rest, mem, Step(i, mem, c))
  }

  /** `ldp x(2j), x(2j+1), [x0, 2j * 8]` for j down to 0: the pair loads of x0..x29, x0/x1 last. */
  function PairLoads(j: nat): Prog
    decreases j
  {
    Then(Ldp(2 * j, 2 * j + 1, 0, 2 * j), if j == 0 then Halt else PairLoads(j - 1))
  }

  /** The general-register reloads: x30 first, then the pairs from x28/x29 down to x0/x1, so that the base x0 is overwritten only by the final load. */
  const GPR_LOADS: Prog := Then(Ldr(30, 0, 30), PairLoads(14))

  /** The kernel stack switch, the tpidr_el0 backup and the system-register loads (through x9..x12). */
  const SYSTEM_LOADS: Prog :=
    Then(MovSp(1),
    Then(MrsTpidr(1), Then(MsrTpidrro(1),
    Then(Ldp(11, 12, 0, 33), Then(Ldp(9, 10, 0, 31),
    Then(MsrSpEl0(9), Then(MsrTpidr(10), Then(MsrElr(11), Then(MsrSpsr(12), Halt)))))))))

  /**
   * `enter_uspace(kstack_top)` up to `eret`: interrupts are disabled, x0
   * holds the frame's address and x1 the kernel stack top, and the two
   * load sequences run.
   */
  function EnterUspace(frameAddr: u64, kstackTop: u64, mem: seq<u64>, c: Cpu): (d: Cpu)
    ensures d.irqsMasked
  {
    var c0 := c.(x := c.x[0 := frameAddr][1 := kstackTop], irqsMasked := true);
    ExecKeepsIrqMask(SYSTEM_LOADS, mem, c0);
    ExecKeepsIrqMask(GPR_LOADS, mem, Exec(SYSTEM_LOADS, mem, c0));
    Exec(GPR_LOADS, mem, Exec(SYSTEM_LOADS, mem, c0))
  }

  /** No instruction before `eret` touches the interrupt mask. */
  lemma {:induction false} ExecKeepsIrqMask(p: Prog, mem: seq<u64>, c: Cpu)
    ensures Exec(p, mem, c).irqsMasked == c.irqsMasked
    decreases p
  {
    match p
    case Halt =>
    case Then(i, rest) =>
      ExecKeepsIrqMask(rest, mem, Step(i, mem, c));
  }

  /** The frame lies at byte address `addr` of `mem`. */
  ghost predicate FrameAt(mem: seq<u64>, addr: u64, tf: TrapFrame)
  {
    addr % 8 == 0 && addr / 8 + FRAME_WORDS <= |mem| && mem[addr / 8 .. addr / 8 + FRAME_WORDS] == FrameWords(tf)
  }

  lemma FrameAtWord(mem: seq<u64>, addr: u64, tf: TrapFrame, k: nat)
    requires FrameAt(mem, addr, tf) && k < FRAME_WORDS
    ensures Load(mem, addr + 8 * k) == FrameWords(tf)[k]
  {
    assert (addr + 8 * k) / 8 == addr / 8 + k;
    assert mem[addr / 8 .. addr / 8 + FRAME_WORDS][k] == mem[addr / 8 + k];
  }

  /** After the system-register loads: the kernel stack, the saved kernel tpidr_el0, and the user system registers. */
  lemma SystemLoadsEffect(frameAddr: u64, kstackTop: u64, mem: seq<u64>, c: Cpu, tf: TrapFrame)
    requires FrameAt(mem, frameAddr, tf)
    requires c.x[0] == frameAddr && c.x[1] == kstackTop
    ensures var d := Exec(SYSTEM_LOADS, mem, c);
      && d.x[0] == frameAddr && d.sp == kstackTop && d.tpidrroEl0 == c.tpidrEl0
      && d.spEl0 == tf.usp && d.tpidrEl0 == tf.tpidr && d.elrEl1 == tf.elr && d.spsrEl1 == tf.spsr
      && d.irqsMasked == c.irqsMasked
  {
    FrameAtWord(mem, frameAddr, tf, 31);
    FrameAtWord(mem, frameAddr, tf, 32);
    FrameAtWord(mem, frameAddr, tf, 33);
    FrameAtWord(mem, frameAddr, tf, 34);
    var p := SYSTEM_LOADS;
    var s := c;
    assert Exec(p, mem, s) == Exec(p.tail, mem, Step(p.head, mem, s));
    s, p := Step(p.head, mem, s), p.tail;
    assert Exec(p, mem, s) == Exec(p.tail, mem, Step(p.head, mem, s));
    s, p := Step(p.head, mem, s), p.tail;
    assert Exec(p, mem, s) == Exec(p.tail, mem, Step(p.head, mem, s));
    s, p := Step(p.head, mem, s), p.tail;
    assert Exec(p, mem, s) == Exec(p.tail, mem, Step(p.head, mem, s));
    s, p := Step(p.head, mem, s), p.tail;
    assert Exec(p, mem, s) == Exec(p.tail, mem, Step(p.head, mem, s));
    s, p := Step(p.head, mem, s), p.tail;
    assert Exec(p, mem, s) == Exec(p.tail, mem, Step(p.head, mem, s));
    s, p := Step(p.head, mem, s), p.tail;
    assert Exec(p, mem, s) == Exec(p.tail, mem, Step(p.head, mem, s));
    s, p := Step(p.head, mem, s), p.tail;
    assert Exec(p, mem, s) == Exec(p.tail, mem, Step(p.head, mem, s));
    s, p := Step(p.head, mem, s), p.tail;
    assert Exec(p, mem, s) == Exec(p.tail, mem, Step(p.head, mem, s));
    s, p := Step(p.head, mem, s), p.tail;
    assert p == Halt;
  }

  /** The pair loads fill x0..x(2j+1) from the frame, given that the registers above are already loaded and x0 still holds the frame's address. */
  lemma {:induction false} PairLoadsEffect(j: nat, frameAddr: u64, mem: seq<u64>, c: Cpu, tf: TrapFrame)
    requires j < 15 && FrameAt(mem, frameAddr, tf)
    requires c.x[0] == frameAddr
    requires forall i :: 2 * j + 2 <= i < 31 ==> c.x[i] == tf.r[i]
    ensures Exec(PairLoads(j), mem, c) == c.(x := tf.r)
    decreases j
  {
    var c1 := Step(Ldp(2 * j, 2 * j + 1, 0, 2 * j), mem, c);
    LoadPair(j, frameAddr, mem, c, tf);
    assert forall i :: 2 * j <= i < 31 ==> c1.x[i] == tf.r[i];
    if j == 0 {
      assert c1.x == tf.r;
    } else {
      assert c1.x[0] == frameAddr;
      PairLoadsEffect(j - 1, frameAddr, mem, c1, tf);
    }
  }

  /** One pair load: x(2j) and x(2j+1) get their frame words, and nothing else changes. */
  lemma LoadPair(j: nat, frameAddr: u64, mem: seq<u64>, c: Cpu, tf: TrapFrame)
    requires j < 15 && FrameAt(mem, frameAddr, tf)
    requires c.x[0] == frameAddr
    ensures Step(Ldp(2 * j, 2 * j + 1, 0, 2 * j), mem, c)
         == c.(x := c.x[2 * j := tf.r[2 * j]][2 * j + 1 := tf.r[2 * j + 1]])
  {
    FrameAtWord(mem, frameAddr, tf, 2 * j);
    FrameAtWord(mem, frameAddr, tf, 2 * j + 1);
  }

  /** After the general-register loads: x0..x30 hold the frame, and no system register changed. */
  lemma GprLoadsEffect(frameAddr: u64, mem: seq<u64>, c: Cpu, tf: TrapFrame)
    requires FrameAt(mem, frameAddr, tf)
    requires c.x[0] == frameAddr
    ensures Exec(GPR_LOADS, mem, c) == c.(x := tf.r)
  {
    FrameAtWord(mem, frameAddr, tf, 30);
    var c1 := Step(Ldr(30, 0, 30), mem, c);
    PairLoadsEffect(14, frameAddr, mem, c1, tf);
  }

  /**
   * `enter_uspace` restores the whole frame: the user registers x0..x30,
   * sp_el0, tpidr_el0, elr_el1 and spsr_el1 are those of the context; sp
   * is the kernel stack top; the kernel's tpidr_el0 is kept in
   * tpidrro_el0; and interrupts are disabled until `eret`.
   */
  lemma EnterUspaceRestoresFrame(ctx: UspaceContext, frameAddr: u64, kstackTop: u64, mem: seq<u64>, c: Cpu)
    requires FrameAt(mem, frameAddr, ctx.tf)
    ensures var d := EnterUspace(frameAddr, kstackTop, mem, c);
      && d.x == ctx.tf.r && d.spEl0 == ctx.tf.usp && d.tpidrEl0 == ctx.tf.tpidr
      && d.elrEl1 == ctx.tf.elr && d.spsrEl1 == ctx.tf.spsr
      && d.sp == kstackTop && d.tpidrroEl0 == c.tpidrEl0 && d.irqsMasked
  {
    var c0 := c.(x := c.x[0 := frameAddr][1 := kstackTop], irqsMasked := true);
    SystemLoadsEffect(frameAddr, kstackTop, mem, c0, ctx.tf);
    GprLoadsEffect(frameAddr, mem, Exec(SYSTEM_LOADS, mem, c0), ctx.tf);
  }

  /** A context from `UspaceContext::new` starts at `entry` in EL0 on the user stack, with `arg0` in x0. */
  lemma EnterNewContext(entry: u64, ustackTop: u64, arg0: u64, frameAddr: u64, kstackTop: u64, mem: seq<u64>, c: Cpu)
    requires FrameAt(mem, frameAddr, UspaceNew(entry, ustackTop, arg0).tf)
    ensures var d := EnterUspace(frameAddr, kstackTop, mem, c);
      && d.x[0] == arg0 && d.elrEl1 == entry && d.spEl0 == ustackTop && d.tpidrEl0 == 0
      && d.spsrEl1 % 16 == 0 && !Bit(d.spsrEl1, 7)
  {
    EnterUspaceRestoresFrame(UspaceNew(entry, ustackTop, arg0), frameAddr, kstackTop, mem, c);
    UserSpsrFields();
  }

  /** Information about an exception taken in user space. */
  datatype ExceptionInfo = ExceptionInfo(stval: u64)
  {
    /** `ExceptionInfo::kind`: the syndrome is not decoded, so every exception is `Other`. */
    function Kind(): (k: ExceptionKind)
      ensures k == Other
    {
      Other
    }
  }

  /** The context `run` enters through `task_in`, with the saved `sp_el1`. */
  datatype UserContext = UserContext(tf: TrapFrame, spEl1: u64)

  /** `UserContext::from(tf)`: the frame unchanged, `sp_el1` zero. */
  function UserFrom(tf: TrapFrame): (c: UserContext)
    ensures FrameWords(c.tf) == FrameWords(tf) && c.spEl1 == 0
  {
    UserContext(tf, 0)
  }

  /** `UserContext::new(entry, ustack_top, _arg0)`: the argument is dropped; only usp and elr are non-zero. */
  function UserNew(entry: u64, ustackTop: u64, arg0: u64): (c: UserContext)
    ensures forall i :: 0 <= i < 31 ==> c.tf.r[i] == 0
    ensures c.tf.usp == ustackTop && c.tf.elr == entry
    ensures c.tf.tpidr == 0 && c.tf.spsr == 0 && c.spEl1 == 0
  {
    UserContext(TrapFrame(seq(31, _ => 0), ustackTop, 0, entry, 0), 0)
  }

  /**
   * The two constructors agree on the entry point and the user stack, but
   * `UserContext::new` does not pass `arg0` and leaves every exception
   * class unmasked in SPSR.
   */
  lemma UserNewAgainstUspaceNew(entry: u64, ustackTop: u64, arg0: u64)
    ensures var u := UserNew(entry, ustackTop, arg0).tf;
      var s := UspaceNew(entry, ustackTop, arg0).tf;
      && u.usp == s.usp && u.elr == s.elr && u.tpidr == s.tpidr
      && (u.r == s.r <==> arg0 == 0)
      && u.spsr != s.spsr
  {
    var u := UserNew(entry, ustackTop, arg0).tf;
    var s := UspaceNew(entry, ustackTop, arg0).tf;
    if arg0 != 0 {
      assert u.r[0] != s.r[0];
    } else {
      assert u.r == s.r;
    }
  }

  /** The exception class ESR_EL1[31:26]. */
  function Ec(esr: bv32): bv32
  {
    (esr >> 26) & 0x3f
  }

  /** The instruction-specific syndrome ESR_EL1[24:0]. */
  function Iss(esr: bv32): bv32
  {
    esr & 0x01ff_ffff
  }

  const EC_SVC64: bv32 := 0x15
  const EC_INSTRUCTION_ABORT_LOWER: bv32 := 0x20

  /**
   * `run` after `task_in` returns, by the syndrome read from ESR_EL1: an
   * SVC is a syscall, an instruction abort from EL0 is fatal (reported with
   * its ISS), and any other class is `Unknown`.
   */
  function ClassifyEsr(esr: bv32): (o: RunOutcome<ExceptionInfo>)
    ensures o == Returned(Syscall) <==> Ec(esr) == EC_SVC64
    ensures o.Fatal? <==> Ec(esr) == EC_INSTRUCTION_ABORT_LOWER
    ensures o.Fatal? ==> o.code == Iss(esr) as int
    ensures o.Returned? ==> o.reason.Syscall? || o.reason.Unknown?
  {
    var ec := Ec(esr);
    if ec == EC_SVC64 then Returned(Syscall)
    else if ec == EC_INSTRUCTION_ABORT_LOWER then Fatal(Iss(esr) as int)
    else Returned(Unknown)
  }

  /** The classes by value: ESR values 0x5400_0000..0x57ff_ffff are SVCs and 0x8000_0000..0x83ff_ffff instruction aborts. */
  lemma EcByValue(esr: bv32)
    ensures Ec(esr) == EC_SVC64 <==> 0x5400_0000 <= esr < 0x5800_0000
    ensures Ec(esr) == EC_INSTRUCTION_ABORT_LOWER <==> 0x8000_0000 <= esr < 0x8400_0000
  {
  }

  /** The ISS is the low 25 bits: bit 25 (IL) and the class do not reach the reported code. */
  lemma IssIgnoresHighBits(e1: bv32, e2: bv32)
    requires e1 & 0x01ff_ffff == e2 & 0x01ff_ffff
    ensures Iss(e1) == Iss(e2) && Iss(e1) < 0x0200_0000
  {
  }
}
