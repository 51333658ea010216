/**
 * The x86_64 kernel trap handler (src/x86_64/trap.rs): decoding the
 * page-fault error code and dispatching a trap frame by vector.
 */
module X86Trap {
  import opened Types
  import opened X86Context
  import opened Trap

  const LEGACY_SYSCALL_VECTOR: u8 := 0x80
  const IRQ_VECTOR_START: u8 := 0x20
  const IRQ_VECTOR_END: u8 := 0xff

  /** The architectural exception vectors the handler distinguishes. */
  const DEBUG_VECTOR: u8 := 1
  const BREAKPOINT_VECTOR: u8 := 3
  const GENERAL_PROTECTION_FAULT_VECTOR: u8 := 13
  const PAGE_FAULT_VECTOR: u8 := 14

  /** Bits of the x86 page-fault error code (`PageFaultErrorCode`). */
  const PROTECTION_VIOLATION: bv64 := 0x1
  const CAUSED_BY_WRITE: bv64 := 0x2
  const USER_MODE: bv64 := 0x4
  const INSTRUCTION_FETCH: bv64 := 0x10

  /** The four error-code bits a page fault may carry; every other known bit is reserved. */
  const UNDERSTOOD_BITS: bv64 := 0x17

  lemma UnderstoodBitsAreTheFour()
    ensures UNDERSTOOD_BITS == PROTECTION_VIOLATION | CAUSED_BY_WRITE | USER_MODE | INSTRUCTION_FETCH
  {
  }

  /**
   * The flags a page fault with these error-code bits reports: write or
   * else read, plus user and execute when their bits are set.
   */
  function AccessFlagsOf(write: bool, user: bool, fetch: bool): set<AccessFlag>
  {
    (if write then {Write} else {Read})
      + (if user then {User} else {})
      + (if fetch then {Execute} else {})
  }

  /** Exactly one of read and write, and user and execute as their bits say. */
  lemma AccessFlagsOfMeaning(write: bool, user: bool, fetch: bool)
    ensures var flags := AccessFlagsOf(write, user, fetch);
      && (Write in flags <==> write)
      && (Read in flags <==> !write)
      && (User in flags <==> user)
      && (Execute in flags <==> fetch)
  {
  }

  /** `code.intersects(reserved_bits)`: a known bit other than the four understood ones is set. */
  predicate HasReservedBit(code: bv64, defined: bv64)
  {
    code & (!UNDERSTOOD_BITS & defined) != 0
  }

  predicate HasBit(code: bv64, bit: bv64)
  {
    code & bit != 0
  }

  /**
   * The access a page-fault error code describes. `defined` is the set of
   * bits `PageFaultErrorCode` knows: bits outside it are dropped, and a
   * known bit outside `UNDERSTOOD_BITS` rejects the whole code, which is
   * returned unchanged.
   */
  function PageFaultAccess(errCode: bv64, defined: bv64): (r: Result<set<AccessFlag>, bv64>)
    ensures r.Err? <==> HasReservedBit(errCode & defined, defined)
    ensures r.Err? ==> r.error == errCode
    ensures r.Ok? ==> (Read in r.value <==> Write !in r.value) && r.value <= {Read, Write, User, Execute}
  {
    var code := errCode & defined;  // `from_bits_truncate`
    if HasReservedBit(code, defined) then Err(errCode)
    else Ok(AccessFlagsOf(HasBit(code, CAUSED_BY_WRITE), HasBit(code, USER_MODE), HasBit(code, INSTRUCTION_FETCH)))
  }

  /** `err_code_to_flags(tf.error_code)` on the saved 64-bit error code. */
  function ErrorCodeAccess(code: u64, defined: bv64): Result<set<AccessFlag>, bv64>
  {
    PageFaultAccess(code as bv64, defined)
  }

  /**
   * What `PageFaultAccess` promises when the four understood bits are
   * known: the code is rejected exactly when it carries another known bit;
   * otherwise exactly one of read and write is reported, and user and
   * execute follow their bits (so the protection-violation bit plays no
   * part).
   */
  lemma PageFaultAccessMeaning(errCode: bv64, defined: bv64)
    requires defined & UNDERSTOOD_BITS == UNDERSTOOD_BITS
    ensures var r := PageFaultAccess(errCode, defined);
      && (r.Err? <==> HasReservedBit(errCode, defined))
      && (r.Err? ==> r.error == errCode)
      && (r.Ok? ==> ((Write in r.value <==> HasBit(errCode, CAUSED_BY_WRITE))
                 && (Read in r.value <==> Write !in r.value)
                 && (User in r.value <==> HasBit(errCode, USER_MODE))
                 && (Execute in r.value <==> HasBit(errCode, INSTRUCTION_FETCH))))
  {
    var code := errCode & defined;
    UnderstoodBitsKnown(defined);
    KnownBitSurvives(errCode, defined, CAUSED_BY_WRITE);
    KnownBitSurvives(errCode, defined, USER_MODE);
    KnownBitSurvives(errCode, defined, INSTRUCTION_FETCH);
    ReservedBitsSurvive(errCode, defined);
    AccessFlagsOfMeaning(HasBit(code, CAUSED_BY_WRITE), HasBit(code, USER_MODE), HasBit(code, INSTRUCTION_FETCH));
  }

  lemma UnderstoodBitsKnown(defined: bv64)
    requires defined & UNDERSTOOD_BITS == UNDERSTOOD_BITS
    ensures defined & CAUSED_BY_WRITE == CAUSED_BY_WRITE
    ensures defined & USER_MODE == USER_MODE
    ensures defined & INSTRUCTION_FETCH == INSTRUCTION_FETCH
  {
  }

  /** Truncating to the known bits keeps every bit of a known mask. */
  lemma KnownBitSurvives(e: bv64, defined: bv64, mask: bv64)
    requires defined & mask == mask
    ensures HasBit((e & defined), mask) == HasBit(e, mask)
  {
    assert (e & defined) & mask == e & mask;
  }

  /** Truncation never hides a reserved bit, since reserved bits are known ones. */
  lemma ReservedBitsSurvive(e: bv64, defined: bv64)
    ensures HasReservedBit((e & defined), defined) == HasReservedBit(e, defined)
  {
    TruncateUnderMask(e, defined, !UNDERSTOOD_BITS);
  }

  lemma TruncateUnderMask(e: bv64, defined: bv64, mask: bv64)
    ensures (e & defined) & (mask & defined) == e & (mask & defined)
  {
  }

  /** Bits the error-code type does not know never change the decoded flags. */
  lemma PageFaultAccessIgnoresUnknownBits(e1: bv64, e2: bv64, defined: bv64)
    requires e1 & defined == e2 & defined
    ensures PageFaultAccess(e1, defined).Ok? == PageFaultAccess(e2, defined).Ok?
    ensures PageFaultAccess(e1, defined).Ok? ==> PageFaultAccess(e1, defined) == PageFaultAccess(e2, defined)
  {
  }

  /**
   * `err_code_to_flags`: accumulates the flags one bit at a time, and
   * computes exactly `PageFaultAccess`.
   */
  method ErrCodeToFlags(errCode: bv64, defined: bv64) returns (r: Result<set<AccessFlag>, bv64>)
    ensures r == PageFaultAccess(errCode, defined)
  {
    var code := errCode & defined;
    if HasReservedBit(code, defined) {
      return Err(errCode);
    }
    var flags: set<AccessFlag> := {};
    if Contains(code, CAUSED_BY_WRITE) {
      flags := flags + {Write};
    } else {
      flags := flags + {Read};
    }
    if Contains(code, USER_MODE) {
      flags := flags + {User};
    }
    if Contains(code, INSTRUCTION_FETCH) {
      flags := flags + {Execute};
    }
    assert flags == AccessFlagsOf(HasBit(code, CAUSED_BY_WRITE), HasBit(code, USER_MODE), HasBit(code, INSTRUCTION_FETCH));
    return Ok(flags);
  }

  /** `code.contains(bit)` for a single-bit mask: the bit is set. */
  function Contains(code: bv64, bit: bv64): (b: bool)
    requires bit == CAUSED_BY_WRITE || bit == USER_MODE || bit == INSTRUCTION_FETCH
    ensures b == HasBit(code, bit)
  {
    code & bit == bit
  }

  /** `vec_to_str`: the mnemonic of an architectural exception, `"Unknown"` past vector 31. */
  function VecToStr(vec: u64, mnemonics: seq<string>): (s: string)
    requires |mnemonics| == 32
    ensures vec < 32 ==> s == mnemonics[vec]
    ensures vec >= 32 ==> s == "Unknown"
  {
    if vec < 32 then mnemonics[vec] else "Unknown"
  }

  /** Why the kernel panics on a trap. */
  datatype PanicCause =
    | InvalidErrorCode(code: bv64)
    | UnhandledPageFault(rip: u64, vaddr: u64, errorCode: u64, flags: set<AccessFlag>)
    | GeneralProtection(rip: u64, errorCode: u64)
    | UnhandledException(vector: u64, mnemonic: string, errorCode: u64, rip: u64)

  /** The handler returns to the interrupted code, or panics. */
  datatype TrapOutcome = Resumed | Panic(cause: PanicCause)

  /** A call into a registered handler, with its arguments. */
  datatype HandlerCall =
    | PageFaultCall(vaddr: u64, flags: set<AccessFlag>)
    | BreakpointCall
    | DebugCall
    | IrqCall(vector: u64)

  /**
   * What the handler sees besides the frame: the enabled features, the
   * faulting address in `cr2`, the bits `PageFaultErrorCode` knows, the
   * registered handler slots and the mnemonic table of the 32
   * architectural exceptions.
   */
  datatype TrapEnv = TrapEnv(
    features: Features,
    cr2: u64,
    definedErrorBits: bv64,
    pageFault: seq<((u64, set<AccessFlag>)) -> bool>,
    breakpoint: seq<((Registers, u64)) -> bool>,
    debug: seq<Registers -> bool>,
    irq: seq<u64 -> bool>,
    mnemonics: seq<string>)

  /** The call `handle_trap!` makes on `slot`, if any handler is registered. */
  function CallIf<A>(slot: seq<A -> bool>, args: A, call: HandlerCall): (c: seq<HandlerCall>)
    ensures c == [] <==> HandleTrap(slot, args).invoked == []
    ensures |c| <= 1 && (c != [] ==> c[0] == call)
  {
    if |slot| == 0 then [] else [call]
  }

  /**
   * What `handle_page_fault` does to a frame `before`, leaving `after`: an
   * invalid error code panics before any handler is consulted; a
   * registered page-fault handler that accepts the fault resumes; otherwise,
   * with `uspace`, an exception-table fixup resumes at its landing address,
   * and anything else panics with rip, cr2, the error code and the flags.
   */
  ghost predicate PageFaultHandled(env: TrapEnv, table: seq<ExceptionTableEntry>, before: Registers, after: Registers,
                             o: TrapOutcome, calls: seq<HandlerCall>)
  {
    match ErrorCodeAccess(before.errorCode, env.definedErrorBits)
    case Err(e) => o == Panic(InvalidErrorCode(e)) && calls == [] && after == before
    case Ok(flags) =>
      && calls == CallIf(env.pageFault, (env.cr2, flags), PageFaultCall(env.cr2, flags))
      && if HandleTrap(env.pageFault, (env.cr2, flags)).handled then
           o == Resumed && after == before
         else if env.features.uspace && HasFixup(table, before.rip) then
           o == Resumed && FixedUp(table, before, after)
         else
           o == Panic(UnhandledPageFault(before.rip, env.cr2, before.errorCode, flags)) && after == before
  }

  /** With no handler registered and without `uspace`, every page fault panics and leaves the frame alone. */
  lemma UnhandledPageFaultPanics(env: TrapEnv, table: seq<ExceptionTableEntry>, before: Registers, after: Registers,
                                 o: TrapOutcome, calls: seq<HandlerCall>)
    requires PageFaultHandled(env, table, before, after, o, calls)
    requires |env.pageFault| == 0 && !env.features.uspace
    ensures o.Panic? && after == before && calls == []
    ensures o.cause.UnhandledPageFault? <==> ErrorCodeAccess(before.errorCode, env.definedErrorBits).Ok?
  {
    match ErrorCodeAccess(before.errorCode, env.definedErrorBits)
    case Err(e) =>
    case Ok(flags) =>
      assert !HandleTrap(env.pageFault, (env.cr2, flags)).handled;
  }

  /** `handle_page_fault`, with `PageFaultHandled` as its specification. */
  method HandlePageFault(tf: TrapFrame, env: TrapEnv, table: array<ExceptionTableEntry>)
    returns (o: TrapOutcome, calls: seq<HandlerCall>)
    requires SortedByFrom(table[..])
    modifies tf
    ensures PageFaultHandled(env, table[..], old(tf.regs), tf.regs, o, calls)
  {
    var access := ErrCodeToFlags(tf.regs.errorCode as bv64, env.definedErrorBits);
    if access.Err? {
      return Panic(InvalidErrorCode(access.error)), [];
    }
    var flags := access.value;
    calls := CallIf(env.pageFault, (env.cr2, flags), PageFaultCall(env.cr2, flags));
    if HandleTrap(env.pageFault, (env.cr2, flags)).handled {
      return Resumed, calls;
    }
    if env.features.uspace {
      var fixed := FixupException(tf, table);
      if fixed {
        return Resumed, calls;
      }
    }
    o := Panic(UnhandledPageFault(tf.regs.rip, env.cr2, tf.regs.errorCode, flags));
  }

  /** `handle_breakpoint`: calls the breakpoint handler and resumes whatever it answers. */
  function HandleBreakpoint(regs: Registers, env: TrapEnv): (r: (TrapOutcome, seq<HandlerCall>))
    ensures r.0 == Resumed
    ensures r.1 == CallIf(env.breakpoint, (regs, 0), BreakpointCall)
  {
    (Resumed, CallIf(env.breakpoint, (regs, 0), BreakpointCall))
  }

  /** `handle_debug`: calls the debug handler and resumes whatever it answers. */
  function HandleDebug(regs: Registers, env: TrapEnv): (r: (TrapOutcome, seq<HandlerCall>))
    ensures r.0 == Resumed
    ensures r.1 == CallIf(env.debug, regs, DebugCall)
  {
    (Resumed, CallIf(env.debug, regs, DebugCall))
  }

  /**
   * `x86_trap_handler`: dispatches on the low byte of the vector. Page
   * faults go to `HandlePageFault`; debug and breakpoint traps always
   * resume; a general-protection fault panics; vectors 0x20 to 0xff go
   * to the IRQ handler and resume; any other vector panics with its
   * mnemonic. Handlers are pure functions here, so only a page-fault
   * fixup changes the frame.
   */
  method X86TrapHandler(tf: TrapFrame, env: TrapEnv, table: array<ExceptionTableEntry>)
    returns (o: TrapOutcome, calls: seq<HandlerCall>)
    requires SortedByFrom(table[..])
    requires |env.mnemonics| == 32
    modifies tf
    ensures var v := LowByte(old(tf.regs.vector));
      && (v == PAGE_FAULT_VECTOR ==> PageFaultHandled(env, table[..], old(tf.regs), tf.regs, o, calls))
      && (v == DEBUG_VECTOR ==> o == Resumed && calls == CallIf(env.debug, old(tf.regs), DebugCall))
      && (v == BREAKPOINT_VECTOR ==>
            o == Resumed && calls == CallIf(env.breakpoint, (old(tf.regs), 0), BreakpointCall))
      && (v == GENERAL_PROTECTION_FAULT_VECTOR ==>
            o == Panic(GeneralProtection(old(tf.regs.rip), old(tf.regs.errorCode))) && calls == [])
      && (IRQ_VECTOR_START <= v <= IRQ_VECTOR_END ==>
            o == Resumed && calls == CallIf(env.irq, old(tf.regs.vector), IrqCall(old(tf.regs.vector))))
      && (v !in {PAGE_FAULT_VECTOR, DEBUG_VECTOR, BREAKPOINT_VECTOR, GENERAL_PROTECTION_FAULT_VECTOR}
          && v < IRQ_VECTOR_START ==>
            o == Panic(UnhandledException(old(tf.regs.vector), VecToStr(old(tf.regs.vector), env.mnemonics),
                                          old(tf.regs.errorCode), old(tf.regs.rip)))
            && calls == [])
    ensures tf.regs == old(tf.regs) || (LowByte(old(tf.regs.vector)) == PAGE_FAULT_VECTOR
                                        && o == Resumed && FixedUp(table[..], old(tf.regs), tf.regs))
  {
    var v := LowByte(tf.regs.vector);
    if v == PAGE_FAULT_VECTOR {
      o, calls := HandlePageFault(tf, env, table);
    } else if v == DEBUG_VECTOR {
      var r := HandleDebug(tf.regs, env);
      o, calls := r.0, r.1;
    } else if v == BREAKPOINT_VECTOR {
      var r := HandleBreakpoint(tf.regs, env);
      o, calls := r.0, r.1;
    } else if v == GENERAL_PROTECTION_FAULT_VECTOR {
      o, calls := Panic(GeneralProtection(tf.regs.rip, tf.regs.errorCode)), [];
    } else if IRQ_VECTOR_START <= v <= IRQ_VECTOR_END {
      o, calls := Resumed, CallIf(env.irq, tf.regs.vector, IrqCall(tf.regs.vector));
    } else {
      o := Panic(UnhandledException(tf.regs.vector, VecToStr(tf.regs.vector, env.mnemonics),
                                    tf.regs.errorCode, tf.regs.rip));
      calls := [];
    }
  }
}
