# axcpu trap, context and user-space core in Dafny

This project models the part of axcpu that decides what happens on a trap and
on a switch between tasks and between kernel and user space, and proves what
that code promises. The modelled code is:

- the architecture-neutral trap layer: the `handle_trap!` handler registry, the
  `excp_mask` exit bitmask and `ReturnReason::from_mask`, and the exception
  fixup table (sorted at boot, binary-searched on a fault);
- the x86_64 trap dispatcher: page-fault error-code decoding, the page-fault,
  debug and breakpoint paths, and the vector dispatch;
- the x86_64 task context: the `TrapFrame` accessors, the kprobe `PtRegs`
  conversion, `TaskContext::new`/`init`/`set_page_table_root`/`switch_to`,
  and `context_switch` as a push/pop on a stack held in an array;
- x86_64 user space: `UserContext::empty`/`new`/`from`/`run` and the FS-base
  swap around the trip to user mode;
- aarch64 user space: the `UspaceContext` and `UserContext` constructors,
  the frame layout that `enter_uspace` loads from (with its load sequence
  written out as a small instruction list), and the classification of
  ESR_EL1 in `UserContext::run`.

Modules follow the source files: `Types` (machine integers, `Option`,
`Result`, the cargo features), `Trap` (src/trap.rs), `X86Trap`
(src/x86_64/trap.rs), `X86Context` (src/x86_64/context.rs), `X86Uspace`
(src/x86_64/uspace.rs) and `AArch64Uspace` (src/aarch64/uspace.rs).

The model's form follows the source's:

- State that the source updates in place is a `class`: the x86 `TrapFrame`,
  `TaskContext`, the processor `Cpu`, and the x86 `UserContext`. Each method
  on these modifies only the fields it names, and its postcondition gives
  the new value of every one of them.
- The exception table is an `array`, sorted in place and searched with a loop.
- Expressions in the source become functions on datatypes, for example the
  classifications, the constructors, and everything on aarch64.

Hardware reads are parameters of the model:

- the values of cr2, cr4 and ESR_EL1;
- the current thread pointer, a field of `Cpu`;
- the GDT user selectors;
- the `EXCEPTIONS` mnemonic table;
- the set of bits that `PageFaultErrorCode` defines.

Interrupt masking, thread-pointer and CR3 writes, the FP/SIMD switch, the
register switch, user entry and IRQ dispatch are recorded in order in a
ghost event trace of `Cpu`.

Cargo features (`fp-simd`, `tls`, `uspace`) are boolean parameters.

## Model

| member | source | states |
|---|---|---|
| `Trap.HandleTrap` | src/trap.rs:21-34 | The trap is handled exactly when some handler is registered and the first one accepts. Only the first handler is invoked, and none when the slot is empty. The "no handler" and "multiple handlers" warnings are given exactly in those cases. |
| `Trap.LaterHandlersIgnored` | src/trap.rs:23-28 | Handlers after the first never change the verdict, which is the first handler's answer. |
| `Trap.ExceptionSource.Discriminant` | src/trap.rs:37-43 | `source as u8` is below 4. |
| `Trap.ExcpMask` | src/trap.rs:45-47 | The mask is a single bit, and exactly bit `source * 4 + kind`. |
| `Trap.TaskExitValues` | src/trap.rs:50-54 | The four `TASK_EXIT_*` masks are 0x10, 0x20, 0x100 and 0x200. |
| `Trap.ExcpMaskInjective` | src/trap.rs:45-54 | For kinds below 4, distinct (kind, source) pairs give distinct masks. |
| `Trap.FromMask` | src/trap.rs:66-76 | 0x10 and 0x100 decode as Syscall, 0x20 and 0x200 as Interrupt, and every other mask as Unknown. |
| `Trap.FromMaskOfExcpMask` | src/trap.rs:45-76 | Decoding an encoded mask gives Syscall for kind 0 and Interrupt for kind 1 from CurrentSpElx or LowerAarch64, and Unknown for any other (kind, source) pair. |
| `Trap.EntryLeTotalOrder` | src/trap.rs:88-93 | The derived lexicographic order on (from, to) is reflexive, antisymmetric, transitive and total. |
| `Trap.SortedIsSortedByFrom` | src/trap.rs:88-93 | A table sorted in that order is non-decreasing in `from`. |
| `Trap.InitExceptionTable` | src/trap.rs:114-123 | The table ends sorted in the derived order, as a permutation of its old contents. |
| `Trap.SwapDown` | src/trap.rs:122 | One swap of neighbouring entries: the two trade places, nothing else moves, and the multiset is kept. |
| `Trap.InsertLast` | src/trap.rs:122 | One insertion step extends the sorted prefix by one entry and keeps the multiset of entries. |
| `Trap.SearchExceptionTable` | src/trap.rs:104 | On a table sorted by `from`, the search returns an index whose `from` equals the ip. It returns none exactly when no entry has that `from`; ranges are not matched. |
| `Trap.FixupException` | src/trap.rs:95-111 | Returns true exactly when some entry's `from` equals the old ip. In that case the frame is the old one resumed at that entry's `to`; otherwise the frame is unchanged. |
| `Trap.FixedUpOnlyMovesIp` | src/trap.rs:104-108 | A fixup changes no register but rip, and rip becomes the `to` of a table entry. |
| `X86Trap.UnderstoodBitsAreTheFour` | src/x86_64/trap.rs:98-102 | The understood mask is exactly PROTECTION_VIOLATION, CAUSED_BY_WRITE, USER_MODE and INSTRUCTION_FETCH. |
| `X86Trap.AccessFlagsOfMeaning` | src/x86_64/trap.rs:106-118 | Exactly one of READ and WRITE is set; USER and EXECUTE follow their bits. |
| `X86Trap.PageFaultAccess` | src/x86_64/trap.rs:96-120 | The decoding of an error code: rejected exactly when a known bit outside the four is set, and then returned unchanged. An accepted code reports exactly one of READ and WRITE, and only the four flags. |
| `X86Trap.PageFaultAccessMeaning` | src/x86_64/trap.rs:96-120 | The code is rejected, returned unchanged, exactly when it carries a defined bit other than the four. Otherwise WRITE is set iff bit 1 and READ iff not, USER iff bit 2, EXECUTE iff bit 4, and bit 0 adds nothing. |
| `X86Trap.PageFaultAccessIgnoresUnknownBits` | src/x86_64/trap.rs:97 | Bits that `PageFaultErrorCode` does not define never change the decoding. |
| `X86Trap.ErrCodeToFlags` | src/x86_64/trap.rs:96-120 | Accumulating the flags bit by bit computes exactly the decoding above. |
| `X86Trap.Contains` | src/x86_64/trap.rs:107-115 | `code.contains(bit)` of a single-bit flag is that bit being set. |
| `X86Trap.VecToStr` | src/x86_64/trap.rs:88-94 | The table mnemonic below vector 32, and "Unknown" from 32 up. |
| `X86Trap.CallIf` | src/x86_64/trap.rs:23 | The handler call is recorded exactly when the slot invokes a handler, and at most once. |
| `X86Trap.HandlePageFault` | src/x86_64/trap.rs:19-40 | Stated through the predicate `PageFaultHandled`. An invalid error code panics before any handler is consulted. A handler that accepts resumes with the frame unchanged. Otherwise, with `uspace`, a matching fixup resumes at its landing address. Anything else panics with rip, cr2, the error code and the flags, and the frame unchanged. |
| `X86Trap.UnhandledPageFaultPanics` | src/x86_64/trap.rs:19-40 | With no page-fault handler and without `uspace`, a page fault always panics, offers no call and leaves the frame. It is the unhandled-fault panic exactly when the error code is valid. |
| `X86Trap.HandleBreakpoint` | src/x86_64/trap.rs:42-47 | The breakpoint handler is called (if registered) with the frame and 0. The trap always resumes, whatever it answers. |
| `X86Trap.HandleDebug` | src/x86_64/trap.rs:49-54 | The debug handler is called (if registered) and the trap always resumes. |
| `X86Trap.X86TrapHandler` | src/x86_64/trap.rs:57-86 | Dispatches on the low byte of the vector: see the dispatch paragraph below this table. Vector 14 does exactly what `HandlePageFault` promises. |
| `X86Context.ZeroRegisters` | src/x86_64/context.rs:9-36 | The default frame has all 22 words zero. |
| `X86Context.TrapFrame.constructor` | src/x86_64/context.rs:9-36 | A frame holds the registers it is given. |
| `X86Context.TrapFrame.Arg0` | src/x86_64/context.rs:40-44 | Reads the frame word rdi, word 6 of the 22-word layout. |
| `X86Context.TrapFrame.Arg1` | src/x86_64/context.rs:50-54 | Reads the frame word rsi, word 5 of the 22-word layout. |
| `X86Context.TrapFrame.Arg2` | src/x86_64/context.rs:60-64 | Reads the frame word rdx, word 2 of the 22-word layout. |
| `X86Context.TrapFrame.Arg3` | src/x86_64/context.rs:70-74 | Reads the frame word r10, word 9 of the 22-word layout. |
| `X86Context.TrapFrame.Arg4` | src/x86_64/context.rs:80-84 | Reads the frame word r8, word 7 of the 22-word layout. |
| `X86Context.TrapFrame.Arg5` | src/x86_64/context.rs:90-94 | Reads the frame word r9, word 8 of the 22-word layout. |
| `X86Context.TrapFrame.Ip` | src/x86_64/context.rs:100-104 | Reads the frame word rip, word 17 of the 22-word layout. |
| `X86Context.TrapFrame.Sp` | src/x86_64/context.rs:110-114 | Reads the frame word rsp, word 20 of the 22-word layout. |
| `X86Context.TrapFrame.Sysno` | src/x86_64/context.rs:120-124 | Reads the frame word rax, word 0 of the 22-word layout. |
| `X86Context.TrapFrame.Retval` | src/x86_64/context.rs:130-134 | Reads the frame word rax, word 0, the same word as the syscall number of the 22-word layout. |
| `X86Context.TrapFrame.SetArg0` | src/x86_64/context.rs:40-48 | arg0 is rdi. After the set, `arg0()` returns the value and no other register changes. |
| `X86Context.TrapFrame.SetArg1` | src/x86_64/context.rs:50-58 | arg1 is rsi, set alone. |
| `X86Context.TrapFrame.SetArg2` | src/x86_64/context.rs:60-68 | arg2 is rdx, set alone. |
| `X86Context.TrapFrame.SetArg3` | src/x86_64/context.rs:70-78 | arg3 is r10, set alone. |
| `X86Context.TrapFrame.SetArg4` | src/x86_64/context.rs:80-88 | arg4 is r8, set alone. |
| `X86Context.TrapFrame.SetArg5` | src/x86_64/context.rs:90-98 | arg5 is r9, set alone. |
| `X86Context.TrapFrame.SetIp` | src/x86_64/context.rs:100-108 | ip is rip, set alone. |
| `X86Context.TrapFrame.SetSp` | src/x86_64/context.rs:110-118 | sp is rsp, set alone. |
| `X86Context.TrapFrame.SetSysno` | src/x86_64/context.rs:120-128 | sysno is rax, so after the set both `sysno()` and `retval()` return the value. |
| `X86Context.TrapFrame.SetRetval` | src/x86_64/context.rs:130-137 | retval is rax, so after the set both `retval()` and `sysno()` return the value. |
| `X86Context.TrapFrame.UpdateFromPtRegs` | src/x86_64/context.rs:383-407 | All registers are taken from `PtRegs`, the vector from `orig_rax`; the error code is kept. Applied to `PtRegs::from(tf)`, it reproduces tf. |
| `X86Context.Registers.ToPtRegs` | src/x86_64/context.rs:354-380 | Every word of the frame's layout but the error code is carried into `PtRegs`, the vector as `orig_rax`. |
| `X86Context.PtRegsKeepsAllButErrorCode` | src/x86_64/context.rs:354-380 | `PtRegs::from` keeps the vector in `orig_rax`. Two frames with the same `PtRegs` differ in nothing but the error code and the model-only fs_base. |
| `X86Context.StoreFrameLayout` | src/x86_64/context.rs:147-155 | A stored `ContextSwitchFrame` puts r15, r14, r13, r12, rbx, rbp and rip in seven consecutive words upward. Every other word is untouched. |
| `X86Context.LoadAfterStore` | src/x86_64/context.rs:147-155 | A frame stored and loaded back at the same address is the same frame. |
| `X86Context.LoadElsewhere` | src/x86_64/context.rs:147-155 | Storing a frame leaves a disjoint frame readable as before. |
| `X86Context.FxsaveAreaSize` | src/x86_64/context.rs:164-178 | The fields of `FxsaveArea` total 512 bytes. |
| `X86Context.DefaultExtendedState` | src/x86_64/context.rs:201-207 | fcw is 0x37f, ftw 0xffff and mxcsr 0x1f80, and every other field is zero. |
| `X86Context.Cpu.constructor` | src/x86_64/context.rs:331-352 | A processor over a memory whose byte addresses fit in 64 bits, with an empty trace. |
| `X86Context.Cpu.PushFrame` | src/x86_64/context.rs:335-341 | The six pushes, plus the return address of the call, store the live frame 56 bytes below the old stack pointer. |
| `X86Context.Cpu.PopFrame` | src/x86_64/context.rs:343-350 | The six pops and `ret` load the frame at the stack pointer and leave the stack pointer 56 bytes higher. |
| `X86Context.Cpu.ContextSwitch` | src/x86_64/context.rs:331-352 | The current frame is saved below the stack pointer, and its address is stored in `cur`. The next frame is loaded from `next`'s saved stack pointer. Thread pointer, CR3 and FP state are untouched. |
| `X86Context.Cpu.SwitchThereAndBack` | src/x86_64/context.rs:331-352 | For frames on different stacks, A to B and back restores A's callee-saved registers, rip and rsp bit-exactly. B's saved frame and stack pointer are left as they were, and memory differs only by A's saved frame. Thread pointer, CR3, FP state and the saved kernel FS base are untouched, and two register switches are recorded. |
| `X86Context.Cpu.WriteThreadPointer` | src/x86_64/context.rs:317 | The thread pointer becomes the value, and the write is recorded. |
| `X86Context.Cpu.WriteUserPageTable` | src/x86_64/context.rs:322 | CR3 becomes the root, and the write is recorded. |
| `X86Context.Cpu.DisableIrqs` | src/x86_64/uspace.rs:71 | Only an interrupts-disabled event is recorded. |
| `X86Context.Cpu.EnableIrqs` | src/x86_64/uspace.rs:99 | Only an interrupts-enabled event is recorded. |
| `X86Context.SwitchStepsOrder` | src/x86_64/context.rs:308-327 | The register switch comes last and only once. The page table is written exactly when `uspace` holds and the roots differ. The steps before the switch come in the order FP/SIMD, TLS, page table. |
| `X86Context.TaskContext.constructor` | src/x86_64/context.rs:261-271 | kstack_top, rsp and fs_base are 0, the extended state is the default, and cr3 is the kernel root. |
| `X86Context.TaskContext.Init` | src/x86_64/context.rs:275-293 | rsp becomes top − 64, and the initial frame is stored there. kstack_top becomes top and fs_base the TLS area. |
| `X86Context.TaskContext.SetPageTableRoot` | src/x86_64/context.rs:300-302 | cr3 becomes the given root. |
| `X86Context.TaskContext.SwitchTo` | src/x86_64/context.rs:308-327 | See the `switch_to` paragraph below this table. |
| `X86Context.TaskContext.Prepare` | src/x86_64/context.rs:309-325 | The same as `SwitchTo` for the steps before `context_switch`. |
| `X86Context.WriteFrame` | src/x86_64/context.rs:281-288 | Writing a frame through the pointer gives exactly the stored-frame memory. |
| `X86Context.InitialFrameLayout` | src/x86_64/context.rs:275-293 | After `init`, the six words at rsp are 0 and the word at rsp + 48 is `entry`. Every other word, including the one at top − 8, is as it was. |
| `X86Context.EnterInitializedTask` | src/x86_64/context.rs:275-293 | The first switch into a task that `init` prepared lands at `entry` with zeroed callee-saved registers and the stack pointer at top − 8. The stack pointer plus 8 is then 16-byte aligned exactly when the stack top is. The current task's frame is saved where its context points, and memory holds exactly the two frames. Thread pointer, CR3, FP state and the saved kernel FS base are untouched, and one register switch is recorded. |
| `X86Uspace.NewUserRegisters` | src/x86_64/uspace.rs:33-46 | rdi is arg0, rip entry, cs the user code selector, rflags 0x200, rsp the user stack and ss the user data selector. Every other word is zero. |
| `X86Uspace.FromRegisters` | src/x86_64/uspace.rs:48-57 | cs and ss become the user selectors; every other register is kept. |
| `X86Uspace.FromRegistersIdempotent` | src/x86_64/uspace.rs:52-57 | `from` is idempotent, and leaves a frame already in the user segments unchanged. |
| `X86Uspace.NewIsFromFixpoint` | src/x86_64/uspace.rs:33-57 | A new context is already in the user segments, with the entry, stack and argument. |
| `X86Uspace.ExceptionInfo.Kind` | src/x86_64/uspace.rs:156-164 | Breakpoint exactly for low byte 3, IllegalInstruction exactly for 6, and never Misaligned. |
| `X86Uspace.ClassifyUserTrap` | src/x86_64/uspace.rs:76-98 | `run` never returns Unknown. |
| `X86Uspace.ClassifyUserTrapCases` | src/x86_64/uspace.rs:76-98 | See the classification paragraph below this table. |
| `X86Uspace.SwitchToUserFsBase` | src/x86_64/uspace.rs:120-127 | For a user frame: with `tls`, the kernel thread pointer is saved; in every case, the frame's fs_base is installed. For any other frame nothing happens. |
| `X86Uspace.SwitchToKernelFsBase` | src/x86_64/uspace.rs:109-118 | For a user frame: the current thread pointer is stored in the frame; with `tls`, the saved kernel one is restored. For any other frame nothing happens. |
| `X86Uspace.EnterUser` | src/x86_64/uspace.rs:66-73 | The trap back refills the frame, which has no fs_base slot, and leaves the user's thread pointer. |
| `X86Uspace.RunStepsBracketed` | src/x86_64/uspace.rs:71-99 | Interrupts are disabled first and only once. They are re-enabled last exactly when `run` returns. The user program runs between the two thread-pointer writes. |
| `X86Uspace.RoundTrip` | src/x86_64/uspace.rs:72-74 | The thread-pointer writes around the trip, and the saved and restored values. |
| `X86Uspace.UserContext.Empty` | src/x86_64/uspace.rs:27-29 | All registers zero. |
| `X86Uspace.UserContext.New` | src/x86_64/uspace.rs:33-46 | The registers of `NewUserRegisters`. |
| `X86Uspace.UserContext.From` | src/x86_64/uspace.rs:52-57 | The registers of `FromRegisters`. |
| `X86Uspace.UserContext.Run` | src/x86_64/uspace.rs:65-101 | See the `run` paragraph below this table. |
| `X86Uspace.ClassifyIgnoresFsBase` | src/x86_64/uspace.rs:76-98 | The classification does not read fs_base. |
| `AArch64Uspace.FrameWords` | src/aarch64/uspace.rs:65-87 | The frame's memory layout: x0..x30 in words 0–30, then usp, tpidr, elr and spsr in 31–34. |
| `AArch64Uspace.FrameWordsInjective` | src/aarch64/uspace.rs:65-87 | The layout determines the frame. |
| `AArch64Uspace.UserSpsrFields` | src/aarch64/uspace.rs:27-32 | SPSR is 0x340: M = EL0t, with D, A and F masked and I unmasked. |
| `AArch64Uspace.UspaceEmpty` | src/aarch64/uspace.rs:12-14 | All 35 words zero. |
| `AArch64Uspace.UspaceNew` | src/aarch64/uspace.rs:18-34 | x0 is arg0 and x1..x30 are zero. usp is the user stack, tpidr 0, elr the entry, and spsr the user SPSR. |
| `AArch64Uspace.UspaceFrom` | src/aarch64/uspace.rs:37-39 | A verbatim copy of the frame. |
| `AArch64Uspace.EnterUspace` | src/aarch64/uspace.rs:51-88 | `enter_uspace` up to `eret` ends with interrupts disabled. What it loads is stated by `EnterUspaceRestoresFrame`. |
| `AArch64Uspace.ExecKeepsIrqMask` | src/aarch64/uspace.rs:58-87 | No instruction of the load sequence changes the interrupt mask. |
| `AArch64Uspace.FrameAtWord` | src/aarch64/uspace.rs:65-87 | Word `k` of a frame at an 8-aligned address is loaded from byte offset 8k. |
| `AArch64Uspace.SystemLoadsEffect` | src/aarch64/uspace.rs:59-70 | `mov sp, x1` sets sp to the kernel stack top, and the kernel tpidr_el0 is kept in tpidrro_el0. sp_el0, tpidr_el0, elr_el1 and spsr_el1 get words 31–34. x0 still holds the frame address. |
| `AArch64Uspace.LoadPair` | src/aarch64/uspace.rs:73-87 | One `ldp` loads its two words from offset 16j and changes nothing else. |
| `AArch64Uspace.PairLoadsEffect` | src/aarch64/uspace.rs:73-87 | The pair loads fill x0..x29 from the frame, provided x0 is overwritten only by the last of them. |
| `AArch64Uspace.GprLoadsEffect` | src/aarch64/uspace.rs:72-87 | All 31 general registers get their frame words, and no other register changes. |
| `AArch64Uspace.EnterUspaceRestoresFrame` | src/aarch64/uspace.rs:51-94 | Up to `eret`, `enter_uspace` installs the whole frame with interrupts disabled. sp is the kernel stack top, and the kernel tpidr_el0 is saved in tpidrro_el0. |
| `AArch64Uspace.EnterNewContext` | src/aarch64/uspace.rs:18-94 | A new context enters at `entry` on the user stack, with arg0 in x0, in EL0t with IRQs unmasked. |
| `AArch64Uspace.ExceptionInfo.Kind` | src/aarch64/uspace.rs:122-134 | Always Other. |
| `AArch64Uspace.UserFrom` | src/aarch64/uspace.rs:158-165 | The frame unchanged, with sp_el1 set to 0. |
| `AArch64Uspace.UserNew` | src/aarch64/uspace.rs:220-232 | All 31 registers, tpidr, spsr and sp_el1 are zero; usp is the user stack and elr the entry. arg0 is ignored. |
| `AArch64Uspace.UserNewAgainstUspaceNew` | src/aarch64/uspace.rs:18-34 | The two constructors agree on the entry, stack and tpidr. They have the same registers exactly when arg0 is 0, and always differ in SPSR. |
| `AArch64Uspace.ClassifyEsr` | src/aarch64/uspace.rs:186-216 | See the ESR paragraph below this table. |
| `AArch64Uspace.EcByValue` | src/aarch64/uspace.rs:191 | EC 0x15 is ESR 0x5400_0000..0x57ff_ffff, and EC 0x20 is 0x8000_0000..0x83ff_ffff. |
| `AArch64Uspace.IssIgnoresHighBits` | src/aarch64/uspace.rs:192 | The ISS depends only on bits 24..0 and is below 2^25. |

The longer `states` entries:

- **`X86Trap.X86TrapHandler`** dispatches on the low byte of the vector:
  - debug and breakpoint call their handler and resume;
  - 13 (general protection) panics without offering any handler;
  - 0x20..0xff, including 0x80, go to the IRQ handler and resume;
  - every other vector except 14 panics with its mnemonic.

  Vector 14 satisfies `PageFaultHandled`, the specification of
  `HandlePageFault`. Only a page-fault fixup changes the frame. This holds
  because the handlers are pure functions in this model. In the source, the
  breakpoint and debug handlers receive `tf` mutably (src/x86_64/trap.rs:44
  and :51) and could change it.
- **`X86Context.TaskContext.SwitchTo`** does the following, in the order
  fp-simd, tls, cr3, register switch:
  - with `fp-simd`, it saves the FP state and loads next's;
  - with `tls`, fs_base receives the current thread pointer, and the thread
    pointer becomes next's fs_base;
  - CR3 is written iff `uspace` holds and the roots differ; self.cr3 is never
    modified;
  - then the registers are switched;
  - the per-CPU `KERNEL_FS_BASE` is untouched.
- **`X86Uspace.ClassifyUserTrapCases`** goes by low byte:
  - 14 gives PageFault(cr2, flags), and is fatal with the error code exactly
    when the code is invalid;
  - 0x80 gives Syscall;
  - the rest of 0x20..0xff gives Interrupt;
  - every other vector gives Exception with the full vector, rip, error code
    and cr4.
- **`X86Uspace.UserContext.Run`** returns the classification of the frame the
  trap saved. The final frame is that frame with the user thread pointer stored
  for a user frame. The event trace is:
  1. disable interrupts;
  2. the user thread pointer, for a user frame;
  3. user entry;
  4. the kernel thread pointer, with `tls` and for a user frame;
  5. IRQ dispatch, for an interrupt with a handler registered;
  6. enable interrupts, unless fatal.

  The saved kernel thread pointer is the entry value with `tls` and a user
  frame going in, and is otherwise unchanged. The final thread pointer is the
  saved kernel one with `tls` and a user frame coming back, and otherwise the
  one the user left. With `tls` and a user frame on both sides, the thread
  pointer ends as it began.
- **`AArch64Uspace.ClassifyEsr`** has EC = ESR[31:26] and ISS = ESR[24:0]:
  - EC 0x15 gives Syscall;
  - EC 0x20 is fatal and carries the ISS;
  - any other EC gives Unknown;
  - PageFault, Interrupt and Exception never arise.

## Left out

- Inline and naked assembly is not modelled as instructions, with one
  exception: the load sequence of `enter_uspace`. `context_switch` is
  modelled as its push/pop effect on a word array. The `enter_user` and
  `task_in` trips are inputs: the registers the trap saves and the thread
  pointer the user leaves. `eret`, FXSAVE/FXRSTOR and the register reads are
  not modelled.
- Handler side effects are not modelled: handlers are pure functions of their
  arguments. Registration through linkme distributed slices and the per-CPU
  `KERNEL_FS_BASE` (a single field of `Cpu`) are not modelled either.
- Several definitions live outside the modelled files and are parameters:
  - the GDT selector values;
  - the `EXCEPTIONS` mnemonic table;
  - the exact bit set of `PageFaultErrorCode`;
  - `TrapFrame::is_user`.

  `fs_base` is a field of the model's frame, kept out of the 22-word layout.
  It is not among the fields that src/x86_64/context.rs declares.
- The aarch64 trap frame's definition and `handle_instruction_abort` are not
  part of this model. The frame is rebuilt from its uses. The call made before
  the translation-fault panic is not modelled.
- The `BREAK_HANDLER` and `DEBUG_HANDLER` slots are used but not declared in
  src/trap.rs. They are modelled as slots like the others.
- The kprobe feature gate and the `backtrace()` capture are not modelled.
- Logging, panic message text and backtraces are not modelled. A panic is a
  `Panic`/`Fatal` outcome carrying the values the message prints.
- The aarch64 `run` logs the `task_in` return mask but never decodes it, so
  `FromMask` is modelled on its own.
- Interrupt masking is recorded as ordered events only; preemption is outside
  the model.
- `Trap.InitExceptionTable`: `sort_unstable` is a pattern-defeating quicksort.
  The model is an insertion sort with the same contract, sorted and a
  permutation.
- `Trap.SearchExceptionTable`: when several entries share the `from`, Rust's
  `binary_search_by` may return any of them. The contract likewise promises
  only some matching entry.
- `X86Uspace.UserContext.Run` dispatches an IRQ by recording the call; the
  handler's verdict does not influence `run`, as in the source.
- Integer widths are 64-bit subset types. `usize` is `u64`. The error code is
  converted to a 64-bit bit-vector once, at the decoding. Three places where
  the source could wrap or panic are excluded by preconditions instead:
  - `TaskContext.Init` requires `top >= 64`, so `top - 64` cannot wrap.
  - `Cpu.PushFrame`, `Cpu.ContextSwitch` and `TaskContext.SwitchTo` require
    `56 <= rsp`, so the pushes below the stack pointer cannot wrap.
  - `Trap.ExcpMask` requires the shift `source * 4 + kind` to be below 16.
    For a larger shift, Rust panics in a debug build and masks the shift
    amount in a release build; the model covers neither.

  Two alignment preconditions are the model's, not the source's. Neither
  `TaskContext::init` nor `context_switch` states them for its `VirtAddr` or
  stack pointer:
  - `TaskContext.Init` requires `top % 8 == 0`.
  - `Cpu.PushFrame`, `Cpu.ContextSwitch`, `TaskContext.SwitchTo` and the
    methods built on them require `rsp % 8 == 0`.

  They keep the word-sized loads and stores of the memory model aligned.
