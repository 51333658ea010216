/**
 * The architecture-neutral trap layer (src/trap.rs): the handler registry,
 * the exit-reason bitmask, the reason a user-space trip returns, and the
 * exception fixup table.
 */
module Trap {
  import opened Types
  import opened X86Context

  // ---------------------------------------------------------------------
  // Handler registry (`handle_trap!`)
  // ---------------------------------------------------------------------

  /** The diagnostic `handle_trap!` logs. */
  datatype Diagnostic = Silent | NoHandlerRegistered | MultipleHandlers

  /** The outcome of dispatching to a handler slot: the verdict, which handlers ran, what was logged. */
  datatype Dispatch = Dispatch(handled: bool, invoked: seq<nat>, warning: Diagnostic)

  /**
   * `handle_trap!(slot, args)`: the first registered handler alone is called
   * and its verdict is the result; with no handler nothing is called and the
   * trap is reported unhandled. Each handler is a pure function of the
   * arguments.
   */
  function HandleTrap<A>(slot: seq<A -> bool>, args: A): (d: Dispatch)
    ensures d.handled <==> |slot| > 0 && slot[0](args)
    ensures d.invoked == (if |slot| == 0 then [] else [0])
    ensures d.warning == NoHandlerRegistered <==> |slot| == 0
    ensures d.warning == MultipleHandlers <==> |slot| > 1
  {
    if |slot| == 0 then
      Dispatch(false, [], NoHandlerRegistered)
    else
      Dispatch(slot[0](args), [0], if |slot| > 1 then MultipleHandlers else Silent)
  }

  /** Handlers after the first never influence the verdict. */
  lemma LaterHandlersIgnored<A>(first: A -> bool, rest1: seq<A -> bool>, rest2: seq<A -> bool>, args: A)
    ensures HandleTrap([first] + rest1, args).handled == HandleTrap([first] + rest2, args).handled == first(args)
  {
    assert ([first] + rest1)[0] == first;
    assert ([first] + rest2)[0] == first;
  }

  // ---------------------------------------------------------------------
  // Exit-reason bitmask
  // ---------------------------------------------------------------------

  datatype ExceptionSource = CurrentSpEl0 | CurrentSpElx | LowerAarch64 | LowerAarch32
  {
    /** `source as u8`. */
    function Discriminant(): (n: u8)
      ensures n < 4
    {
      match this
      case CurrentSpEl0 => 0
      case CurrentSpElx => 1
      case LowerAarch64 => 2
      case LowerAarch32 => 3
    }
  }

  /**
   * `excp_mask(kind, source)`: the single bit `source * 4 + kind` of a
   * `u16`. A larger shift would overflow, which Rust rejects.
   */
  function ExcpMask(kind: u8, source: ExceptionSource): (m: bv16)
    requires source.Discriminant() * 4 + kind < 16
    ensures m != 0 && m & (m - 1) == 0
    ensures m >> (source.Discriminant() * 4 + kind) == 1
  {
    (1 as bv16) << (source.Discriminant() * 4 + kind)
  }

  const TASK_EXIT_0_1: bv16 := ExcpMask(0, CurrentSpElx)
  const TASK_EXIT_1_1: bv16 := ExcpMask(1, CurrentSpElx)
  const TASK_EXIT_0_2: bv16 := ExcpMask(0, LowerAarch64)
  const TASK_EXIT_1_2: bv16 := ExcpMask(1, LowerAarch64)

  /** The four exit masks are 0x10, 0x20, 0x100 and 0x200, hence pairwise distinct. */
  lemma TaskExitValues()
    ensures TASK_EXIT_0_1 == 0x10 && TASK_EXIT_1_1 == 0x20
    ensures TASK_EXIT_0_2 == 0x100 && TASK_EXIT_1_2 == 0x200
  {
  }

  /** With kinds below 4, different (kind, source) pairs give different masks. */
  lemma ExcpMaskInjective(k1: u8, s1: ExceptionSource, k2: u8, s2: ExceptionSource)
    requires k1 < 4 && k2 < 4
    ensures ExcpMask(k1, s1) == ExcpMask(k2, s2) <==> k1 == k2 && s1 == s2
  {
  }

  /** Why control came back from user space. */
  datatype ReturnReason<I> =
    | Unknown
    | Interrupt
    | Syscall
    | PageFault(vaddr: u64, flags: set<AccessFlag>)
    | Exception(info: I)

  /** The access flags of a page fault (the subset of `MappingFlags` the trap code produces). */
  datatype AccessFlag = Read | Write | Execute | User

  datatype ExceptionKind = Other | Breakpoint | IllegalInstruction | Misaligned

  /** A user-space trip either returns a reason or ends in a kernel panic carrying a code. */
  datatype RunOutcome<I> = Returned(reason: ReturnReason<I>) | Fatal(code: u64)

  /** `ReturnReason::from_mask`. */
  function FromMask<I>(mask: bv16): (r: ReturnReason<I>)
    ensures r.Syscall? <==> mask == 0x10 || mask == 0x100
    ensures r.Interrupt? <==> mask == 0x20 || mask == 0x200
    ensures r.Unknown? <==> mask != 0x10 && mask != 0x20 && mask != 0x100 && mask != 0x200
  {
    TaskExitValues();
    if mask == TASK_EXIT_0_1 then Syscall
    else if mask == TASK_EXIT_1_1 then Interrupt
    else if mask == TASK_EXIT_0_2 then Syscall
    else if mask == TASK_EXIT_1_2 then Interrupt
    else Unknown
  }

  /**
   * Decoding an encoded mask: kind 0 is a syscall and kind 1 an interrupt,
   * but only from the two sources the constants name; every other
   * (kind, source) pair decodes as `Unknown`.
   */
  lemma FromMaskOfExcpMask<I>(kind: u8, source: ExceptionSource)
    requires kind < 4
    ensures var r: ReturnReason<I> := FromMask(ExcpMask(kind, source));
      var named := source == CurrentSpElx || source == LowerAarch64;
      && (r.Syscall? <==> kind == 0 && named)
      && (r.Interrupt? <==> kind == 1 && named)
      && (r.Unknown? <==> !(kind <= 1 && named))
  {
    TaskExitValues();
    ExcpMaskInjective(kind, source, 0, CurrentSpElx);
    ExcpMaskInjective(kind, source, 1, CurrentSpElx);
    ExcpMaskInjective(kind, source, 0, LowerAarch64);
    ExcpMaskInjective(kind, source, 1, LowerAarch64);
  }

  // ---------------------------------------------------------------------
  // Exception fixup table
  // ---------------------------------------------------------------------

  /** One fixup: a faulting instruction address and where to resume. */
  datatype ExceptionTableEntry = ExceptionTableEntry(from: u64, to: u64)

  /** The derived `Ord`: lexicographic on (from, to). */
  predicate EntryLe(a: ExceptionTableEntry, b: ExceptionTableEntry)
  {
    a.from < b.from || (a.from == b.from && a.to <= b.to)
  }

  /** `EntryLe` is a total order. */
  lemma EntryLeTotalOrder(a: ExceptionTableEntry, b: ExceptionTableEntry, c: ExceptionTableEntry)
    ensures EntryLe(a, a)
    ensures EntryLe(a, b) && EntryLe(b, a) ==> a == b
    ensures EntryLe(a, b) && EntryLe(b, c) ==> EntryLe(a, c)
    ensures EntryLe(a, b) || EntryLe(b, a)
  {
  }

  ghost predicate Sorted(s: seq<ExceptionTableEntry>)
  {
    forall i, j :: 0 <= i < j < |s| ==> EntryLe(s[i], s[j])
  }

  ghost predicate SortedByFrom(s: seq<ExceptionTableEntry>)
  {
    forall i, j :: 0 <= i < j < |s| ==> s[i].from <= s[j].from
  }

  /** A table in the derived order is ordered by faulting address, which is what the search needs. */
  lemma SortedIsSortedByFrom(s: seq<ExceptionTableEntry>)
    requires Sorted(s)
    ensures SortedByFrom(s)
  {
  }

  /**
   * `init_exception_table`: sorts the table in place (`sort_unstable`, here
   * an insertion sort; any sort meets the same contract).
   */
  method InitExceptionTable(table: array<ExceptionTableEntry>)
    modifies table
    ensures Sorted(table[..])
    ensures multiset(table[..]) == old(multiset(table[..]))
  {
    var i := 0;
    while i < table.Length
      invariant 0 <= i <= table.Length
      invariant forall a, b :: 0 <= a < b < i ==> EntryLe(table[a], table[b])
      invariant multiset(table[..]) == old(multiset(table[..]))
    {
      InsertLast(table, i);
      i := i + 1;
    }
  }

  /** One insertion step: moves `table[i]` down into the sorted prefix `table[..i]`. */
  method InsertLast(table: array<ExceptionTableEntry>, i: nat)
    requires i < table.Length
    requires forall a, b :: 0 <= a < b < i ==> EntryLe(table[a], table[b])
    modifies table
    ensures forall a, b :: 0 <= a < b <= i ==> EntryLe(table[a], table[b])
    ensures multiset(table[..]) == old(multiset(table[..]))
  {
    var j := i;
    while j > 0 && !EntryLe(table[j - 1], table[j])
      invariant 0 <= j <= i
      invariant forall a, b :: 0 <= a < b <= i && a != j && b != j ==> EntryLe(table[a], table[b])
      invariant forall k :: j < k <= i ==> EntryLe(table[j], table[k])
      invariant multiset(table[..]) == old(multiset(table[..]))
    {
      SwapDown(table, j);
      j := j - 1;
    }
  }

  /** Exchanges `table[j - 1]` and `table[j]`. */
  method SwapDown(table: array<ExceptionTableEntry>, j: nat)
    requires 0 < j < table.Length
    modifies table
    ensures table[..] == old(table[..])[j - 1 := old(table[j])][j := old(table[j - 1])]
    ensures multiset(table[..]) == old(multiset(table[..]))
  {
    table[j - 1], table[j] := table[j], table[j - 1];
  }

  /**
   * `binary_search_by(|e| e.from.cmp(&ip))` on a table sorted by `from`:
   * an index whose `from` is exactly `ip`, or none when no entry has it.
   */
  method SearchExceptionTable(table: array<ExceptionTableEntry>, ip: u64) returns (r: Option<nat>)
    requires SortedByFrom(table[..])
    ensures r.Some? ==> r.value < table.Length && table[r.value].from == ip
    ensures r.None? <==> forall i :: 0 <= i < table.Length ==> table[i].from != ip
  {
    var lo, hi := 0, table.Length;
    while lo < hi
      invariant 0 <= lo <= hi <= table.Length
      invariant forall i :: 0 <= i < lo ==> table[i].from < ip
      invariant forall i :: hi <= i < table.Length ==> table[i].from > ip
    {
      var mid := lo + (hi - lo) / 2;
      if table[mid].from < ip {
        lo := mid + 1;
      } else if table[mid].from > ip {
        hi := mid;
      } else {
        return Some(mid);
      }
    }
    return None;
  }

  /** Some entry of the table fixes up a fault at `ip`. */
  ghost predicate HasFixup(table: seq<ExceptionTableEntry>, ip: u64)
  {
    exists i :: 0 <= i < |table| && table[i].from == ip
  }

  /** `after` is `before` resumed at the `to` of an entry whose `from` is `before`'s instruction pointer. */
  ghost predicate FixedUp(table: seq<ExceptionTableEntry>, before: Registers, after: Registers)
  {
    exists i :: 0 <= i < |table| && table[i].from == before.rip && after == before.(rip := table[i].to)
  }

  /**
   * `TrapFrame::fixup_exception`: on an exact match of the instruction
   * pointer, resume at the entry's `to`; otherwise leave the frame alone.
   */
  method FixupException(tf: TrapFrame, table: array<ExceptionTableEntry>) returns (fixed: bool)
    requires SortedByFrom(table[..])
    modifies tf
    ensures fixed <==> HasFixup(table[..], old(tf.regs.rip))
    ensures fixed ==> FixedUp(table[..], old(tf.regs), tf.regs)
    ensures !fixed ==> tf.regs == old(tf.regs)
  {
    var found := SearchExceptionTable(table, tf.Ip());
    match found {
      case Some(i) =>
        tf.SetIp(table[i].to);
        assert table[..][i] == table[i];
        fixed := true;
      case None =>
        fixed := false;
    }
  }

  /** A fixup changes nothing but the instruction pointer, and only to a registered landing address. */
  lemma FixedUpOnlyMovesIp(table: seq<ExceptionTableEntry>, before: Registers, after: Registers)
    requires FixedUp(table, before, after)
    ensures after.(rip := before.rip) == before
    ensures exists i :: 0 <= i < |table| && table[i].to == after.rip
  {
    var i :| 0 <= i < |table| && table[i].from == before.rip && after == before.(rip := table[i].to);
    assert table[i].to == after.rip;
  }
}
