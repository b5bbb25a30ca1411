/** Which exit consumes the size of which enter. */
module Pairing {
  import opened Words
  import opened BpfMaps
  import opened Accounting

  // An enter that passes the filters and finds room for its size.
  predicate Stores(c: Config, g: Ledger, op: Op, p: Pid) {
    && op.Enter? && op.pid == p
    && Accepts(c, p, op.size, op.now)
    && (p in g.maps.sizes || |g.maps.sizes| < SIZES_MAX_ENTRIES)
  }

  // An exit of the process that gets as far as gen_alloc_exit2.
  predicate ReachesExit2(g: Ledger, op: Op, p: Pid) {
    || (op.Exit? && op.pid == p)
    || (op.MemalignExit? && op.pid == p && p in g.maps.memptrs && g.maps.memptrs[p] in op.memory)
  }

  predicate StoresAt(c: Config, ops: seq<Op>, i: nat, p: Pid)
    requires i < |ops|
  {
    Stores(c, StateAt(c, EMPTY, ops, i), ops[i], p)
  }

  predicate ExitsAt(c: Config, ops: seq<Op>, i: nat, p: Pid)
    requires i < |ops|
  {
    ReachesExit2(StateAt(c, EMPTY, ops, i), ops[i], p)
  }

  // Enter `i` is the last one stored before operation `n`, and no exit came since.
  predicate Pending(c: Config, ops: seq<Op>, i: nat, n: nat, p: Pid)
    requires n <= |ops|
  {
    && i < n && StoresAt(c, ops, i, p)
    && forall k :: i < k < n ==> !StoresAt(c, ops, k, p) && !ExitsAt(c, ops, k, p)
  }

  predicate Consumes(c: Config, ops: seq<Op>, i: nat, j: nat, p: Pid)
    requires j < |ops|
  {
    ExitsAt(c, ops, j, p) && Pending(c, ops, i, j, p)
  }

  lemma ExitTakes(g: Ledger, p: Pid, address: U64, stackId: I32, now: U64)
    ensures p !in RunExit(g, p, address, stackId, now).maps.sizes
    ensures forall q :: q != p ==>
                          (q in RunExit(g, p, address, stackId, now).maps.sizes <==> q in g.maps.sizes)
    ensures forall q :: q != p && q in g.maps.sizes ==>
                          RunExit(g, p, address, stackId, now).maps.sizes[q] == g.maps.sizes[q]
  {}

  // What one operation does to the pending size of a process.
  lemma SizeStep(c: Config, g: Ledger, op: Op, p: Pid)
    ensures var sizes := Step(c, g, op).maps.sizes;
            if Stores(c, g, op, p) then p in sizes && sizes[p] == op.size
            else if ReachesExit2(g, op, p) then p !in sizes
            else (p in sizes <==> p in g.maps.sizes) && (p in sizes ==> sizes[p] == g.maps.sizes[p])
  {
    match op {
      case Exit(pid, address, stackId, now) => ExitTakes(g, pid, address, stackId, now);
      case MemalignExit(pid, memory, stackId, now) =>
        if pid in g.maps.memptrs && g.maps.memptrs[pid] in memory {
          var taken := g.(maps := g.maps.(memptrs := DeleteElem(g.maps.memptrs, pid)));
          ExitTakes(taken, pid, memory[g.maps.memptrs[pid]], stackId, now);
        }
      case _ =>
    }
  }

  // The same, in terms of what is pending.
  lemma PendingStep(c: Config, ops: seq<Op>, n: nat, i: nat, p: Pid)
    requires n < |ops|
    ensures Pending(c, ops, i, n + 1, p) <==>
            if StoresAt(c, ops, n, p) then i == n else !ExitsAt(c, ops, n, p) && Pending(c, ops, i, n, p)
  {}

  lemma {:induction false} PendingIsStored(c: Config, ops: seq<Op>, i: nat, n: nat, p: Pid)
    requires n <= |ops| && Pending(c, ops, i, n, p)
    ensures p in StateAt(c, EMPTY, ops, n).maps.sizes && StateAt(c, EMPTY, ops, n).maps.sizes[p] == ops[i].size
    decreases n
  {
    PendingStep(c, ops, n - 1, i, p);
    SizeStep(c, StateAt(c, EMPTY, ops, n - 1), ops[n - 1], p);
    if !StoresAt(c, ops, n - 1, p) {
      PendingIsStored(c, ops, i, n - 1, p);
    }
  }

  lemma {:induction false} StoredIsPending(c: Config, ops: seq<Op>, n: nat, p: Pid) returns (i: nat)
    requires n <= |ops| && p in StateAt(c, EMPTY, ops, n).maps.sizes
    ensures Pending(c, ops, i, n, p)
    decreases n
  {
    SizeStep(c, StateAt(c, EMPTY, ops, n - 1), ops[n - 1], p);
    if StoresAt(c, ops, n - 1, p) {
      i := n - 1;
    } else {
      i := StoredIsPending(c, ops, n - 1, p);
    }
    PendingStep(c, ops, n - 1, i, p);
  }

  /** A pending size is that of the most recent enter that was stored and not yet
      followed by an exit, and there is none without such an enter. */
  lemma PendingSize(c: Config, ops: seq<Op>, n: nat, p: Pid)
    requires n <= |ops|
    ensures p in StateAt(c, EMPTY, ops, n).maps.sizes <==> exists i: nat :: Pending(c, ops, i, n, p)
    ensures forall i: nat :: Pending(c, ops, i, n, p) ==> StateAt(c, EMPTY, ops, n).maps.sizes[p] == ops[i].size
  {
    forall i: nat | Pending(c, ops, i, n, p)
      ensures p in StateAt(c, EMPTY, ops, n).maps.sizes && StateAt(c, EMPTY, ops, n).maps.sizes[p] == ops[i].size
    {
      PendingIsStored(c, ops, i, n, p);
    }
    if p in StateAt(c, EMPTY, ops, n).maps.sizes {
      var i := StoredIsPending(c, ops, n, p);
    }
  }

  /** Between two exits of a process, the second of which finds a size pending, an enter
      of the process was stored, and the size found is that of the last one. So no
      pending size is found by two exits. */
  lemma ConsumedOnce(c: Config, ops: seq<Op>, j: nat, j': nat, p: Pid) returns (i: nat)
    requires j < j' < |ops| && ExitsAt(c, ops, j, p) && ExitsAt(c, ops, j', p)
    requires p in StateAt(c, EMPTY, ops, j').maps.sizes
    ensures j < i < j' && Consumes(c, ops, i, j', p)
    ensures StateAt(c, EMPTY, ops, j').maps.sizes[p] == ops[i].size
    ensures p !in StateAt(c, EMPTY, ops, j' + 1).maps.sizes
  {
    i := StoredIsPending(c, ops, j', p);
    PendingIsStored(c, ops, i, j', p);
    SizeStep(c, StateAt(c, EMPTY, ops, j'), ops[j'], p);
  }

  function Forget(g: Ledger, p: Pid): Ledger {
    g.(maps := g.maps.(sizes := DeleteElem(g.maps.sizes, p)))
  }

  function ForgetMemptr(g: Ledger, p: Pid): Ledger {
    g.(maps := g.maps.(memptrs := DeleteElem(g.maps.memptrs, p)))
  }

  // Taking the pending size and recording it at the address an exit reports.
  function Take(g: Ledger, p: Pid, size: U64, address: U64, stackId: I32, now: U64): Ledger {
    var info := AllocInfo(size, now, stackId);
    if address == 0 then Forget(g, p) else CountAdd(InsertAlloc(Forget(g, p), address, info), info)
  }

  lemma ExitIsTake(g: Ledger, p: Pid, address: U64, stackId: I32, now: U64)
    ensures RunExit(g, p, address, stackId, now)
         == if p in g.maps.sizes then Take(g, p, g.maps.sizes[p], address, stackId, now) else g
  {}

  // Operation `j` takes the pending size of the process, which is `size`.
  predicate TakesAt(c: Config, ops: seq<Op>, j: nat, p: Pid, size: U64, address: U64, stackId: I32, now: U64)
    requires j < |ops|
  {
    StateAt(c, EMPTY, ops, j + 1) == Take(StateAt(c, EMPTY, ops, j), p, size, address, stackId, now)
  }

  /** An exit records the size of the enter it consumes; without one it changes nothing. */
  lemma ExitTakesItsEnter(c: Config, ops: seq<Op>, j: nat, p: Pid, address: U64, stackId: I32, now: U64)
    requires j < |ops| && ops[j] == Exit(p, address, stackId, now)
    ensures forall i: nat :: Consumes(c, ops, i, j, p) ==> TakesAt(c, ops, j, p, ops[i].size, address, stackId, now)
    ensures (forall i: nat :: !Consumes(c, ops, i, j, p)) ==>
              StateAt(c, EMPTY, ops, j + 1) == StateAt(c, EMPTY, ops, j)
  {
    PendingSize(c, ops, j, p);
    ExitIsTake(StateAt(c, EMPTY, ops, j), p, address, stackId, now);
    forall i: nat
      ensures Consumes(c, ops, i, j, p) <==> Pending(c, ops, i, j, p)
    {}
  }

  // ---------- the pointers of posix_memalign ----------

  // An operation that stores the result pointer of a posix_memalign call of the process.
  predicate StoresPointerAt(c: Config, ops: seq<Op>, i: nat, p: Pid)
    requires i < |ops|
  {
    && ops[i].SetMemptr? && ops[i].pid == p
    && var memptrs := StateAt(c, EMPTY, ops, i).maps.memptrs;
    p in memptrs || |memptrs| < MEMPTRS_MAX_ENTRIES
  }

  predicate TakesPointerAt(ops: seq<Op>, i: nat, p: Pid)
    requires i < |ops|
  {
    ops[i].MemalignExit? && ops[i].pid == p
  }

  // Pointer `i` is the last one stored before operation `n`, and none was taken since.
  predicate PointerPending(c: Config, ops: seq<Op>, i: nat, n: nat, p: Pid)
    requires n <= |ops|
  {
    && i < n && StoresPointerAt(c, ops, i, p)
    && forall k :: i < k < n ==> !StoresPointerAt(c, ops, k, p) && !TakesPointerAt(ops, k, p)
  }

  lemma ExitKeepsPointers(g: Ledger, p: Pid, address: U64, stackId: I32, now: U64)
    ensures RunExit(g, p, address, stackId, now).maps.memptrs == g.maps.memptrs
  {}

  // What one operation does to the pending pointer of a process.
  lemma PointerStep(c: Config, g: Ledger, op: Op, p: Pid)
    ensures var memptrs := Step(c, g, op).maps.memptrs;
            if op.SetMemptr? && op.pid == p && (p in g.maps.memptrs || |g.maps.memptrs| < MEMPTRS_MAX_ENTRIES)
            then p in memptrs && memptrs[p] == op.memptr
            else if op.MemalignExit? && op.pid == p then p !in memptrs
              else (p in memptrs <==> p in g.maps.memptrs) && (p in memptrs ==> memptrs[p] == g.maps.memptrs[p])
  {
    match op {
      case Exit(pid, address, stackId, now) => ExitKeepsPointers(g, pid, address, stackId, now);
      case MemalignExit(pid, memory, stackId, now) =>
        if pid in g.maps.memptrs && g.maps.memptrs[pid] in memory {
          var taken := g.(maps := g.maps.(memptrs := DeleteElem(g.maps.memptrs, pid)));
          ExitKeepsPointers(taken, pid, memory[g.maps.memptrs[pid]], stackId, now);
        }
      case _ =>
    }
  }

  lemma PointerPendingStep(c: Config, ops: seq<Op>, n: nat, i: nat, p: Pid)
    requires n < |ops|
    ensures PointerPending(c, ops, i, n + 1, p) <==>
            if StoresPointerAt(c, ops, n, p) then i == n
            else !TakesPointerAt(ops, n, p) && PointerPending(c, ops, i, n, p)
  {}

  lemma {:induction false} PointerPendingIsStored(c: Config, ops: seq<Op>, i: nat, n: nat, p: Pid)
    requires n <= |ops| && PointerPending(c, ops, i, n, p)
    ensures var memptrs := StateAt(c, EMPTY, ops, n).maps.memptrs;
            p in memptrs && memptrs[p] == ops[i].memptr
    decreases n
  {
    PointerPendingStep(c, ops, n - 1, i, p);
    PointerStep(c, StateAt(c, EMPTY, ops, n - 1), ops[n - 1], p);
    if !StoresPointerAt(c, ops, n - 1, p) {
      PointerPendingIsStored(c, ops, i, n - 1, p);
    }
  }

  lemma {:induction false} StoredPointerIsPending(c: Config, ops: seq<Op>, n: nat, p: Pid) returns (i: nat)
    requires n <= |ops| && p in StateAt(c, EMPTY, ops, n).maps.memptrs
    ensures PointerPending(c, ops, i, n, p)
    decreases n
  {
    PointerStep(c, StateAt(c, EMPTY, ops, n - 1), ops[n - 1], p);
    if StoresPointerAt(c, ops, n - 1, p) {
      i := n - 1;
    } else {
      i := StoredPointerIsPending(c, ops, n - 1, p);
    }
    PointerPendingStep(c, ops, n - 1, i, p);
  }

  /** The pointer that a posix_memalign exit finds is the last one that the process has
      stored and not yet taken, and there is none without such a store. */
  lemma PendingPointer(c: Config, ops: seq<Op>, n: nat, p: Pid)
    requires n <= |ops|
    ensures var memptrs := StateAt(c, EMPTY, ops, n).maps.memptrs;
            && (p in memptrs <==> exists i: nat :: PointerPending(c, ops, i, n, p))
            && forall i: nat :: PointerPending(c, ops, i, n, p) ==> memptrs[p] == ops[i].memptr
  {
    forall i: nat | PointerPending(c, ops, i, n, p)
      ensures p in StateAt(c, EMPTY, ops, n).maps.memptrs
      ensures StateAt(c, EMPTY, ops, n).maps.memptrs[p] == ops[i].memptr
    {
      PointerPendingIsStored(c, ops, i, n, p);
    }
    if p in StateAt(c, EMPTY, ops, n).maps.memptrs {
      var i := StoredPointerIsPending(c, ops, n, p);
    }
  }

  /** So a posix_memalign exit records the size of the enter it consumes at the address
      that user memory holds where that pointer points; when this cannot be read, it only
      takes the pointer, and without a pointer it changes nothing. */
  lemma MemalignTakesItsEnter(c: Config, ops: seq<Op>, j: nat, p: Pid, memory: UserMemory, stackId: I32, now: U64)
    requires j < |ops| && ops[j] == MemalignExit(p, memory, stackId, now)
    ensures forall i: nat :: PointerPending(c, ops, i, j, p) ==>
                               MemalignTakes(c, ops, j, p, ops[i].memptr, memory, stackId, now)
    ensures (forall i: nat :: !PointerPending(c, ops, i, j, p)) ==>
              StateAt(c, EMPTY, ops, j + 1) == StateAt(c, EMPTY, ops, j)
  {
    PendingPointer(c, ops, j, p);
    forall i: nat | PointerPending(c, ops, i, j, p)
      ensures MemalignTakes(c, ops, j, p, ops[i].memptr, memory, stackId, now)
    {
      PointerTaken(c, ops, j, p, ops[i].memptr, memory, stackId, now);
    }
  }

  ghost predicate MemalignTakes(
    c: Config, ops: seq<Op>, j: nat, p: Pid, memptr: U64, memory: UserMemory, stackId: I32, now: U64)
    requires j < |ops|
  {
    var found, after := ForgetMemptr(StateAt(c, EMPTY, ops, j), p), StateAt(c, EMPTY, ops, j + 1);
    if memptr !in memory then after == found
    else
      && (forall i: nat :: Consumes(c, ops, i, j, p) ==>
                             after == Take(found, p, ops[i].size, memory[memptr], stackId, now))
      && ((forall i: nat :: !Consumes(c, ops, i, j, p)) ==> after == found)
  }

  lemma PointerTaken(
    c: Config, ops: seq<Op>, j: nat, p: Pid, memptr: U64, memory: UserMemory, stackId: I32, now: U64)
    requires j < |ops| && ops[j] == MemalignExit(p, memory, stackId, now)
    requires p in StateAt(c, EMPTY, ops, j).maps.memptrs && StateAt(c, EMPTY, ops, j).maps.memptrs[p] == memptr
    ensures MemalignTakes(c, ops, j, p, memptr, memory, stackId, now)
  {
    var found := ForgetMemptr(StateAt(c, EMPTY, ops, j), p);
    PendingSize(c, ops, j, p);
    if memptr in memory {
      ExitIsTake(found, p, memory[memptr], stackId, now);
      forall i: nat
        ensures Consumes(c, ops, i, j, p) <==> Pending(c, ops, i, j, p)
      {}
    }
  }

  // ---------- threads that share a process ----------

  // Nothing that stores or takes a size of the process comes between two operations.
  predicate Undisturbed(c: Config, ops: seq<Op>, i: nat, j: nat, p: Pid)
    requires j < |ops|
  {
    forall k :: i < k < j ==> !StoresAt(c, ops, k, p) && !ExitsAt(c, ops, k, p)
  }

  /** Sizes are keyed by the process, so its threads share them. An exit takes the enter of
      its own call if and only if no other call of the process has stored or taken a size
      in between; otherwise it takes a later enter, or nothing at all. */
  lemma TakesOwnEnter(c: Config, ops: seq<Op>, i: nat, j: nat, p: Pid, address: U64, stackId: I32, now: U64)
    requires i < j < |ops| && StoresAt(c, ops, i, p) && ops[j] == Exit(p, address, stackId, now)
    ensures Consumes(c, ops, i, j, p) <==> Undisturbed(c, ops, i, j, p)
    ensures Undisturbed(c, ops, i, j, p) ==> TakesAt(c, ops, j, p, ops[i].size, address, stackId, now)
    ensures !Undisturbed(c, ops, i, j, p) ==>
              || StateAt(c, EMPTY, ops, j + 1) == StateAt(c, EMPTY, ops, j)
              || exists k :: i < k < j && Consumes(c, ops, k, j, p)
                             && TakesAt(c, ops, j, p, ops[k].size, address, stackId, now)
  {
    ExitTakesItsEnter(c, ops, j, p, address, stackId, now);
    if Undisturbed(c, ops, i, j, p) {
      assert Consumes(c, ops, i, j, p);
    } else if p in StateAt(c, EMPTY, ops, j).maps.sizes {
      var k := StoredIsPending(c, ops, j, p);
      assert Consumes(c, ops, k, j, p);
    } else {
      ExitIsTake(StateAt(c, EMPTY, ops, j), p, address, stackId, now);
    }
  }

  /** Two overlapping calls of one process: the first to return is recorded with the
      size of the second, which is not recorded at all. */
  lemma OverlappingCalls(
    c: Config, g: Ledger, p: Pid, first: U64, second: U64, a: U64, b: U64, s: I32, t: I32, now: U64)
    requires OpenFilters(c, p) && Room(g, p)
    ensures Run(c, g, [Enter(p, first, now), Enter(p, second, now), Exit(p, a, s, now), Exit(p, b, t, now)])
         == Take(g, p, second, a, s, now)
  {
    var g1 := Step(c, g, Enter(p, first, now));
    var g2 := Step(c, g1, Enter(p, second, now));
    EnterStores(c, g, p, first, now);
    EnterStores(c, g1, p, second, now);
    ExitIsTake(g2, p, a, s, now);
    TakeForgets(g2, g, p, second, a, s, now);
    ExitIsTake(Take(g, p, second, a, s, now), p, b, t, now);
    RunConcat(c, g, [Enter(p, first, now), Enter(p, second, now)], [Exit(p, a, s, now), Exit(p, b, t, now)]);
    assert [Enter(p, first, now), Enter(p, second, now)] + [Exit(p, a, s, now), Exit(p, b, t, now)]
        == [Enter(p, first, now), Enter(p, second, now), Exit(p, a, s, now), Exit(p, b, t, now)];
    RunTwo(c, g, Enter(p, first, now), Enter(p, second, now));
    RunTwo(c, g2, Exit(p, a, s, now), Exit(p, b, t, now));
  }

  // ---------- nested calls of one thread ----------

  // The calls of a thread, one after the other, each with the calls made inside it.
  datatype Calls =
    | Done
    | Call(size: U64, result: U64, stackId: I32, entered: U64, exited: U64, inner: Calls, next: Calls)

  function Trace(p: Pid, calls: Calls): seq<Op> {
    match calls
    case Done => []
    case Call(size, result, stackId, entered, exited, inner, next) =>
      [Enter(p, size, entered)] + Trace(p, inner) + [Exit(p, result, stackId, exited)] + Trace(p, next)
  }

  // Only the calls that make no calls themselves record an allocation.
  function TakeLeaves(g: Ledger, p: Pid, calls: Calls): Ledger
    decreases calls
  {
    match calls
    case Done => g
    case Call(size, result, stackId, _, exited, inner, next) =>
      TakeLeaves(
        if inner.Done? then Take(g, p, size, result, stackId, exited) else TakeLeaves(g, p, inner),
        p, next)
  }

  predicate OpenFilters(c: Config, p: Pid) {
    c.minSize == 0 && c.maxSize == 0xFFFF_FFFF_FFFF_FFFF && c.sampleRate <= 1 && (c.targetPid == 0 || c.targetPid == p)
  }

  // Whether a size of the process can be stored.
  predicate Room(g: Ledger, p: Pid) {
    |Forget(g, p).maps.sizes| < SIZES_MAX_ENTRIES
  }

  lemma TakeForgets(g: Ledger, h: Ledger, p: Pid, size: U64, address: U64, stackId: I32, now: U64)
    requires Forget(g, p) == Forget(h, p)
    ensures Take(g, p, size, address, stackId, now) == Take(h, p, size, address, stackId, now)
    ensures Take(g, p, size, address, stackId, now).maps.sizes == Forget(g, p).maps.sizes
  {}

  // After any calls nothing is pending, and what was pending before is of no account.
  lemma {:induction false} LeavesForget(g: Ledger, h: Ledger, p: Pid, calls: Calls)
    requires calls.Call? && Forget(g, p) == Forget(h, p)
    ensures TakeLeaves(g, p, calls) == TakeLeaves(h, p, calls)
    ensures TakeLeaves(g, p, calls).maps.sizes == Forget(g, p).maps.sizes
    decreases calls
  {
    var g' := if calls.inner.Done? then Take(g, p, calls.size, calls.result, calls.stackId, calls.exited)
    else TakeLeaves(g, p, calls.inner);
    if calls.inner.Call? {
      LeavesForget(g, h, p, calls.inner);
    } else {
      TakeForgets(g, h, p, calls.size, calls.result, calls.stackId, calls.exited);
    }
    if calls.next.Call? {
      DeleteAbsent(g'.maps.sizes, p);
      LeavesForget(g', g', p, calls.next);
    }
  }

  lemma EnterStores(c: Config, g: Ledger, p: Pid, size: U64, now: U64)
    requires OpenFilters(c, p) && Room(g, p)
    ensures var g' := Step(c, g, Enter(p, size, now));
            p in g'.maps.sizes && g'.maps.sizes[p] == size && Forget(g', p) == Forget(g, p)
  {
    if p !in g.maps.sizes {
      DeleteAbsent(g.maps.sizes, p);
    }
    DeletePut(g.maps.sizes, p, size);
    assert Step(c, g, Enter(p, size, now)).maps.sizes == g.maps.sizes[p := size];
  }

  // One call with the calls made inside it, after which the others follow.
  lemma CallIsTaken(c: Config, g: Ledger, p: Pid, calls: Calls, inside: Ledger)
    requires calls.Call? && OpenFilters(c, p) && Room(g, p)
    requires inside == TakeLeaves(Step(c, g, Enter(p, calls.size, calls.entered)), p, calls.inner)
    ensures Step(c, inside, Exit(p, calls.result, calls.stackId, calls.exited))
         == if calls.inner.Done? then Take(g, p, calls.size, calls.result, calls.stackId, calls.exited)
            else TakeLeaves(g, p, calls.inner)
  {
    var entered := Step(c, g, Enter(p, calls.size, calls.entered));
    EnterStores(c, g, p, calls.size, calls.entered);
    ExitIsTake(inside, p, calls.result, calls.stackId, calls.exited);
    if calls.inner.Call? {
      LeavesForget(entered, g, p, calls.inner);
    }
  }

  /** In a well-nested call tree exactly the innermost calls are recorded, each with
      its own size; a call that makes calls finds its size already consumed. */
  lemma {:induction false} LeavesAreRecorded(c: Config, g: Ledger, p: Pid, calls: Calls)
    requires OpenFilters(c, p) && Room(g, p)
    ensures Run(c, g, Trace(p, calls)) == TakeLeaves(g, p, calls)
    decreases calls
  {
    if calls.Done? {
    } else {
      var enter, exit := Enter(p, calls.size, calls.entered), Exit(p, calls.result, calls.stackId, calls.exited);
      var entered := Step(c, g, enter);
      EnterStores(c, g, p, calls.size, calls.entered);
      LeavesAreRecorded(c, entered, p, calls.inner);
      var inside := Run(c, entered, Trace(p, calls.inner));
      CallIsTaken(c, g, p, calls, inside);
      var left := Step(c, inside, exit);
      if calls.inner.Call? {
        LeavesForget(g, g, p, calls.inner);
      }
      assert Forget(left, p).maps.sizes == Forget(g, p).maps.sizes;
      LeavesAreRecorded(c, left, p, calls.next);
      RunConcat(c, g, [enter] + Trace(p, calls.inner) + [exit], Trace(p, calls.next));
      RunConcat(c, g, [enter] + Trace(p, calls.inner), [exit]);
      RunConcat(c, g, [enter], Trace(p, calls.inner));
      RunOne(c, g, enter);
      RunOne(c, inside, exit);
    }
  }

  // ---------- posix_memalign ----------

  lemma MemptrStored(c: Config, g: Ledger, p: Pid, memptr: U64)
    requires |g.maps.memptrs| < MEMPTRS_MAX_ENTRIES
    ensures var stored := Step(c, g, SetMemptr(p, memptr));
            && p in stored.maps.memptrs && stored.maps.memptrs[p] == memptr
            && ForgetMemptr(stored, p) == ForgetMemptr(g, p)
            && stored.maps.sizes == g.maps.sizes
  {
    assert Step(c, g, SetMemptr(p, memptr)).maps.memptrs == g.maps.memptrs[p := memptr];
    DeletePut(g.maps.memptrs, p, memptr);
  }

  lemma EntryStores(c: Config, g: Ledger, p: Pid, memptr: U64, size: U64, entered: U64, entry: Ledger)
    requires OpenFilters(c, p) && Room(g, p) && |g.maps.memptrs| < MEMPTRS_MAX_ENTRIES
    requires entry == Step(c, Step(c, g, SetMemptr(p, memptr)), Enter(p, size, entered))
    ensures p in entry.maps.memptrs && entry.maps.memptrs[p] == memptr
    ensures p in entry.maps.sizes && entry.maps.sizes[p] == size
    ensures Forget(ForgetMemptr(entry, p), p) == Forget(ForgetMemptr(g, p), p)
  {
    var stored := Step(c, g, SetMemptr(p, memptr));
    MemptrStored(c, g, p, memptr);
    EnterStores(c, stored, p, size, entered);
    ForgetBoth(entry, stored, p);
  }

  lemma MemalignEntry(c: Config, g: Ledger, p: Pid, memptr: U64, size: U64, entered: U64)
    requires OpenFilters(c, p) && Room(g, p) && |g.maps.memptrs| < MEMPTRS_MAX_ENTRIES
    ensures var entry := Run(c, g, Program(c, PosixMemalignEnter(p, memptr, size, entered)));
            && p in entry.maps.memptrs && entry.maps.memptrs[p] == memptr
            && p in entry.maps.sizes && entry.maps.sizes[p] == size
            && Forget(ForgetMemptr(entry, p), p) == Forget(ForgetMemptr(g, p), p)
  {
    var entry := Run(c, g, Program(c, PosixMemalignEnter(p, memptr, size, entered)));
    assert Program(c, PosixMemalignEnter(p, memptr, size, entered)) == [SetMemptr(p, memptr), Enter(p, size, entered)];
    RunTwo(c, g, SetMemptr(p, memptr), Enter(p, size, entered));
    EntryStores(c, g, p, memptr, size, entered, entry);
  }

  lemma ForgetBoth(g: Ledger, h: Ledger, p: Pid)
    requires Forget(g, p) == Forget(h, p)
    ensures g.maps.memptrs == h.maps.memptrs
    ensures Forget(ForgetMemptr(g, p), p) == Forget(ForgetMemptr(h, p), p)
  {}

  /** A posix_memalign call, with room for its pointer and its size, records its size
      at the address that user memory holds at its pointer. When that memory cannot be
      read the size stays pending, for the next exit of the process to take. */
  lemma MemalignRecords(
    c: Config, g: Ledger, p: Pid, memptr: U64, size: U64, memory: UserMemory, stackId: I32, entered: U64, exited: U64)
    requires OpenFilters(c, p) && Room(g, p) && |g.maps.memptrs| < MEMPTRS_MAX_ENTRIES
    ensures var entry := Run(c, g, Program(c, PosixMemalignEnter(p, memptr, size, entered)));
            var exit := Run(c, entry, Program(c, PosixMemalignExit(p, memory, stackId, exited)));
            if memptr in memory then exit == Take(ForgetMemptr(g, p), p, size, memory[memptr], stackId, exited)
            else p in exit.maps.sizes && exit.maps.sizes[p] == size && Forget(exit, p) == Forget(ForgetMemptr(g, p), p)
  {
    var entry := Run(c, g, Program(c, PosixMemalignEnter(p, memptr, size, entered)));
    MemalignEntry(c, g, p, memptr, size, entered);
    MemalignExits(c, entry, p, memory, stackId, exited);
    if memptr in memory {
      TakeForgets(ForgetMemptr(entry, p), ForgetMemptr(g, p), p, size, memory[memptr], stackId, exited);
    }
  }

  lemma MemalignExits(c: Config, g: Ledger, p: Pid, memory: UserMemory, stackId: I32, now: U64)
    requires p in g.maps.memptrs && p in g.maps.sizes
    ensures Run(c, g, Program(c, PosixMemalignExit(p, memory, stackId, now)))
         == var memptr := g.maps.memptrs[p];
            if memptr in memory then Take(ForgetMemptr(g, p), p, g.maps.sizes[p], memory[memptr], stackId, now)
            else ForgetMemptr(g, p)
  {
    RunOne(c, g, MemalignExit(p, memory, stackId, now));
    if g.maps.memptrs[p] in memory {
      ExitIsTake(ForgetMemptr(g, p), p, memory[g.maps.memptrs[p]], stackId, now);
    }
  }
}
