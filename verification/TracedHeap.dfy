/** The maps against the heap of the traced process, for malloc, calloc, realloc and
    free calls that do not overlap. */
module TracedHeap {
  import opened Words
  import opened BpfMaps
  import opened Accounting
  import opened Totals
  import opened Sums
  import opened Conservation
  import opened Exclusion
  import opened Simulation
  import opened Ledgers
  import Pairing

  // ---------- the heap, as the C library promises it ----------

  datatype Block = Block(size: nat, stackId: I32)

  type Heap = map<U64, Block>

  // A call with its result; a result of 0 is a failure.
  datatype Call =
    | Malloc(size: U64, result: U64, stackId: I32, entered: U64, exited: U64)
    | Calloc(nmemb: U64, size: U64, result: U64, stackId: I32, entered: U64, exited: U64)
    | Realloc(ptr: U64, size: U64, result: U64, stackId: I32, entered: U64, exited: U64)
    | Release(ptr: U64)

  function HeapStep(heap: Heap, call: Call): Heap {
    match call
    case Malloc(size, result, stackId, _, _) =>
      if result == 0 then heap else heap[result := Block(size, stackId)]
    case Calloc(nmemb, size, result, stackId, _, _) =>
      if result == 0 then heap else heap[result := Block(nmemb * size, stackId)]
    case Realloc(ptr, size, result, stackId, _, _) =>
      if result != 0 then (heap - {ptr})[result := Block(size, stackId)]
      else if size == 0 then heap - {ptr}
      else heap
    case Release(ptr) => heap - {ptr}
  }

  // The allocator hands out addresses that are not in use, and calloc fails when
  // the product does not fit. Pointers from before the tracing started may be
  // passed in.
  predicate Allowed(heap: Heap, call: Call) {
    match call
    case Malloc(_, result, _, _, _) => result !in heap
    case Calloc(nmemb, size, result, _, _, _) =>
      result !in heap && (result != 0 ==> nmemb * size < 0x1_0000_0000_0000_0000)
    case Realloc(ptr, _, result, _, _, _) => result !in heap - {ptr}
    case Release(_) => true
  }

  // realloc could not move a live block, which therefore stays where it is.
  predicate FailedRealloc(heap: Heap, call: Call) {
    call.Realloc? && call.result == 0 && call.size > 0 && call.ptr in heap
  }

  // ---------- the same calls, as the probes see them ----------

  function Probes(p: Pid, call: Call): seq<Handler> {
    match call
    case Malloc(size, result, stackId, entered, exited) =>
      [AllocEnter(p, size, entered), AllocExit(p, result, stackId, exited)]
    case Calloc(nmemb, size, result, stackId, entered, exited) =>
      [CallocEnter(p, nmemb, size, entered), AllocExit(p, result, stackId, exited)]
    case Realloc(ptr, size, result, stackId, entered, exited) =>
      [ReallocEnter(p, ptr, size, entered), AllocExit(p, result, stackId, exited)]
    case Release(ptr) => [FreeEnter(ptr)]
  }

  function Traced(c: Config, p: Pid, g: Ledger, call: Call): Ledger {
    RunHandlers(c, g, Probes(p, call))
  }

  predicate Agrees(heap: Heap, g: Ledger) {
    && g.maps.sizes == map[]
    && g.lost == []
    && g.maps.allocs.Keys == heap.Keys
    && forall a :: a in heap ==> g.maps.allocs[a].size == heap[a].size && g.maps.allocs[a].stackId == heap[a].stackId
  }

  lemma OneHandler(c: Config, g: Ledger, h: Handler)
    ensures RunHandlers(c, g, [h]) == Run(c, g, Program(c, h))
  {
    assert RunHandlers(c, Run(c, g, Program(c, h)), [h][1..]) == Run(c, g, Program(c, h));
  }

  lemma TwoHandlers(c: Config, g: Ledger, h: Handler, k: Handler)
    ensures RunHandlers(c, g, [h, k]) == Run(c, Run(c, g, Program(c, h)), Program(c, k))
  {
    assert [h, k][1..] == [k];
    OneHandler(c, Run(c, g, Program(c, h)), k);
  }

  // An enter and its exit, with nothing pending before.
  lemma PairRecords(c: Config, g: Ledger, p: Pid, size: U64, result: U64, stackId: I32, entered: U64, exited: U64)
    requires Pairing.OpenFilters(c, p) && g.maps.sizes == map[]
    ensures var g' := Run(c, Run(c, g, [Enter(p, size, entered)]), [Exit(p, result, stackId, exited)]);
            var info := AllocInfo(size, exited, stackId);
            g' == if result == 0 then g else CountAdd(InsertAlloc(g, result, info), info)
  {
    var g1 := Step(c, g, Enter(p, size, entered));
    RunOne(c, g, Enter(p, size, entered));
    RunOne(c, g1, Exit(p, result, stackId, exited));
    assert g1.maps.sizes == map[p := size];
    assert g1.maps.sizes - {p} == map[];
  }

  // What a call amounts to: an optional free, then an optional record.
  function Freed(c: Config, g: Ledger, call: Call): Ledger {
    if call.Realloc? || call.Release? then Step(c, g, Free(call.ptr)) else g
  }

  function Requested(call: Call): U64
    requires !call.Release?
  {
    if call.Calloc? then Wrap64(call.nmemb * call.size) else call.size
  }

  // Up to the exit, a call frees what it frees and enters the size it asks for.
  lemma CallEnters(c: Config, p: Pid, g: Ledger, call: Call)
    requires !call.Release?
    ensures Run(c, g, Program(c, Probes(p, call)[0]))
         == Run(c, Freed(c, g, call), [Enter(p, Requested(call), call.entered)])
  {
    if call.Realloc? {
      RunTwo(c, g, Free(call.ptr), Enter(p, call.size, call.entered));
      RunOne(c, Freed(c, g, call), Enter(p, call.size, call.entered));
    }
  }

  lemma FreeKeepsSizes(c: Config, g: Ledger, call: Call)
    ensures Freed(c, g, call).maps.sizes == g.maps.sizes
  {}

  lemma CallRecords(c: Config, p: Pid, g: Ledger, call: Call)
    requires Pairing.OpenFilters(c, p) && g.maps.sizes == map[]
    ensures Traced(c, p, g, call) ==
            if call.Release? || call.result == 0 then Freed(c, g, call)
            else
              var info := AllocInfo(Requested(call), call.exited, call.stackId);
              CountAdd(InsertAlloc(Freed(c, g, call), call.result, info), info)
  {
    if call.Release? {
      OneHandler(c, g, FreeEnter(call.ptr));
      RunOne(c, g, Free(call.ptr));
    } else {
      TwoHandlers(c, g, Probes(p, call)[0], AllocExit(p, call.result, call.stackId, call.exited));
      CallEnters(c, p, g, call);
      FreeKeepsSizes(c, g, call);
      PairRecords(c, Freed(c, g, call), p, Requested(call), call.result, call.stackId, call.entered, call.exited);
    }
  }

  function Remaining(heap: Heap, call: Call): Heap {
    if call.Realloc? || call.Release? then heap - {call.ptr} else heap
  }

  lemma FreeAgrees(c: Config, heap: Heap, g: Ledger, call: Call)
    requires Agrees(heap, g)
    ensures Agrees(Remaining(heap, call), Freed(c, g, call))
  {
    if (call.Realloc? || call.Release?) && call.ptr !in g.maps.allocs {
      assert heap - {call.ptr} == heap;
    }
  }

  lemma RecordAgrees(heap: Heap, g: Ledger, address: U64, info: AllocInfo)
    requires Agrees(heap, g) && address !in heap && |heap| < ALLOCS_MAX_ENTRIES
    ensures Agrees(heap[address := Block(info.size, info.stackId)], CountAdd(InsertAlloc(g, address, info), info))
  {
    assert |g.maps.allocs.Keys| == |heap.Keys|;
  }

  lemma FailureRefines(c: Config, p: Pid, heap: Heap, g: Ledger, call: Call)
    requires Pairing.OpenFilters(c, p) && Agrees(heap, g)
    requires call.Release? || call.result == 0
    ensures Agrees(HeapStep(heap, call), Traced(c, p, g, call)) <==> !FailedRealloc(heap, call)
  {
    CallRecords(c, p, g, call);
    FreeAgrees(c, heap, g, call);
    if FailedRealloc(heap, call) {
      assert call.ptr in HeapStep(heap, call).Keys && call.ptr !in Remaining(heap, call).Keys;
    } else if call.Realloc? && call.ptr !in heap {
      assert Remaining(heap, call) == heap;
    }
  }

  lemma SuccessRefines(c: Config, p: Pid, heap: Heap, g: Ledger, call: Call)
    requires Pairing.OpenFilters(c, p) && Agrees(heap, g) && Allowed(heap, call)
    requires !call.Release? && call.result != 0
    requires |HeapStep(heap, call)| <= ALLOCS_MAX_ENTRIES
    ensures Agrees(HeapStep(heap, call), Traced(c, p, g, call))
  {
    var left := Remaining(heap, call);
    var info := AllocInfo(Requested(call), call.exited, call.stackId);
    assert HeapStep(heap, call) == left[call.result := Block(info.size, info.stackId)];
    CallRecords(c, p, g, call);
    FreeAgrees(c, heap, g, call);
    RecordAgrees(left, Freed(c, g, call), call.result, info);
  }

  /** From a boundary where maps and heap agree, they agree at the next one exactly
      when the call is not a realloc that failed on a live block. */
  lemma CallRefines(c: Config, p: Pid, heap: Heap, g: Ledger, call: Call)
    requires Pairing.OpenFilters(c, p)
    requires Agrees(heap, g) && Allowed(heap, call)
    requires |HeapStep(heap, call)| <= ALLOCS_MAX_ENTRIES
    ensures Agrees(HeapStep(heap, call), Traced(c, p, g, call)) <==> !FailedRealloc(heap, call)
  {
    if call.Release? || call.result == 0 {
      FailureRefines(c, p, heap, g, call);
    } else {
      SuccessRefines(c, p, heap, g, call);
    }
  }

  // ---------- whole runs ----------

  function HeapAt(calls: seq<Call>, k: nat): Heap
    requires k <= |calls|
  {
    if k == 0 then map[] else HeapStep(HeapAt(calls, k - 1), calls[k - 1])
  }

  function TracedAt(c: Config, p: Pid, calls: seq<Call>, k: nat): Ledger
    requires k <= |calls|
  {
    if k == 0 then EMPTY else Traced(c, p, TracedAt(c, p, calls, k - 1), calls[k - 1])
  }

  // A run that the C library can produce, within the capacity of `allocs`.
  predicate PossibleRun(calls: seq<Call>) {
    && (forall k :: 0 <= k < |calls| ==> Allowed(HeapAt(calls, k), calls[k]))
    && (forall k :: 0 <= k <= |calls| ==> |HeapAt(calls, k)| <= ALLOCS_MAX_ENTRIES)
  }

  // At every boundary up to the `n`-th.
  predicate AgreesUpTo(c: Config, p: Pid, calls: seq<Call>, n: nat)
    requires n <= |calls|
  {
    Agrees(HeapAt(calls, n), TracedAt(c, p, calls, n)) && (n > 0 ==> AgreesUpTo(c, p, calls, n - 1))
  }

  predicate NoFailedRealloc(calls: seq<Call>, n: nat)
    requires n <= |calls|
  {
    n > 0 ==> !FailedRealloc(HeapAt(calls, n - 1), calls[n - 1]) && NoFailedRealloc(calls, n - 1)
  }

  lemma BoundaryAgrees(c: Config, p: Pid, calls: seq<Call>, k: nat)
    requires Pairing.OpenFilters(c, p) && PossibleRun(calls) && k < |calls|
    requires Agrees(HeapAt(calls, k), TracedAt(c, p, calls, k))
    ensures Agrees(HeapAt(calls, k + 1), TracedAt(c, p, calls, k + 1)) <==> !FailedRealloc(HeapAt(calls, k), calls[k])
  {
    var heap, g := HeapAt(calls, k), TracedAt(c, p, calls, k);
    assert HeapAt(calls, k + 1) == HeapStep(heap, calls[k]);
    assert TracedAt(c, p, calls, k + 1) == Traced(c, p, g, calls[k]);
    CallRefines(c, p, heap, g, calls[k]);
  }

  /** Refinement of the traced heap: `allocs` holds exactly the outstanding addresses
      with their requested sizes at every call boundary, if and only if no realloc of
      a live block to a non-zero size fails. */
  lemma {:induction false} HeapIsTraced(c: Config, p: Pid, calls: seq<Call>, n: nat)
    requires Pairing.OpenFilters(c, p) && PossibleRun(calls) && n <= |calls|
    ensures AgreesUpTo(c, p, calls, n) <==> NoFailedRealloc(calls, n)
    decreases n
  {
    if n == 0 {
    } else {
      HeapIsTraced(c, p, calls, n - 1);
      if AgreesUpTo(c, p, calls, n - 1) {
        BoundaryAgrees(c, p, calls, n - 1);
      }
    }
  }

  lemma {:induction false} TracedIndexed(c: Config, p: Pid, calls: seq<Call>, k: nat)
    requires k <= |calls|
    ensures Inv(Quiet(TracedAt(c, p, calls, k)))
    decreases k
  {
    if k == 0 {
      StartInv();
    } else {
      TracedIndexed(c, p, calls, k - 1);
      HandlersInv(c, TracedAt(c, p, calls, k - 1), Probes(p, calls[k - 1]));
    }
  }

  lemma HandlersInv(c: Config, g: Ledger, hs: seq<Handler>)
    requires Inv(Quiet(g))
    ensures Inv(Quiet(RunHandlers(c, g, hs)))
  {
    RunHandlersIsRun(c, g, hs);
    RunInv(c, g, Flatten(c, hs));
  }

  // What the process has outstanding from one stack.
  function BytesFrom(key: U64): Block -> int {
    (b: Block) => if StackKey(b.stackId) == key then b.size else 0
  }

  function BlocksFrom(key: U64): Block -> int {
    (b: Block) => if StackKey(b.stackId) == key then 1 else 0
  }

  lemma AgreementOfTotals(heap: Heap, g: Ledger, key: U64)
    requires Agrees(heap, g)
    ensures Live(Bytes, key, g.maps.allocs) == Sum(heap, BytesFrom(key))
    ensures Live(Count, key, g.maps.allocs) == Sum(heap, BlocksFrom(key))
  {
    SumSame(g.maps.allocs, AtStack(Bytes, key), heap, BytesFrom(key));
    SumSame(g.maps.allocs, AtStack(Count, key), heap, BlocksFrom(key));
  }

  /** And `combined_allocs` is that heap grouped by stack: an untracked stack has
      nothing outstanding unless the index is full, and a tracked word decodes to the
      outstanding bytes and blocks precisely while the bytes stay below 2^40. */
  lemma HeapIsGrouped(c: Config, p: Pid, calls: seq<Call>, k: nat, key: U64)
    requires Pairing.OpenFilters(c, p) && PossibleRun(calls) && k <= |calls| && NoFailedRealloc(calls, k)
    ensures var heap, combined := HeapAt(calls, k), TracedAt(c, p, calls, k).maps.combined;
            && (key !in combined ==> |combined| == COMBINED_ALLOCS_MAX_ENTRIES || Sum(heap, BlocksFrom(key)) == 0)
            && (key in combined ==>
                  && (Decoded(combined[key]).totalSize == Sum(heap, BytesFrom(key))
                      <==> Sum(heap, BytesFrom(key)) < 0x100_0000_0000)
                  && (Sum(heap, BytesFrom(key)) < 0x100_0000_0000 ==>
                        Decoded(combined[key]).numberOfAllocs == Sum(heap, BlocksFrom(key))))
  {
    var heap, g := HeapAt(calls, k), TracedAt(c, p, calls, k);
    HeapIsTraced(c, p, calls, k);
    assert Agrees(heap, g);
    TracedIndexed(c, p, calls, k);
    QuietIndexed(g);
    AgreementOfTotals(heap, g, key);
    if key in g.maps.combined {
      ExactWithoutLosses(g, key);
    } else if |g.maps.combined| < COMBINED_ALLOCS_MAX_ENTRIES {
      SumZero(g.maps.allocs, AtStack(Count, key));
    }
  }

  /** A failed realloc does break the agreement: the block is still there, but the
      probe has dropped it. */
  lemma FailedReallocExample(c: Config, p: Pid)
    requires Pairing.OpenFilters(c, p)
    ensures var calls := [Malloc(8, 0x1000, 5, 0, 0), Realloc(0x1000, 16, 0, 5, 0, 0)];
            HeapAt(calls, 2) == map[0x1000 := Block(8, 5)] && !Agrees(HeapAt(calls, 2), TracedAt(c, p, calls, 2))
  {
    var calls := [Malloc(8, 0x1000, 5, 0, 0), Realloc(0x1000, 16, 0, 5, 0, 0)];
    assert HeapAt(calls, 0) == map[];
    assert HeapAt(calls, 1) == map[0x1000 := Block(8, 5)];
    assert HeapAt(calls, 2) == map[0x1000 := Block(8, 5)];
    assert PossibleRun(calls);
    BoundaryAgrees(c, p, calls, 0);
    BoundaryAgrees(c, p, calls, 1);
  }

  // A malloc of a stack that the index tracks, or can still take in.
  lemma MallocCounts(c: Config, p: Pid, g: Ledger, size: U64, result: U64, stackId: I32)
    requires Pairing.OpenFilters(c, p) && g.maps.sizes == map[]
    requires result != 0 && result !in g.maps.allocs && |g.maps.allocs| < ALLOCS_MAX_ENTRIES
    ensures var g' := Traced(c, p, g, Malloc(size, result, stackId, 0, 0));
            && g'.maps.sizes == map[]
            && g'.maps.allocs == g.maps.allocs[result := AllocInfo(size, 0, stackId)]
            && g'.maps.combined == AddStat(g.maps.combined, StackKey(stackId), size)
  {
    CallRecords(c, p, g, Malloc(size, result, stackId, 0, 0));
  }

  function TwoMallocs(): seq<Call> {
    [Malloc(0xFF_FFFF_FFFF, 0x1000, 5, 0, 0), Malloc(1, 0x2000, 5, 0, 0)]
  }

  lemma CarryWord(c: Config, p: Pid, g: Ledger)
    requires Pairing.OpenFilters(c, p) && g.maps.sizes == map[]
    requires 0x2000 !in g.maps.allocs && |g.maps.allocs| < ALLOCS_MAX_ENTRIES
    requires 5 in g.maps.combined && g.maps.combined[5] == 0x1FF_FFFF_FFFF
    ensures var combined := Traced(c, p, g, Malloc(1, 0x2000, 5, 0, 0)).maps.combined;
            5 in combined && combined[5] == 0x300_0000_0000
  {
    MallocCounts(c, p, g, 1, 0x2000, 5);
    AddStatTracked(g.maps.combined, 5, 1);
    assert Increment(1) == 0x100_0000_0001;
  }

  lemma FirstWord(c: Config, p: Pid)
    requires Pairing.OpenFilters(c, p)
    ensures var g := Traced(c, p, EMPTY, Malloc(0xFF_FFFF_FFFF, 0x1000, 5, 0, 0));
            && g.maps.sizes == map[] && g.maps.combined == map[5 := 0x1FF_FFFF_FFFF]
            && g.maps.allocs == map[0x1000 := AllocInfo(0xFF_FFFF_FFFF, 0, 5)]
  {
    MallocCounts(c, p, EMPTY, 0xFF_FFFF_FFFF, 0x1000, 5);
    AddStatFresh(map[], 5, 0xFF_FFFF_FFFF);
  }

  lemma CarriedWord(c: Config, p: Pid)
    requires Pairing.OpenFilters(c, p)
    ensures var combined := TracedAt(c, p, TwoMallocs(), 2).maps.combined;
            5 in combined && combined[5] == 0x300_0000_0000
  {
    FirstWord(c, p);
    assert TracedAt(c, p, TwoMallocs(), 0) == EMPTY;
    CarryWord(c, p, TracedAt(c, p, TwoMallocs(), 1));
  }

  /** The bound of 2^40 matters: two blocks that reach it together carry into the
      count, and the word of their stack decodes to three blocks of no bytes. */
  lemma CarryExample(c: Config, p: Pid)
    requires Pairing.OpenFilters(c, p)
    ensures var combined := TracedAt(c, p, TwoMallocs(), 2).maps.combined;
            5 in combined && Decoded(combined[5]).totalSize == 0 && Decoded(combined[5]).numberOfAllocs == 3
  {
    CarriedWord(c, p);
    DecodedFields(0x300_0000_0000, 0, 3);
  }
}
