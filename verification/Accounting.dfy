/** What each program of bpf/memleak.bpf.c does to the four maps, as functions on
    values. The class in Tracer.dfy is proved to compute these functions; the
    properties of whole runs are proved about them. */
module Accounting {
  import opened Words
  import opened BpfMaps

  // The read-only variables set before the programs are loaded.
  datatype Config = Config(
    minSize: U64, maxSize: U64, pageSize: U64, sampleRate: U64,
    waMissingFree: bool, targetPid: I32)

  datatype AllocInfo = AllocInfo(size: U64, timestampNs: U64, stackId: I32)

  type Allocs = map<U64, AllocInfo>

  datatype Maps = Maps(
    sizes: map<Pid, U64>,
    memptrs: map<U64, U64>,
    allocs: Allocs,
    combined: map<U64, U64>)

  // An allocation that was added to the statistics but has no entry in `allocs`:
  // its entry was overwritten by a later one, or refused by a full map.
  datatype Loss = Overwritten(info: AllocInfo) | Refused(info: AllocInfo)

  // The maps together with the history of losses.
  datatype Ledger = Ledger(maps: Maps, lost: seq<Loss>)

  const EMPTY := Ledger(Maps(map[], map[], map[], map[]), [])

  // The addresses that bpf_probe_read_user can read, with what it finds there.
  type UserMemory = map<U64, U64>

  // One call of a gen_* function, or one use of the `memptrs` map. Clock values,
  // stack ids and the outcome of reading user memory are inputs.
  datatype Op =
    | Enter(pid: Pid, size: U64, now: U64)
    | Exit(pid: Pid, address: U64, stackId: I32, now: U64)
    | Free(address: U64)
    | SetMemptr(pid: Pid, memptr: U64)
    | MemalignExit(pid: Pid, memory: UserMemory, stackId: I32, now: U64)

  // ---------- update_statistics_add and update_statistics_del ----------

  function TryInit(combined: map<U64, U64>, key: U64): map<U64, U64> {
    UpdateElem(combined, COMBINED_ALLOCS_MAX_ENTRIES, key, 0, BPF_NOEXIST).content
  }

  function AddStat(combined: map<U64, U64>, key: U64, size: U64): map<U64, U64> {
    var m := TryInit(combined, key);
    if key in m then m[key := AtomicAdd(m[key], Increment(size))] else m
  }

  function SubStat(combined: map<U64, U64>, key: U64, size: U64): map<U64, U64> {
    if key in combined then combined[key := AtomicSub(combined[key], Increment(size))] else combined
  }

  lemma FirstIncrement(size: U64)
    ensures AtomicAdd(0, Increment(size)) == Increment(size)
  {}

  // The first allocation of a stack sets its word to one increment.
  lemma AddStatFresh(combined: map<U64, U64>, key: U64, size: U64)
    requires key !in combined && |combined| < COMBINED_ALLOCS_MAX_ENTRIES
    ensures AddStat(combined, key, size) == combined[key := Increment(size)]
  {
    FirstIncrement(size);
    assert combined[key := 0][key := Increment(size)] == combined[key := Increment(size)];
  }

  lemma AddStatTracked(combined: map<U64, U64>, key: U64, size: U64)
    requires key in combined
    ensures AddStat(combined, key, size) == combined[key := AtomicAdd(combined[key], Increment(size))]
  {}

  // ---------- gen_alloc_enter ----------

  predicate Accepts(c: Config, pid: Pid, size: U64, now: U64) {
    && c.minSize <= size <= c.maxSize
    && (c.sampleRate > 1 ==> now % c.sampleRate == 0)
    && (c.targetPid != 0 ==> pid == c.targetPid)
  }

  function StoreSize(m: Maps, pid: Pid, size: U64): Maps {
    m.(sizes := UpdateElem(m.sizes, SIZES_MAX_ENTRIES, pid, size, BPF_ANY).content)
  }

  function StoreMemptr(m: Maps, pid: Pid, memptr: U64): Maps {
    m.(memptrs := UpdateElem(m.memptrs, MEMPTRS_MAX_ENTRIES, pid, memptr, BPF_ANY).content)
  }

  // ---------- gen_alloc_exit2 ----------

  function LossOf(allocs: Allocs, address: U64, info: AllocInfo): seq<Loss> {
    if address in allocs then [Overwritten(allocs[address])]
    else if |allocs| >= ALLOCS_MAX_ENTRIES then [Refused(info)]
    else []
  }

  // The one map operation that records an allocation.
  function InsertAlloc(g: Ledger, address: U64, info: AllocInfo): Ledger {
    Ledger(
      g.maps.(allocs := UpdateElem(g.maps.allocs, ALLOCS_MAX_ENTRIES, address, info, BPF_ANY).content),
      g.lost + LossOf(g.maps.allocs, address, info))
  }

  function CountAdd(g: Ledger, info: AllocInfo): Ledger {
    g.(maps := g.maps.(combined := AddStat(g.maps.combined, StackKey(info.stackId), info.size)))
  }

  function RunExit(g: Ledger, pid: Pid, address: U64, stackId: I32, now: U64): Ledger {
    if pid !in g.maps.sizes then g
    else
      var info := AllocInfo(g.maps.sizes[pid], now, stackId);
      var taken := g.(maps := g.maps.(sizes := DeleteElem(g.maps.sizes, pid)));
      if address == 0 then taken
      else CountAdd(InsertAlloc(taken, address, info), info)
  }

  // ---------- gen_free_enter ----------

  function RunFree(g: Ledger, address: U64): Ledger {
    if address !in g.maps.allocs then g
    else
      var info := g.maps.allocs[address];
      g.(maps := g.maps.(
      allocs := DeleteElem(g.maps.allocs, address),
      combined := SubStat(g.maps.combined, StackKey(info.stackId), info.size)))
  }

  // ---------- posix_memalign_exit ----------

  function RunMemalignExit(g: Ledger, pid: Pid, memory: UserMemory, stackId: I32, now: U64): Ledger {
    if pid !in g.maps.memptrs then g
    else
      var memptr := g.maps.memptrs[pid];
      var taken := g.(maps := g.maps.(memptrs := DeleteElem(g.maps.memptrs, pid)));
      if memptr !in memory then taken else RunExit(taken, pid, memory[memptr], stackId, now)
  }

  // ---------- operations and whole handlers ----------

  function Step(c: Config, g: Ledger, op: Op): Ledger {
    match op
    case Enter(pid, size, now) =>
      if Accepts(c, pid, size, now) then g.(maps := StoreSize(g.maps, pid, size)) else g
    case Exit(pid, address, stackId, now) => RunExit(g, pid, address, stackId, now)
    case Free(address) => RunFree(g, address)
    case SetMemptr(pid, memptr) => g.(maps := StoreMemptr(g.maps, pid, memptr))
    case MemalignExit(pid, memory, stackId, now) => RunMemalignExit(g, pid, memory, stackId, now)
  }

  function Run(c: Config, g: Ledger, ops: seq<Op>): Ledger
    decreases |ops|
  {
    if ops == [] then g else Run(c, Step(c, g, ops[0]), ops[1..])
  }

  type Order = x: int | 0 <= x < 64

  function PowerOfTwo(n: nat): nat {
    if n == 0 then 1 else 2 * PowerOfTwo(n - 1)
  }

  /** The attached programs. Those with the same body share a constructor:
      - AllocEnter: malloc, mmap, aligned_alloc, valloc, memalign and pvalloc
      - AllocExit: the return probes of these, of calloc and of realloc
      - FreeEnter: free, munmap, kfree, kmem_cache_free, mm_page_free, percpu_free
      - SlabAlloc: kmalloc, kmalloc_node, kmem_cache_alloc, kmem_cache_alloc_node */
  datatype Handler =
    | AllocEnter(pid: Pid, size: U64, now: U64)
    | AllocExit(pid: Pid, result: U64, stackId: I32, now: U64)
    | FreeEnter(address: U64)
    | CallocEnter(pid: Pid, nmemb: U64, size: U64, now: U64)
    | ReallocEnter(pid: Pid, ptr: U64, size: U64, now: U64)
    | PosixMemalignEnter(pid: Pid, memptr: U64, size: U64, now: U64)
    | PosixMemalignExit(pid: Pid, memory: UserMemory, stackId: I32, now: U64)
    | SlabAlloc(pid: Pid, ptr: U64, size: U64, stackId: I32, now: U64, later: U64)
    | PageAlloc(pid: Pid, order: Order, pfn: U64, stackId: I32, now: U64, later: U64)
    | PercpuAlloc(pid: Pid, ptr: U64, size: U64, stackId: I32, now: U64, later: U64)

  function Program(c: Config, h: Handler): seq<Op> {
    match h
    case AllocEnter(pid, size, now) => [Enter(pid, size, now)]
    case AllocExit(pid, result, stackId, now) => [Exit(pid, result, stackId, now)]
    case FreeEnter(address) => [Free(address)]
    case CallocEnter(pid, nmemb, size, now) => [Enter(pid, Wrap64(nmemb * size), now)]
    case ReallocEnter(pid, ptr, size, now) => [Free(ptr), Enter(pid, size, now)]
    case PosixMemalignEnter(pid, memptr, size, now) => [SetMemptr(pid, memptr), Enter(pid, size, now)]
    case PosixMemalignExit(pid, memory, stackId, now) => [MemalignExit(pid, memory, stackId, now)]
    case SlabAlloc(pid, ptr, size, stackId, now, later) =>
      (if c.waMissingFree then [Free(ptr)] else []) + [Enter(pid, size, now), Exit(pid, ptr, stackId, later)]
    case PageAlloc(pid, order, pfn, stackId, now, later) =>
      [Enter(pid, Wrap64(c.pageSize * PowerOfTwo(order)), now), Exit(pid, pfn, stackId, later)]
    case PercpuAlloc(pid, ptr, size, stackId, now, later) =>
      [Enter(pid, size, now), Exit(pid, ptr, stackId, later)]
  }

  function RunHandlers(c: Config, g: Ledger, hs: seq<Handler>): Ledger
    decreases |hs|
  {
    if hs == [] then g else RunHandlers(c, Run(c, g, Program(c, hs[0])), hs[1..])
  }

  // The operations of a whole run, in order.
  function Flatten(c: Config, hs: seq<Handler>): seq<Op>
    decreases |hs|
  {
    if hs == [] then [] else Program(c, hs[0]) + Flatten(c, hs[1..])
  }

  lemma {:induction false} RunConcat(c: Config, g: Ledger, a: seq<Op>, b: seq<Op>)
    ensures Run(c, g, a + b) == Run(c, Run(c, g, a), b)
    decreases |a|
  {
    if a == [] {
      assert a + b == b;
    } else {
      assert (a + b)[1..] == a[1..] + b;
      RunConcat(c, Step(c, g, a[0]), a[1..], b);
    }
  }

  lemma RunOne(c: Config, g: Ledger, a: Op)
    ensures Run(c, g, [a]) == Step(c, g, a)
  {
    assert Run(c, Step(c, g, a), [a][1..]) == Step(c, g, a);
  }

  lemma RunTwo(c: Config, g: Ledger, a: Op, b: Op)
    ensures Run(c, g, [a, b]) == Step(c, Step(c, g, a), b)
  {
    assert [a, b][1..] == [b];
    RunOne(c, Step(c, g, a), b);
  }

  lemma RunThree(c: Config, g: Ledger, a: Op, b: Op, d: Op)
    ensures Run(c, g, [a, b, d]) == Step(c, Step(c, Step(c, g, a), b), d)
  {
    assert [a, b, d][1..] == [b, d];
    RunTwo(c, Step(c, g, a), b, d);
  }

  // The state after the first `i` operations.
  function StateAt(c: Config, g: Ledger, ops: seq<Op>, i: nat): Ledger
    requires i <= |ops|
  {
    if i == 0 then g else Step(c, StateAt(c, g, ops, i - 1), ops[i - 1])
  }

  lemma {:induction false} StateAtIsRun(c: Config, g: Ledger, ops: seq<Op>, i: nat)
    requires i <= |ops|
    ensures StateAt(c, g, ops, i) == Run(c, g, ops[..i])
    decreases i
  {
    if i == 0 {
    } else {
      StateAtIsRun(c, g, ops, i - 1);
      RunConcat(c, g, ops[..i - 1], [ops[i - 1]]);
      assert ops[..i] == ops[..i - 1] + [ops[i - 1]];
      RunOne(c, Run(c, g, ops[..i - 1]), ops[i - 1]);
    }
  }

  // A run of whole handlers is a run of their operations.
  lemma {:induction false} RunHandlersIsRun(c: Config, g: Ledger, hs: seq<Handler>)
    ensures RunHandlers(c, g, hs) == Run(c, g, Flatten(c, hs))
    decreases |hs|
  {
    if hs == [] {
    } else {
      RunHandlersIsRun(c, Run(c, g, Program(c, hs[0])), hs[1..]);
      RunConcat(c, g, Program(c, hs[0]), Flatten(c, hs[1..]));
    }
  }
}
