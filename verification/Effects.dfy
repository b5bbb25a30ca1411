/** What each operation and each map operation does, entry by entry, with the filters and
    the numbers of the source written out. Nothing here refers to the definitions that
    the operations are made of. */
module Effects {
  import opened Words
  import opened BpfMaps
  import opened Accounting
  import opened Totals
  import opened Interleaving
  import opened Handover

  // ---------- reference definitions ----------

  // A signed 32-bit id, read as a 64-bit key.
  function SignExtended(id: I32): U64 {
    id % 0x1_0000_0000_0000_0000
  }

  // One allocation in the packed word: its size in the low 40 bits, a one above them.
  function Weight(size: U64): U64 {
    size % 0x100_0000_0000 + 0x100_0000_0000
  }

  predicate Added(combined: map<U64, U64>, combined': map<U64, U64>, info: AllocInfo) {
    var key := SignExtended(info.stackId);
    combined' ==
    if key in combined then combined[key := (combined[key] + Weight(info.size)) % 0x1_0000_0000_0000_0000]
    else if |combined| < 10_240 then combined[key := Weight(info.size)]
    else combined
  }

  predicate Subtracted(combined: map<U64, U64>, combined': map<U64, U64>, info: AllocInfo) {
    var key := SignExtended(info.stackId);
    combined' ==
    if key in combined then combined[key := (combined[key] - Weight(info.size)) % 0x1_0000_0000_0000_0000]
    else combined
  }

  lemma KeyIsExtended(id: I32)
    ensures StackKey(id) == SignExtended(id)
  {}

  lemma IncrementIsWeight(size: U64)
    ensures Increment(size) == Weight(size)
  {}

  lemma AddStatAdds(combined: map<U64, U64>, info: AllocInfo)
    ensures Added(combined, AddStat(combined, StackKey(info.stackId), info.size), info)
  {
    var key := StackKey(info.stackId);
    KeyIsExtended(info.stackId);
    IncrementIsWeight(info.size);
    if key in combined {
      AddStatTracked(combined, key, info.size);
    } else if |combined| < 10_240 {
      AddStatFresh(combined, key, info.size);
    }
  }

  lemma SubStatSubtracts(combined: map<U64, U64>, info: AllocInfo)
    ensures Subtracted(combined, SubStat(combined, StackKey(info.stackId), info.size), info)
  {
    KeyIsExtended(info.stackId);
    IncrementIsWeight(info.size);
  }

  // ---------- gen_alloc_enter ----------

  predicate Enters(c: Config, g: Ledger, pid: Pid, size: U64, now: U64, g': Ledger) {
    var sizes := g.maps.sizes;
    var passes :=
      && c.minSize <= size <= c.maxSize
      && (c.sampleRate <= 1 || now % c.sampleRate == 0)
      && (c.targetPid == 0 || pid == c.targetPid);
    && g' == g.(maps := g.maps.(sizes := g'.maps.sizes))
    && g'.maps.sizes == if passes && (pid in sizes || |sizes| < 10_240) then sizes[pid := size] else sizes
  }

  /** An enter stores its size exactly when this is within the limits, the time is a
      sampled one, the process is wanted, and the process is in the map or has room. */
  lemma EnterEffect(c: Config, g: Ledger, pid: Pid, size: U64, now: U64)
    ensures Enters(c, g, pid, size, now, Step(c, g, Enter(pid, size, now)))
  {}

  // ---------- gen_alloc_exit2 ----------

  // Where an allocation gets its entry, and what is lost instead.
  predicate Inserted(allocs: Allocs, allocs': Allocs, address: U64, info: AllocInfo) {
    allocs' == if address in allocs || |allocs| < 1_000_000 then allocs[address := info] else allocs
  }

  predicate Loses(allocs: Allocs, lost: seq<Loss>, lost': seq<Loss>, address: U64, info: AllocInfo) {
    lost' == lost + (if address in allocs then [Overwritten(allocs[address])]
                     else if |allocs| < 1_000_000 then []
                     else [Refused(info)])
  }

  predicate Exits(g: Ledger, pid: Pid, address: U64, stackId: I32, now: U64, g': Ledger) {
    var m := g.maps;
    if pid !in m.sizes then g' == g
    else
      var info := AllocInfo(size := m.sizes[pid], timestampNs := now, stackId := stackId);
      && g'.maps.sizes == m.sizes - {pid} && g'.maps.memptrs == m.memptrs
      && (address == 0 ==> g'.maps.allocs == m.allocs && g'.maps.combined == m.combined && g'.lost == g.lost)
      && (address != 0 ==> Recorded(g, g', address, info))
  }

  predicate Recorded(g: Ledger, g': Ledger, address: U64, info: AllocInfo) {
    && Inserted(g.maps.allocs, g'.maps.allocs, address, info)
    && Loses(g.maps.allocs, g.lost, g'.lost, address, info)
    && Added(g.maps.combined, g'.maps.combined, info)
  }

  /** An exit without a pending size changes nothing. Otherwise it takes the size, and with
      an address it stores the size, the time and the stack there and counts them. */
  lemma ExitEffect(c: Config, g: Ledger, pid: Pid, address: U64, stackId: I32, now: U64)
    ensures Exits(g, pid, address, stackId, now, Step(c, g, Exit(pid, address, stackId, now)))
  {
    if pid in g.maps.sizes && address != 0 {
      AddStatAdds(g.maps.combined, AllocInfo(g.maps.sizes[pid], now, stackId));
    }
  }

  // ---------- gen_free_enter ----------

  /** A free of an address without an entry changes nothing; otherwise it removes the
      entry and takes it out of the word of its stack. */
  lemma FreeEffect(c: Config, g: Ledger, address: U64)
    ensures var m, g' := g.maps, Step(c, g, Free(address));
            if address !in m.allocs then g' == g
            else
              && g' == g.(maps := m.(allocs := m.allocs - {address}, combined := g'.maps.combined))
              && Subtracted(m.combined, g'.maps.combined, m.allocs[address])
  {
    if address in g.maps.allocs {
      SubStatSubtracts(g.maps.combined, g.maps.allocs[address]);
    }
  }

  // ---------- posix_memalign ----------

  /** The pointer is stored whenever the process is in the map or has room. */
  lemma PointerEffect(c: Config, g: Ledger, pid: Pid, memptr: U64)
    ensures var memptrs, g' := g.maps.memptrs, Step(c, g, SetMemptr(pid, memptr));
            && g' == g.(maps := g.maps.(memptrs := g'.maps.memptrs))
            && g'.maps.memptrs == if pid in memptrs || |memptrs| < 10_240 then memptrs[pid := memptr] else memptrs
  {}

  /** The exit takes the pointer, and exits at the address that it can read there. */
  lemma MemalignExitEffect(c: Config, g: Ledger, pid: Pid, memory: UserMemory, stackId: I32, now: U64)
    ensures var m, g' := g.maps, Step(c, g, MemalignExit(pid, memory, stackId, now));
            if pid !in m.memptrs then g' == g
            else
              var found := g.(maps := m.(memptrs := m.memptrs - {pid}));
              g' == if m.memptrs[pid] in memory then Step(c, found, Exit(pid, memory[m.memptrs[pid]], stackId, now))
              else found
  {}

  // ---------- capacities ----------

  /** A new address is recorded as the last of a million entries, and refused as the next. */
  lemma AllocsEdge(c: Config, g: Ledger, pid: Pid, address: U64, stackId: I32, now: U64)
    requires pid in g.maps.sizes && address != 0 && address !in g.maps.allocs
    ensures var info, g' := AllocInfo(g.maps.sizes[pid], now, stackId), Step(c, g, Exit(pid, address, stackId, now));
            && (|g.maps.allocs| == 999_999 ==> g'.maps.allocs == g.maps.allocs[address := info] && g'.lost == g.lost)
            && (|g.maps.allocs| == 1_000_000 ==> g'.maps.allocs == g.maps.allocs && g'.lost == g.lost + [Refused(info)])
  {
    ExitEffect(c, g, pid, address, stackId, now);
  }

  /** A new stack is tracked as the last of 10240, and refused as the next. */
  lemma WordsEdge(c: Config, g: Ledger, pid: Pid, address: U64, stackId: I32, now: U64)
    requires pid in g.maps.sizes && address != 0 && SignExtended(stackId) !in g.maps.combined
    ensures var key, g' := SignExtended(stackId), Step(c, g, Exit(pid, address, stackId, now));
            && (|g.maps.combined| == 10_239 ==> g'.maps.combined == g.maps.combined[key := Weight(g.maps.sizes[pid])])
            && (|g.maps.combined| == 10_240 ==> g'.maps.combined == g.maps.combined)
  {
    ExitEffect(c, g, pid, address, stackId, now);
  }

  /** A new process gets a pending size, and a pending pointer, as the last of 10240, and
      neither as the next. */
  lemma ProcessEdge(c: Config, g: Ledger, pid: Pid, size: U64, now: U64, memptr: U64)
    requires pid !in g.maps.sizes && pid !in g.maps.memptrs
    requires c.minSize <= size <= c.maxSize && c.sampleRate <= 1 && c.targetPid == 0
    ensures var g' := Step(c, g, Enter(pid, size, now));
            && (|g.maps.sizes| == 10_239 ==> g'.maps.sizes == g.maps.sizes[pid := size])
            && (|g.maps.sizes| == 10_240 ==> g' == g)
    ensures var g' := Step(c, g, SetMemptr(pid, memptr));
            && (|g.maps.memptrs| == 10_239 ==> g'.maps.memptrs == g.maps.memptrs[pid := memptr])
            && (|g.maps.memptrs| == 10_240 ==> g' == g)
  {
    EnterEffect(c, g, pid, size, now);
    PointerEffect(c, g, pid, memptr);
  }

  // ---------- whole handlers ----------

  function Raised(n: nat): nat {
    if n == 0 then 1 else 2 * Raised(n - 1)
  }

  lemma {:induction false} PowerIsRaised(n: nat)
    ensures PowerOfTwo(n) == Raised(n)
  {
    if n == 0 {
    } else {
      PowerIsRaised(n - 1);
    }
  }

  function EnterThen(c: Config, g: Ledger, enter: Op, exit: Op): Ledger {
    Step(c, Step(c, g, enter), exit)
  }

  // What a handler amounts to, operation by operation.
  predicate Acts(c: Config, g: Ledger, h: Handler, g': Ledger) {
    match h
    case AllocEnter(pid, size, now) => g' == Step(c, g, Enter(pid, size, now))
    case AllocExit(pid, result, stackId, now) => g' == Step(c, g, Exit(pid, result, stackId, now))
    case FreeEnter(address) => g' == Step(c, g, Free(address))
    case CallocEnter(pid, nmemb, size, now) =>
      g' == Step(c, g, Enter(pid, nmemb * size % 0x1_0000_0000_0000_0000, now))
    case ReallocEnter(pid, ptr, size, now) => g' == Step(c, Step(c, g, Free(ptr)), Enter(pid, size, now))
    case PosixMemalignEnter(pid, memptr, size, now) =>
      g' == Step(c, Step(c, g, SetMemptr(pid, memptr)), Enter(pid, size, now))
    case PosixMemalignExit(pid, memory, stackId, now) => g' == Step(c, g, MemalignExit(pid, memory, stackId, now))
    case SlabAlloc(pid, ptr, size, stackId, now, later) =>
      var freed := if c.waMissingFree then Step(c, g, Free(ptr)) else g;
      g' == EnterThen(c, freed, Enter(pid, size, now), Exit(pid, ptr, stackId, later))
    case PageAlloc(pid, order, pfn, stackId, now, later) =>
      g' == EnterThen(c, g, Enter(pid, c.pageSize * Raised(order) % 0x1_0000_0000_0000_0000, now),
                      Exit(pid, pfn, stackId, later))
    case PercpuAlloc(pid, ptr, size, stackId, now, later) =>
      g' == EnterThen(c, g, Enter(pid, size, now), Exit(pid, ptr, stackId, later))
  }

  /** The operations of every handler, under any configuration. */
  lemma HandlerEffect(c: Config, g: Ledger, h: Handler)
    ensures Acts(c, g, h, Run(c, g, Program(c, h)))
  {
    var ops := Program(c, h);
    if |ops| == 1 {
      assert ops == [ops[0]];
      RunOne(c, g, ops[0]);
    } else if |ops| == 2 {
      assert ops == [ops[0], ops[1]];
      RunTwo(c, g, ops[0], ops[1]);
      if h.PageAlloc? {
        PowerIsRaised(h.order);
      }
    } else {
      assert ops == [ops[0], ops[1], ops[2]];
      RunThree(c, g, ops[0], ops[1], ops[2]);
    }
  }

  // What an allocation of a process with nothing pending amounts to, from enter to exit.
  predicate Allocates(
    c: Config, g: Ledger, pid: Pid, size: U64, result: U64, stackId: I32, entered: U64, exited: U64, g': Ledger)
  {
    var stored :=
      && c.minSize <= size <= c.maxSize
      && (c.sampleRate <= 1 || entered % c.sampleRate == 0)
      && (c.targetPid == 0 || pid == c.targetPid)
      && |g.maps.sizes| < 10_240;
    if stored && result != 0 then
      && g'.maps.sizes == g.maps.sizes && g'.maps.memptrs == g.maps.memptrs
      && Recorded(g, g', result, AllocInfo(size := size, timestampNs := exited, stackId := stackId))
    else g' == g
  }

  lemma EntersThenExits(
    c: Config, g: Ledger, pid: Pid, size: U64, result: U64, stackId: I32, entered: U64, exited: U64,
    g1: Ledger, g2: Ledger)
    requires pid !in g.maps.sizes
    requires Enters(c, g, pid, size, entered, g1) && Exits(g1, pid, result, stackId, exited, g2)
    ensures Allocates(c, g, pid, size, result, stackId, entered, exited, g2)
  {
    assert g.maps.sizes[pid := size] - {pid} == g.maps.sizes;
  }

  /** An allocation of a process with nothing pending, from its enter to its exit: it is
      recorded exactly when it passes the filters, succeeds and finds room, with its own
      size, and nothing is left pending. */
  lemma AllocationEffect(
    c: Config, g: Ledger, pid: Pid, size: U64, result: U64, stackId: I32, entered: U64, exited: U64)
    requires pid !in g.maps.sizes
    ensures var g1 := Run(c, g, Program(c, AllocEnter(pid, size, entered)));
            Allocates(c, g, pid, size, result, stackId, entered, exited,
                      Run(c, g1, Program(c, AllocExit(pid, result, stackId, exited))))
  {
    var g1 := Run(c, g, Program(c, AllocEnter(pid, size, entered)));
    var g2 := Run(c, g1, Program(c, AllocExit(pid, result, stackId, exited)));
    HandlerEffect(c, g, AllocEnter(pid, size, entered));
    HandlerEffect(c, g1, AllocExit(pid, result, stackId, exited));
    EnterEffect(c, g, pid, size, entered);
    ExitEffect(c, g1, pid, result, stackId, exited);
    EntersThenExits(c, g, pid, size, result, stackId, entered, exited, g1, g2);
  }

  // ---------- map operations of overlapping programs ----------

  // All that a map operation does to the pending pointers and to the programs that use them.
  predicate PointerStepEffect(memptrs: map<U64, U64>, pc: Pc, memptrs': map<U64, U64>, pc': Option<Pc>) {
    match pc
    case MemptrStore(p, memptr) =>
      pc'.None? && memptrs' == if p in memptrs || |memptrs| < 10_240 then memptrs[p := memptr] else memptrs
    case MemptrLookup(p, memory, stackId, now) =>
      && memptrs' == memptrs
      && pc' == if p in memptrs then Some(MemptrDelete(p, memptrs[p], memory, stackId, now)) else None
    case MemptrDelete(p, memptr, memory, stackId, now) =>
      && memptrs' == memptrs - {p}
      && pc' == if memptr in memory then Some(ExitLookup(p, memory[memptr], stackId, now)) else None
    case _ =>
      && memptrs' == memptrs
      && (pc'.Some? ==> !pc'.value.MemptrStore? && !pc'.value.MemptrLookup? && !pc'.value.MemptrDelete?)
  }

  // All that it does to the entries.
  predicate AllocsStepEffect(g: Ledger, pc: Pc, g': Ledger, pc': Option<Pc>) {
    var allocs, allocs' := g.maps.allocs, g'.maps.allocs;
    match pc
    case AllocsUpdate(_, address, info) =>
      && Inserted(allocs, allocs', address, info) && Loses(allocs, g.lost, g'.lost, address, info)
      && pc' == Some(AddLookup(address, info))
    case FreeLookup(address) =>
      && allocs' == allocs && g'.lost == g.lost
      && pc' == if address in allocs then Some(FreeDelete(address, allocs[address])) else None
    case FreeDelete(address, info) =>
      allocs' == allocs - {address} && g'.lost == g.lost && pc' == Some(DelLookup(address, info))
    case _ => allocs' == allocs && g'.lost == g.lost
  }

  // All that it does to the words.
  predicate WordsStepEffect(combined: map<U64, U64>, pc: Pc, combined': map<U64, U64>, pc': Option<Pc>) {
    match pc
    case AddLookup(address, info) =>
      && combined' == combined
      && pc' == Some(if SignExtended(info.stackId) in combined then AddFetch(address, info)
                     else AddTryInit(address, info))
    case AddTryInit(address, info) =>
      var key := SignExtended(info.stackId);
      && combined' == (if key in combined || |combined| >= 10_240 then combined else combined[key := 0])
      && pc' == if key in combined' then Some(AddLookupAgain(address, info)) else None
    case AddLookupAgain(address, info) =>
      && combined' == combined
      && pc' == if SignExtended(info.stackId) in combined then Some(AddFetch(address, info)) else None
    case AddFetch(_, info) =>
      pc'.None? && (SignExtended(info.stackId) in combined ==> Added(combined, combined', info))
    case DelLookup(address, info) =>
      && combined' == combined
      && pc' == if SignExtended(info.stackId) in combined then Some(DelFetch(address, info)) else None
    case DelFetch(_, info) => pc'.None? && Subtracted(combined, combined', info)
    case _ => combined' == combined
  }

  lemma NextPointers(g: Ledger, pc: Pc)
    ensures PointerStepEffect(g.maps.memptrs, pc, Next(g, pc).0.maps.memptrs, Next(g, pc).1)
  {}

  lemma NextAllocs(g: Ledger, pc: Pc)
    ensures AllocsStepEffect(g, pc, Next(g, pc).0, Next(g, pc).1)
  {}

  lemma NextWords(g: Ledger, pc: Pc)
    ensures WordsStepEffect(g.maps.combined, pc, Next(g, pc).0.maps.combined, Next(g, pc).1)
  {
    if pc.AddLookup? || pc.AddTryInit? || pc.AddLookupAgain? || pc.DelLookup? {
      KeyIsExtended(pc.info.stackId);
    } else if pc.AddFetch? {
      KeyIsExtended(pc.info.stackId);
      IncrementIsWeight(pc.info.size);
    } else if pc.DelFetch? {
      SubStatSubtracts(g.maps.combined, pc.info);
    }
  }

  /** Every map operation, whatever the other programs have done in between: what it does
      to each of the four maps and to the losses, and where its program goes on. */
  lemma NextEffect(g: Ledger, pc: Pc)
    ensures var (g', pc') := Next(g, pc);
            && SizeEffect(g.maps.sizes, pc, g'.maps.sizes, pc')
            && PointerStepEffect(g.maps.memptrs, pc, g'.maps.memptrs, pc')
            && AllocsStepEffect(g, pc, g', pc')
            && WordsStepEffect(g.maps.combined, pc, g'.maps.combined, pc')
    ensures forall sizes: map<Pid, U64>, p :: Fits(sizes, p) <==> p in sizes || |sizes| < 10_240
  {
    NextSizes(g, pc);
    NextPointers(g, pc);
    NextAllocs(g, pc);
    NextWords(g, pc);
  }

  predicate StartsAt(c: Config, op: Op, pc: Option<Pc>) {
    match op
    case Enter(pid, size, now) =>
      var passes :=
        && c.minSize <= size <= c.maxSize
        && (c.sampleRate <= 1 || now % c.sampleRate == 0)
        && (c.targetPid == 0 || pid == c.targetPid);
      pc == if passes then Some(EnterStore(pid, size)) else None
    case Exit(pid, address, stackId, now) => pc == Some(ExitLookup(pid, address, stackId, now))
    case Free(address) => pc == Some(FreeLookup(address))
    case SetMemptr(pid, memptr) => pc == Some(MemptrStore(pid, memptr))
    case MemalignExit(pid, memory, stackId, now) => pc == Some(MemptrLookup(pid, memory, stackId, now))
  }

  /** Where each operation starts; an enter that the filters reject does not start at all. */
  lemma FirstEffect(c: Config, op: Op)
    ensures StartsAt(c, op, First(c, op))
  {}
}
