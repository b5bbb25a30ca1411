/** The filters of gen_alloc_enter hold for everything the maps ever contain. */
module Filters {
  import opened Words
  import opened Accounting
  import opened BpfMaps
  import opened Effects
  import opened Handover
  import opened Interleaving
  import opened Simulation

  predicate Within(c: Config, size: U64) {
    c.minSize <= size <= c.maxSize
  }

  predicate Wanted(c: Config, pid: Pid) {
    c.targetPid != 0 ==> pid == c.targetPid
  }

  predicate FilteredPc(c: Config, pc: Pc) {
    match pc
    case EnterStore(pid, size) => Within(c, size) && Wanted(c, pid)
    case ExitDelete(pid, _, info) => Within(c, info.size) && Wanted(c, pid)
    case AllocsUpdate(pid, address, info) => Within(c, info.size) && Wanted(c, pid) && address != 0
    case _ => true
  }

  predicate FilteredMaps(c: Config, m: Maps) {
    && (forall pid :: pid in m.sizes ==> Within(c, m.sizes[pid]) && Wanted(c, pid))
    && (forall a :: a in m.allocs ==> Within(c, m.allocs[a].size))
    && 0 !in m.allocs
  }

  // The clause on AllocsUpdate is what makes every recorded allocation come from
  // the wanted process, although the exit path never checks the pid.
  predicate Filtered(c: Config, x: System) {
    && FilteredMaps(c, x.g.maps)
    && (forall cpu :: cpu in x.cpus ==> FilteredPc(c, x.cpus[cpu]))
  }

  lemma NextFilteredPc(c: Config, g: Ledger, pc: Pc)
    requires FilteredMaps(c, g.maps) && FilteredPc(c, pc)
    ensures Next(g, pc).1.Some? ==> FilteredPc(c, Next(g, pc).1.value)
  {}

  lemma FilteredEffect(c: Config, g: Ledger, pc: Pc, g': Ledger, pc': Option<Pc>)
    requires FilteredMaps(c, g.maps) && FilteredPc(c, pc)
    requires SizeEffect(g.maps.sizes, pc, g'.maps.sizes, pc') && AllocsStepEffect(g, pc, g', pc')
    ensures FilteredMaps(c, g'.maps)
  {}

  lemma NextFiltered(c: Config, g: Ledger, pc: Pc)
    requires FilteredMaps(c, g.maps) && FilteredPc(c, pc)
    ensures FilteredMaps(c, Next(g, pc).0.maps)
    ensures Next(g, pc).1.Some? ==> FilteredPc(c, Next(g, pc).1.value)
  {
    var n := Next(g, pc);
    NextFilteredPc(c, g, pc);
    NextSizes(g, pc);
    NextAllocs(g, pc);
    FilteredEffect(c, g, pc, n.0, n.1);
  }

  lemma DoFiltered(c: Config, x: System, act: Action)
    requires Filtered(c, x)
    ensures Filtered(c, Do(c, x, act))
  {
    match act {
      case Begin(cpu, op) =>
      case Advance(cpu) =>
        if cpu in x.cpus {
          NextFiltered(c, x.g, x.cpus[cpu]);
        }
    }
  }

  lemma {:induction false} InterleaveFiltered(c: Config, x: System, acts: seq<Action>)
    requires Filtered(c, x)
    ensures Filtered(c, Interleave(c, x, acts))
    decreases |acts|
  {
    if acts == [] {
    } else {
      DoFiltered(c, x, acts[0]);
      InterleaveFiltered(c, Do(c, x, acts[0]), acts[1..]);
    }
  }

  /** In every state reachable from empty maps, whatever the interleaving. */
  lemma FiltersHold(c: Config, acts: seq<Action>)
    ensures Filtered(c, Interleave(c, START, acts))
  {
    InterleaveFiltered(c, START, acts);
  }

  /** The same for a sequential run. */
  lemma SequentialFiltersHold(c: Config, ops: seq<Op>)
    ensures FilteredMaps(c, Run(c, EMPTY, ops).maps)
  {
    RunIsInterleaving(c, EMPTY, ops);
    var acts :| ExclusiveRun(c, Quiet(EMPTY), acts) && Interleave(c, Quiet(EMPTY), acts) == Quiet(Run(c, EMPTY, ops));
    FiltersHold(c, acts);
  }

  // ---------- sampling ----------

  // Every enter comes at a time that the sampling skips.
  predicate AllSkipped(c: Config, ops: seq<Op>) {
    c.sampleRate > 1 && forall i :: 0 <= i < |ops| && ops[i].Enter? ==> ops[i].now % c.sampleRate != 0
  }

  lemma {:induction false} SkippedRun(c: Config, g: Ledger, ops: seq<Op>)
    requires AllSkipped(c, ops) && g.maps.sizes == map[]
    ensures Run(c, g, ops).maps.sizes == map[]
    ensures forall a :: a in Run(c, g, ops).maps.allocs ==> a in g.maps.allocs
    ensures Run(c, g, ops).lost == g.lost
    decreases |ops|
  {
    if ops == [] {
    } else {
      SkippedRun(c, Step(c, g, ops[0]), ops[1..]);
    }
  }

  /** Sampling goes by the clock, not by counting: a run whose enters all miss the
      sampling times records nothing, however many allocations it makes. */
  lemma SampledOut(c: Config, ops: seq<Op>)
    requires AllSkipped(c, ops)
    ensures Run(c, EMPTY, ops).maps.sizes == map[] && Run(c, EMPTY, ops).maps.allocs == map[]
  {
    SkippedRun(c, EMPTY, ops);
  }

  // An enter that passes the filters.
  predicate Accepted(c: Config, op: Op) {
    op.Enter? && Accepts(c, op.pid, op.size, op.now)
  }

  // The accepted enters among the programs that a run begins.
  function AcceptedIn(c: Config, acts: seq<Action>): set<Op> {
    set i | 0 <= i < |acts| && acts[i].Begin? && Accepted(c, acts[i].op) :: acts[i].op
  }

  predicate PendingFrom(ops: set<Op>, pid: Pid, size: U64) {
    exists op :: op in ops && op.Enter? && op.pid == pid && op.size == size
  }

  predicate SizeFrom(ops: set<Op>, size: U64) {
    exists op :: op in ops && op.Enter? && op.size == size
  }

  predicate StemsPc(ops: set<Op>, pc: Pc) {
    match pc
    case EnterStore(pid, size) => PendingFrom(ops, pid, size)
    case ExitDelete(pid, _, info) => PendingFrom(ops, pid, info.size)
    case AllocsUpdate(pid, _, info) => PendingFrom(ops, pid, info.size)
    case _ => true
  }

  // Every pending, live or lost size is that of one of the enters, a pending one that of
  // an enter of the same process.
  predicate StemsFrom(ops: set<Op>, g: Ledger) {
    && (forall pid :: pid in g.maps.sizes ==> PendingFrom(ops, pid, g.maps.sizes[pid]))
    && (forall a :: a in g.maps.allocs ==> SizeFrom(ops, g.maps.allocs[a].size))
    && (forall i :: 0 <= i < |g.lost| ==> SizeFrom(ops, g.lost[i].info.size))
  }

  predicate Stems(ops: set<Op>, x: System) {
    StemsFrom(ops, x.g) && forall cpu :: cpu in x.cpus ==> StemsPc(ops, x.cpus[cpu])
  }

  lemma PendingIsSize(ops: set<Op>, pid: Pid, size: U64)
    requires PendingFrom(ops, pid, size)
    ensures SizeFrom(ops, size)
  {}

  lemma NextStems(ops: set<Op>, g: Ledger, pc: Pc)
    requires StemsFrom(ops, g) && StemsPc(ops, pc)
    ensures StemsFrom(ops, Next(g, pc).0)
    ensures Next(g, pc).1.Some? ==> StemsPc(ops, Next(g, pc).1.value)
  {
    if pc.AllocsUpdate? {
      PendingIsSize(ops, pc.pid, pc.info.size);
    }
  }

  lemma DoStems(c: Config, ops: set<Op>, x: System, act: Action)
    requires Stems(ops, x)
    requires act.Begin? && Accepted(c, act.op) ==> act.op in ops
    ensures Stems(ops, Do(c, x, act))
  {
    match act {
      case Begin(cpu, op) =>
        if Accepted(c, op) {
          assert PendingFrom(ops, op.pid, op.size);
        }
      case Advance(cpu) =>
        if cpu in x.cpus {
          NextStems(ops, x.g, x.cpus[cpu]);
        }
    }
  }

  lemma {:induction false} InterleaveStems(c: Config, ops: set<Op>, x: System, acts: seq<Action>)
    requires Stems(ops, x)
    requires forall i :: 0 <= i < |acts| && acts[i].Begin? && Accepted(c, acts[i].op) ==> acts[i].op in ops
    ensures Stems(ops, Interleave(c, x, acts))
    decreases |acts|
  {
    if acts == [] {
    } else {
      DoStems(c, ops, x, acts[0]);
      InterleaveStems(c, ops, Do(c, x, acts[0]), acts[1..]);
    }
  }

  /** Conversely, in any interleaving every size that is pending, recorded or lost is that
      of an accepted enter, and so of one whose time is a multiple of the rate. */
  lemma SampledIn(c: Config, acts: seq<Action>)
    ensures Stems(AcceptedIn(c, acts), Interleave(c, START, acts))
    ensures forall op :: op in AcceptedIn(c, acts) && c.sampleRate > 1 ==> op.Enter? && op.now % c.sampleRate == 0
  {
    InterleaveStems(c, AcceptedIn(c, acts), START, acts);
  }
}
