/** The programs running at once on any number of CPUs. Every map operation is a
    step of its own; a CPU that runs no program is absent from `cpus`. */
module Interleaving {
  import opened Words
  import opened BpfMaps
  import opened Accounting
  import opened Totals

  // The next map operation of a CPU, with the values it has read so far.
  datatype Pc =
    | EnterStore(pid: Pid, size: U64)
    | MemptrStore(pid: Pid, memptr: U64)
    | MemptrLookup(pid: Pid, memory: UserMemory, stackId: I32, now: U64)
    | MemptrDelete(pid: Pid, memptr: U64, memory: UserMemory, stackId: I32, now: U64)
    | ExitLookup(pid: Pid, address: U64, stackId: I32, now: U64)
    | ExitDelete(pid: Pid, address: U64, info: AllocInfo)
    | AllocsUpdate(pid: Pid, address: U64, info: AllocInfo)
    | AddLookup(address: U64, info: AllocInfo)
    | AddTryInit(address: U64, info: AllocInfo)
    | AddLookupAgain(address: U64, info: AllocInfo)
    | AddFetch(address: U64, info: AllocInfo)
    | FreeLookup(address: U64)
    | FreeDelete(address: U64, info: AllocInfo)
    | DelLookup(address: U64, info: AllocInfo)
    | DelFetch(address: U64, info: AllocInfo)

  type Cpu = nat

  datatype System = System(g: Ledger, cpus: map<Cpu, Pc>)

  datatype Action = Begin(cpu: Cpu, op: Op) | Advance(cpu: Cpu)

  // Where an operation starts; None when its filters already reject it.
  function First(c: Config, op: Op): Option<Pc> {
    match op
    case Enter(pid, size, now) => if Accepts(c, pid, size, now) then Some(EnterStore(pid, size)) else None
    case Exit(pid, address, stackId, now) => Some(ExitLookup(pid, address, stackId, now))
    case Free(address) => Some(FreeLookup(address))
    case SetMemptr(pid, memptr) => Some(MemptrStore(pid, memptr))
    case MemalignExit(pid, memory, stackId, now) => Some(MemptrLookup(pid, memory, stackId, now))
  }

  function PutCombined(g: Ledger, combined: map<U64, U64>): Ledger {
    g.(maps := g.maps.(combined := combined))
  }

  // One map operation: the new maps, and where the CPU goes on.
  function Next(g: Ledger, pc: Pc): (Ledger, Option<Pc>) {
    var m := g.maps;
    match pc
    case EnterStore(pid, size) => (g.(maps := StoreSize(m, pid, size)), None)
    case MemptrStore(pid, memptr) => (g.(maps := StoreMemptr(m, pid, memptr)), None)
    case MemptrLookup(pid, memory, stackId, now) =>
      (g, if pid in m.memptrs then Some(MemptrDelete(pid, m.memptrs[pid], memory, stackId, now)) else None)
    case MemptrDelete(pid, memptr, memory, stackId, now) =>
      (g.(maps := m.(memptrs := DeleteElem(m.memptrs, pid))),
       if memptr in memory then Some(ExitLookup(pid, memory[memptr], stackId, now)) else None)
    case ExitLookup(pid, address, stackId, now) =>
      (g, if pid in m.sizes then Some(ExitDelete(pid, address, AllocInfo(m.sizes[pid], now, stackId))) else None)
    case ExitDelete(pid, address, info) =>
      (g.(maps := m.(sizes := DeleteElem(m.sizes, pid))),
       if address != 0 then Some(AllocsUpdate(pid, address, info)) else None)
    case AllocsUpdate(_, address, info) => (InsertAlloc(g, address, info), Some(AddLookup(address, info)))
    case AddLookup(address, info) =>
      (g, Some(if KeyOf(info) in m.combined then AddFetch(address, info) else AddTryInit(address, info)))
    case AddTryInit(address, info) =>
      var r := UpdateElem(m.combined, COMBINED_ALLOCS_MAX_ENTRIES, KeyOf(info), 0, BPF_NOEXIST);
      (PutCombined(g, r.content), if r.err == E2BIG then None else Some(AddLookupAgain(address, info)))
    case AddLookupAgain(address, info) =>
      (g, if KeyOf(info) in m.combined then Some(AddFetch(address, info)) else None)
    case AddFetch(_, info) =>
      if KeyOf(info) in m.combined then
        (PutCombined(g, m.combined[KeyOf(info) := AtomicAdd(m.combined[KeyOf(info)], Increment(info.size))]), None)
      else (g, None)
    case FreeLookup(address) =>
      (g, if address in m.allocs then Some(FreeDelete(address, m.allocs[address])) else None)
    case FreeDelete(address, info) =>
      (g.(maps := m.(allocs := DeleteElem(m.allocs, address))), Some(DelLookup(address, info)))
    case DelLookup(address, info) =>
      (g, if KeyOf(info) in m.combined then Some(DelFetch(address, info)) else None)
    case DelFetch(_, info) => (PutCombined(g, SubStat(m.combined, KeyOf(info), info.size)), None)
  }

  function Goto(cpus: map<Cpu, Pc>, cpu: Cpu, pc: Option<Pc>): map<Cpu, Pc> {
    match pc
    case None => cpus - {cpu}
    case Some(p) => cpus[cpu := p]
  }

  // What a CPU runs, if anything.
  function PcOf(cpus: map<Cpu, Pc>, cpu: Cpu): Option<Pc> {
    if cpu in cpus then Some(cpus[cpu]) else None
  }

  // Beginning on a busy CPU, or advancing an idle one, changes nothing.
  function Do(c: Config, x: System, act: Action): System {
    match act
    case Begin(cpu, op) =>
      if cpu in x.cpus then x else x.(cpus := Goto(x.cpus, cpu, First(c, op)))
    case Advance(cpu) =>
      if cpu !in x.cpus then x
      else
        var (g, pc) := Next(x.g, x.cpus[cpu]);
        System(g, Goto(x.cpus, cpu, pc))
  }

  function Interleave(c: Config, x: System, acts: seq<Action>): System
    decreases |acts|
  {
    if acts == [] then x else Interleave(c, Do(c, x, acts[0]), acts[1..])
  }

  lemma {:induction false} InterleaveConcat(c: Config, x: System, a: seq<Action>, b: seq<Action>)
    ensures Interleave(c, x, a + b) == Interleave(c, Interleave(c, x, a), b)
    decreases |a|
  {
    if a == [] {
      assert a + b == b;
    } else {
      assert (a + b)[1..] == a[1..] + b;
      InterleaveConcat(c, Do(c, x, a[0]), a[1..], b);
    }
  }

  lemma InterleaveTwo(c: Config, x: System, a: Action, b: Action)
    ensures Interleave(c, x, [a, b]) == Do(c, Do(c, x, a), b)
  {
    assert [a, b][1..] == [b] && [b][1..] == [];
    assert Interleave(c, Do(c, x, a), [b]) == Interleave(c, Do(c, Do(c, x, a), b), []);
  }

  // ---------- the exclusion that the accounting relies on ----------

  // The address a program works on; 0 stands for none.
  function Target(pc: Pc): U64 {
    match pc
    case EnterStore(_, _) | MemptrStore(_, _) | MemptrLookup(_, _, _, _) | MemptrDelete(_, _, _, _, _) => 0
    case _ => pc.address
  }

  // No two programs in flight work on the same address.
  predicate Exclusive(x: System) {
    forall c, d :: c in x.cpus && d in x.cpus && c != d && Target(x.cpus[c]) == Target(x.cpus[d]) ==>
                     Target(x.cpus[c]) == 0
  }

  predicate ExclusiveRun(c: Config, x: System, acts: seq<Action>)
    decreases |acts|
  {
    Exclusive(x) && (acts != [] ==> ExclusiveRun(c, Do(c, x, acts[0]), acts[1..]))
  }

  const START := System(EMPTY, map[])
}
