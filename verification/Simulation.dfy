/** Handlers that run one after the other are one of the interleavings, so what
    holds for all interleavings holds for sequential runs. */
module Simulation {
  import opened Words
  import opened BpfMaps
  import opened Accounting
  import opened Totals
  import opened Interleaving
  import opened Exclusion

  function Quiet(g: Ledger): System {
    System(g, map[])
  }

  function Solo(g: Ledger, pc: Pc): System {
    System(g, map[0 := pc])
  }

  function Resume(g: Ledger, pc: Option<Pc>): System {
    if pc.Some? then Solo(g, pc.value) else Quiet(g)
  }

  ghost predicate Reaches(c: Config, x: System, y: System) {
    exists acts :: ExclusiveRun(c, x, acts) && Interleave(c, x, acts) == y
  }

  lemma {:induction false} JoinRuns(c: Config, x: System, a: seq<Action>, b: seq<Action>)
    requires ExclusiveRun(c, x, a) && ExclusiveRun(c, Interleave(c, x, a), b)
    ensures ExclusiveRun(c, x, a + b)
    decreases |a|
  {
    if a == [] {
      assert a + b == b;
    } else {
      assert (a + b)[1..] == a[1..] + b;
      JoinRuns(c, Do(c, x, a[0]), a[1..], b);
    }
  }

  lemma ReachesTransitive(c: Config, x: System, y: System, z: System)
    requires Reaches(c, x, y) && Reaches(c, y, z)
    ensures Reaches(c, x, z)
  {
    var a :| ExclusiveRun(c, x, a) && Interleave(c, x, a) == y;
    var b :| ExclusiveRun(c, y, b) && Interleave(c, y, b) == z;
    JoinRuns(c, x, a, b);
    InterleaveConcat(c, x, a, b);
  }

  lemma OneAction(c: Config, x: System, act: Action)
    requires Exclusive(x) && Exclusive(Do(c, x, act))
    ensures Reaches(c, x, Do(c, x, act))
  {
    var acts := [act];
    assert acts[1..] == [];
    assert ExclusiveRun(c, Do(c, x, act), acts[1..]);
    assert Interleave(c, x, acts) == Interleave(c, Do(c, x, act), acts[1..]) == Do(c, x, act);
  }

  lemma SoloAdvances(c: Config, g: Ledger, pc: Pc)
    ensures Reaches(c, Solo(g, pc), Resume(Next(g, pc).0, Next(g, pc).1))
  {
    var n := Next(g, pc);
    var x, y := Solo(g, pc), Resume(n.0, n.1);
    assert x.cpus - {0} == map[];
    assert n.1.Some? ==> x.cpus[0 := n.1.value] == map[0 := n.1.value];
    assert Do(c, x, Advance(0)) == y;
    OneAction(c, x, Advance(0));
  }

  // ---------- running one program to its end ----------

  function Rank(pc: Pc): nat {
    match pc
    case MemptrLookup(_, _, _, _) => 9
    case MemptrDelete(_, _, _, _, _) => 8
    case ExitLookup(_, _, _, _) => 7
    case ExitDelete(_, _, _) => 6
    case AllocsUpdate(_, _, _) => 5
    case AddLookup(_, _) => 4
    case AddTryInit(_, _) => 3
    case AddLookupAgain(_, _) => 2
    case FreeLookup(_) => 4
    case FreeDelete(_, _) => 3
    case DelLookup(_, _) => 2
    case _ => 1
  }

  lemma RankFalls(g: Ledger, pc: Pc)
    ensures Next(g, pc).1.Some? ==> Rank(Next(g, pc).1.value) < Rank(pc)
  {}

  function Finish(g: Ledger, pc: Pc): Ledger
    decreases Rank(pc)
  {
    RankFalls(g, pc);
    var n := Next(g, pc);
    if n.1.Some? then Finish(n.0, n.1.value) else n.0
  }

  lemma {:induction false} SoloFinishes(c: Config, g: Ledger, pc: Pc)
    ensures Reaches(c, Solo(g, pc), Quiet(Finish(g, pc)))
    decreases Rank(pc)
  {
    SoloAdvances(c, g, pc);
    RankFalls(g, pc);
    var n := Next(g, pc);
    if n.1.Some? {
      SoloFinishes(c, n.0, n.1.value);
      ReachesTransitive(c, Solo(g, pc), Solo(n.0, n.1.value), Quiet(Finish(g, pc)));
    }
  }

  lemma FinishAdd(g: Ledger, address: U64, info: AllocInfo)
    ensures Finish(g, AddLookup(address, info)) == CountAdd(g, info)
  {
    var key, combined := KeyOf(info), g.maps.combined;
    if key in combined {
      assert Finish(g, AddFetch(address, info)) == CountAdd(g, info);
    } else {
      var g' := PutCombined(g, TryInit(combined, key));
      if |combined| < COMBINED_ALLOCS_MAX_ENTRIES {
        assert Finish(g', AddFetch(address, info)) == CountAdd(g, info);
        assert Finish(g', AddLookupAgain(address, info)) == CountAdd(g, info);
      }
      assert Finish(g, AddTryInit(address, info)) == CountAdd(g, info);
    }
  }

  lemma FinishExit(g: Ledger, pid: Pid, address: U64, stackId: I32, now: U64)
    ensures Finish(g, ExitLookup(pid, address, stackId, now)) == RunExit(g, pid, address, stackId, now)
  {
    if pid in g.maps.sizes {
      var info := AllocInfo(g.maps.sizes[pid], now, stackId);
      var taken := g.(maps := g.maps.(sizes := DeleteElem(g.maps.sizes, pid)));
      if address != 0 {
        var g' := InsertAlloc(taken, address, info);
        FinishAdd(g', address, info);
        assert Finish(taken, AllocsUpdate(pid, address, info)) == CountAdd(g', info);
      }
      assert Finish(g, ExitDelete(pid, address, info)) == RunExit(g, pid, address, stackId, now);
    }
  }

  lemma FinishFree(g: Ledger, address: U64)
    ensures Finish(g, FreeLookup(address)) == RunFree(g, address)
  {
    if address in g.maps.allocs {
      var info := g.maps.allocs[address];
      var g' := g.(maps := g.maps.(allocs := DeleteElem(g.maps.allocs, address)));
      assert Finish(g', DelLookup(address, info)) == RunFree(g, address) by {
        assert Finish(g', DelFetch(address, info)) == RunFree(g, address);
      }
      assert Finish(g, FreeDelete(address, info)) == RunFree(g, address);
    }
  }

  lemma FinishMemalign(g: Ledger, pid: Pid, memory: UserMemory, stackId: I32, now: U64)
    ensures Finish(g, MemptrLookup(pid, memory, stackId, now)) == RunMemalignExit(g, pid, memory, stackId, now)
  {
    if pid in g.maps.memptrs {
      var taken := g.(maps := g.maps.(memptrs := DeleteElem(g.maps.memptrs, pid)));
      var memptr := g.maps.memptrs[pid];
      if memptr in memory {
        FinishExit(taken, pid, memory[memptr], stackId, now);
      }
      assert Finish(g, MemptrDelete(pid, memptr, memory, stackId, now))
          == RunMemalignExit(g, pid, memory, stackId, now);
    }
  }

  // A program that runs undisturbed has the effect that the sequential model gives it.
  lemma FinishIsStep(c: Config, g: Ledger, op: Op)
    ensures Step(c, g, op) == (if First(c, op).Some? then Finish(g, First(c, op).value) else g)
  {
    match op {
      case Exit(pid, address, stackId, now) => FinishExit(g, pid, address, stackId, now);
      case Free(address) => FinishFree(g, address);
      case MemalignExit(pid, memory, stackId, now) => FinishMemalign(g, pid, memory, stackId, now);
      case Enter(pid, size, now) =>
      case SetMemptr(pid, memptr) =>
    }
  }

  lemma StepIsInterleaving(c: Config, g: Ledger, op: Op)
    ensures Reaches(c, Quiet(g), Quiet(Step(c, g, op)))
  {
    var x, pc := Quiet(g), First(c, op);
    FinishIsStep(c, g, op);
    assert x.cpus - {0} == map[];
    assert pc.Some? ==> x.cpus[0 := pc.value] == map[0 := pc.value];
    assert Do(c, x, Begin(0, op)) == Resume(g, pc);
    OneAction(c, x, Begin(0, op));
    if pc.Some? {
      SoloFinishes(c, g, pc.value);
      ReachesTransitive(c, x, Solo(g, pc.value), Quiet(Step(c, g, op)));
    }
  }

  /** A sequential run is an exclusive interleaving. */
  lemma {:induction false} RunIsInterleaving(c: Config, g: Ledger, ops: seq<Op>)
    ensures Reaches(c, Quiet(g), Quiet(Run(c, g, ops)))
    decreases |ops|
  {
    if ops == [] {
      assert ExclusiveRun(c, Quiet(g), []) && Interleave(c, Quiet(g), []) == Quiet(g);
    } else {
      StepIsInterleaving(c, g, ops[0]);
      RunIsInterleaving(c, Step(c, g, ops[0]), ops[1..]);
      ReachesTransitive(c, Quiet(g), Quiet(Step(c, g, ops[0])), Quiet(Run(c, g, ops)));
    }
  }

  lemma RunInv(c: Config, g: Ledger, ops: seq<Op>)
    requires Inv(Quiet(g))
    ensures Inv(Quiet(Run(c, g, ops)))
  {
    RunIsInterleaving(c, g, ops);
    var acts :| ExclusiveRun(c, Quiet(g), acts) && Interleave(c, Quiet(g), acts) == Quiet(Run(c, g, ops));
    InterleaveInv(c, Quiet(g), acts);
  }
}
