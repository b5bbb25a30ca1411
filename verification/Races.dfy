/** What can and what cannot go wrong when programs overlap. */
module Races {
  import opened Words
  import opened BpfMaps
  import opened Accounting
  import opened Totals
  import opened Sums
  import opened Interleaving
  import opened Conservation
  import opened Exclusion
  import opened Ledgers
  import opened Simulation

  // ---------- no increment is lost ----------

  function WordAt(combined: map<U64, U64>, key: U64): U64 {
    if key in combined then combined[key] else 0
  }

  // What a step sets out to add to the word of a stack, less what it sets out to
  // subtract; giving up a subtraction takes that back.
  function Inflow(key: U64, m: Maps, pc: Pc): int {
    match pc
    case AllocsUpdate(_, _, info) => Share(Word, key, info)
    case FreeDelete(_, info) => -Share(Word, key, info)
    case DelLookup(_, info) => if KeyOf(info) in m.combined then 0 else Share(Word, key, info)
    case _ => 0
  }

  function InflowOf(key: U64, x: System, act: Action): int {
    if act.Advance? && act.cpu in x.cpus then Inflow(key, x.g.maps, x.cpus[act.cpu]) else 0
  }

  function Inflows(c: Config, x: System, acts: seq<Action>, key: U64): int
    decreases |acts|
  {
    if acts == [] then 0 else InflowOf(key, x, acts[0]) + Inflows(c, Do(c, x, acts[0]), acts[1..], key)
  }

  lemma NextInflow(g: Ledger, pc: Pc, key: U64)
    ensures Recorded(Next(g, pc).0, key) + Slip(key, g.maps, pc) == Recorded(g, key) + Inflow(key, g.maps, pc)
  {
    match pc {
      case AllocsUpdate(_, address, info) => InsertAdds(g, address, info, key);
      case FreeDelete(address, info) => DeleteRemoves(g, address, info, key);
      case _ => NextKeepsAllocs(g, pc);
    }
  }

  lemma DoInflow(c: Config, x: System, act: Action, key: U64)
    ensures Recorded(Do(c, x, act).g, key) + SlipOf(key, x, act) == Recorded(x.g, key) + InflowOf(key, x, act)
  {
    if act.Advance? && act.cpu in x.cpus {
      NextInflow(x.g, x.cpus[act.cpu], key);
    }
  }

  lemma {:induction false} InflowLaw(c: Config, x: System, acts: seq<Action>, key: U64)
    returns (y: System, drift: int, inflow: int)
    ensures y == Interleave(c, x, acts) && drift == Drift(c, x, acts, key) && inflow == Inflows(c, x, acts, key)
    ensures Recorded(y.g, key) + drift == Recorded(x.g, key) + inflow
    decreases |acts|
  {
    if acts == [] {
      y, drift, inflow := x, 0, 0;
    } else {
      DoInflow(c, x, acts[0], key);
      y, drift, inflow := InflowLaw(c, Do(c, x, acts[0]), acts[1..], key);
      drift, inflow := drift + SlipOf(key, x, acts[0]), inflow + InflowOf(key, x, acts[0]);
    }
  }

  /** No increment is lost and none is counted twice, in any interleaving from any
      sound state: unless its stack is refused, a word changes by what was on its way to it
      at the start and what came in since, less what is still on its way. */
  lemma NoIncrementLost(c: Config, x: System, acts: seq<Action>, key: U64) returns (y: System, owed: int)
    requires Sound(x)
    ensures y == Interleave(c, x, acts)
    ensures owed == WordAt(x.g.maps.combined, key)
                    + Sum(x.cpus, DebtOf(key)) + Inflows(c, x, acts, key) - Sum(y.cpus, DebtOf(key))
    ensures Pays(y.g.maps.combined, key, owed)
  {
    var off, drift, inflow, off';
    off := WordOff(x, key);
    y, drift, inflow := InflowLaw(c, x, acts, key);
    y, off' := DriftSum(c, x, acts, key, off, drift);
    owed := OffPays(y, key, off');
  }

  lemma OffPays(y: System, key: U64, off: int) returns (owed: int)
    requires OffBy(y, key, off)
    ensures owed == Recorded(y.g, key) - Sum(y.cpus, DebtOf(key)) + off
    ensures Pays(y.g.maps.combined, key, owed)
  {
    owed := Owed(y, key) + off;
  }

  lemma WordOff(x: System, key: U64) returns (off: int)
    ensures off == WordAt(x.g.maps.combined, key) - Recorded(x.g, key) + Sum(x.cpus, DebtOf(key))
    ensures OffBy(x, key, off)
  {
    off := WordAt(x.g.maps.combined, key) - Owed(x, key);
    SmallDoesNotWrap(WordAt(x.g.maps.combined, key));
  }

  // Whatever else goes on, only the programs in flight count for the stack.
  predicate OtherTraffic(c: Config, x: System, acts: seq<Action>, key: U64)
    decreases |acts|
  {
    acts != [] ==>
      && (acts[0].Advance? && acts[0].cpu in x.cpus ==> Elsewhere(x.cpus[acts[0].cpu], key))
      && OtherTraffic(c, Do(c, x, acts[0]), acts[1..], key)
  }

  predicate Elsewhere(pc: Pc, key: U64) {
    pc.AllocsUpdate? || pc.FreeDelete? || pc.DelLookup? ==> KeyOf(pc.info) != key
  }

  lemma {:induction false} NoInflow(c: Config, x: System, acts: seq<Action>, key: U64)
    requires OtherTraffic(c, x, acts, key)
    ensures Inflows(c, x, acts, key) == 0
    decreases |acts|
  {
    if acts == [] {
    } else {
      NoInflow(c, Do(c, x, acts[0]), acts[1..], key);
    }
  }

  /** The creation race: however many CPUs start to count for the same untracked stack,
      amid any other traffic that leaves room for its key, when all have finished the
      word is the sum of their increments. */
  lemma CreationRace(c: Config, x: System, acts: seq<Action>, key: U64)
    requires Sound(x) && key !in x.g.maps.combined
    requires exists cpu :: cpu in x.cpus && Debt(key, x.cpus[cpu]) != 0
    requires forall cpu :: cpu in x.cpus && Debt(key, x.cpus[cpu]) != 0 ==> x.cpus[cpu].AddLookup?
    requires OtherTraffic(c, x, acts, key)
    requires Countable(Interleave(c, x, acts).g.maps, key)
    requires forall cpu :: cpu in Interleave(c, x, acts).cpus ==> Debt(key, Interleave(c, x, acts).cpus[cpu]) == 0
    ensures var y := Interleave(c, x, acts);
            key in y.g.maps.combined && y.g.maps.combined[key] == Wrap64(Sum(x.cpus, AddsOf(key)))
  {
    AddersOwe(x.cpus, key);
    NoInflow(c, x, acts, key);
    var y, owed := NoIncrementLost(c, x, acts, key);
    SumZero(y.cpus, DebtOf(key));
    assert owed == Sum(x.cpus, AddsOf(key)) > 0;
    PaidInFull(y.g.maps, key, owed);
  }

  lemma PaidInFull(m: Maps, key: U64, owed: int)
    requires Pays(m.combined, key, owed) && Countable(m, key) && owed > 0
    ensures key in m.combined && m.combined[key] == Wrap64(owed)
  {}

  lemma AddersOwe(cpus: map<Cpu, Pc>, key: U64)
    requires exists cpu :: cpu in cpus && Debt(key, cpus[cpu]) != 0
    requires forall cpu :: cpu in cpus && Debt(key, cpus[cpu]) != 0 ==> cpus[cpu].AddLookup?
    ensures Sum(cpus, AddsOf(key)) == Sum(cpus, DebtOf(key)) > 0
  {
    DebtSplits(cpus, key);
    SumZero(cpus, SubsOf(key));
    SumNonNegative(cpus, AddsOf(key));
    var cpu :| cpu in cpus && Debt(key, cpus[cpu]) != 0;
    assert AddsOf(key)(cpus[cpu]) > 0;
  }

  // ---------- without exclusion ----------

  // Two CPUs, each idle or with a next step.
  function Pair(g: Ledger, p: Option<Pc>, q: Option<Pc>): System {
    System(g, Goto(Goto(map[], 0, p), 1, q))
  }

  const BOTH := [Advance(0), Advance(1)]

  lemma GotoPair(p: Pc, q: Pc, p': Option<Pc>, q': Option<Pc>)
    ensures Goto(Goto(map[0 := p, 1 := q], 0, p'), 1, q') == Goto(Goto(map[], 0, p'), 1, q')
  {}

  lemma Lockstep(c: Config, g: Ledger, p: Pc, q: Pc)
    ensures var n := Next(g, p);
            Interleave(c, Pair(g, Some(p), Some(q)), BOTH) == Pair(Next(n.0, q).0, n.1, Next(n.0, q).1)
  {
    var x := System(g, map[0 := p, 1 := q]);
    var n := Next(g, p);
    var y := System(n.0, Goto(x.cpus, 0, n.1));
    assert Pair(g, Some(p), Some(q)) == x;
    assert Do(c, x, Advance(0)) == y;
    assert 1 in y.cpus && y.cpus[1] == q;
    InterleaveTwo(c, x, Advance(0), Advance(1));
    GotoPair(p, q, n.1, Next(n.0, q).1);
  }

  function Rounds(n: nat): seq<Action> {
    if n == 0 then [] else BOTH + Rounds(n - 1)
  }

  lemma InTurn(c: Config, x: System, a: seq<Action>, y: System, b: seq<Action>, z: System)
    requires Interleave(c, x, a) == y && Interleave(c, y, b) == z
    ensures Interleave(c, x, a + b) == z
  {
    InterleaveConcat(c, x, a, b);
  }

  lemma AfterRound(c: Config, x: System, n: nat, y: System)
    requires n > 0 && Interleave(c, x, BOTH) == y
    ensures Interleave(c, x, Rounds(n)) == Interleave(c, y, Rounds(n - 1))
  {
    InterleaveConcat(c, x, BOTH, Rounds(n - 1));
  }

  lemma BeginBoth(c: Config, g: Ledger, a: Op, b: Op)
    requires First(c, a).Some? && First(c, b).Some?
    ensures Interleave(c, System(g, map[]), [Begin(0, a), Begin(1, b)]) == Pair(g, First(c, a), First(c, b))
  {
    InterleaveTwo(c, System(g, map[]), Begin(0, a), Begin(1, b));
  }

  function Without(g: Ledger, a: U64): Ledger {
    g.(maps := g.maps.(allocs := DeleteElem(g.maps.allocs, a)))
  }

  lemma LookupRound(c: Config, g: Ledger, a: U64, info: AllocInfo)
    requires a in g.maps.allocs && g.maps.allocs[a] == info
    ensures Interleave(c, Pair(g, Some(FreeLookup(a)), Some(FreeLookup(a))), BOTH)
         == Pair(g, Some(FreeDelete(a, info)), Some(FreeDelete(a, info)))
  {
    Lockstep(c, g, FreeLookup(a), FreeLookup(a));
  }

  lemma DeleteRound(c: Config, g: Ledger, a: U64, info: AllocInfo)
    ensures Interleave(c, Pair(g, Some(FreeDelete(a, info)), Some(FreeDelete(a, info))), BOTH)
         == Pair(Without(g, a), Some(DelLookup(a, info)), Some(DelLookup(a, info)))
  {
    Lockstep(c, g, FreeDelete(a, info), FreeDelete(a, info));
    DeleteAbsent(Without(g, a).maps.allocs, a);
  }

  lemma IndexRound(c: Config, g: Ledger, a: U64, info: AllocInfo)
    requires KeyOf(info) in g.maps.combined
    ensures Interleave(c, Pair(g, Some(DelLookup(a, info)), Some(DelLookup(a, info))), BOTH)
         == Pair(g, Some(DelFetch(a, info)), Some(DelFetch(a, info)))
  {
    Lockstep(c, g, DelLookup(a, info), DelLookup(a, info));
  }

  lemma FetchRound(c: Config, g: Ledger, a: U64, info: AllocInfo)
    ensures Interleave(c, Pair(g, Some(DelFetch(a, info)), Some(DelFetch(a, info))), BOTH)
         == Quiet(PutCombined(g, SubStat(SubStat(g.maps.combined, KeyOf(info), info.size), KeyOf(info), info.size)))
  {
    Lockstep(c, g, DelFetch(a, info), DelFetch(a, info));
  }

  function RacingFrees(a: U64): seq<Action> {
    [Begin(0, Free(a)), Begin(1, Free(a))] + Rounds(4)
  }

  function SubtractedTwice(g: Ledger, a: U64, info: AllocInfo): Ledger {
    PutCombined(Without(g, a), SubStat(SubStat(g.maps.combined, KeyOf(info), info.size), KeyOf(info), info.size))
  }

  /** Two frees of the same address that both look it up before either deletes it
      subtract twice, whatever the maps hold. */
  lemma RacingFreesSubtractTwice(c: Config, g: Ledger, a: U64, info: AllocInfo)
    requires a in g.maps.allocs && g.maps.allocs[a] == info && KeyOf(info) in g.maps.combined
    ensures Interleave(c, Quiet(g), RacingFrees(a)) == Quiet(SubtractedTwice(g, a, info))
  {
    BeginBoth(c, g, Free(a), Free(a));
    RacingRounds(c, g, a, info);
    InTurn(c, Quiet(g), [Begin(0, Free(a)), Begin(1, Free(a))], Pair(g, Some(FreeLookup(a)), Some(FreeLookup(a))),
           Rounds(4), Quiet(SubtractedTwice(g, a, info)));
  }

  lemma RacingRounds(c: Config, g: Ledger, a: U64, info: AllocInfo)
    requires a in g.maps.allocs && g.maps.allocs[a] == info && KeyOf(info) in g.maps.combined
    ensures Interleave(c, Pair(g, Some(FreeLookup(a)), Some(FreeLookup(a))), Rounds(4))
         == Quiet(SubtractedTwice(g, a, info))
  {
    var h := Without(g, a);
    var delete, lookup, fetch := Some(FreeDelete(a, info)), Some(DelLookup(a, info)), Some(DelFetch(a, info));
    LookupRound(c, g, a, info);
    AfterRound(c, Pair(g, Some(FreeLookup(a)), Some(FreeLookup(a))), 4, Pair(g, delete, delete));
    DeleteRound(c, g, a, info);
    AfterRound(c, Pair(g, delete, delete), 3, Pair(h, lookup, lookup));
    IndexRound(c, h, a, info);
    AfterRound(c, Pair(h, lookup, lookup), 2, Pair(h, fetch, fetch));
    FetchRound(c, h, a, info);
    var end := Interleave(c, Pair(h, fetch, fetch), BOTH);
    AfterRound(c, Pair(h, fetch, fetch), 1, end);
  }

  lemma TwiceIsNotOnce(recorded: int, size: U64)
    ensures AtomicSub(AtomicSub(Wrap64(recorded), Increment(size)), Increment(size))
         != Wrap64(recorded - Increment(size))
  {
    var taken: int := Increment(size);
    IncrementBound(size);
    WrapSum(recorded, -taken);
    WrapSum(recorded - taken, -taken);
    WrapShift(recorded - taken, -taken);
    SmallSlip(-taken);
  }

  /** So this run from an exact index breaks conservation, for every entry of a tracked stack. */
  lemma RaceBreaksConservation(c: Config, g: Ledger, a: U64, info: AllocInfo)
    requires IndexedAt(g, KeyOf(info))
    requires a in g.maps.allocs && g.maps.allocs[a] == info && KeyOf(info) in g.maps.combined
    ensures !Conserved(Interleave(c, Quiet(g), RacingFrees(a)), KeyOf(info))
  {
    var h := SubtractedTwice(g, a, info);
    RacingFreesSubtractTwice(c, g, a, info);
    SumRemove(g.maps.allocs, AtStack(Word, KeyOf(info)), a);
    TwiceIsNotOnce(Recorded(g, KeyOf(info)), info.size);
    assert Expected(Quiet(h), KeyOf(info)) == Recorded(g, KeyOf(info)) - Increment(info.size);
  }

  // ---------- one program stopped while another runs to its end ----------

  function Advances(cpu: Cpu, n: nat): seq<Action> {
    if n == 0 then [] else [Advance(cpu)] + Advances(cpu, n - 1)
  }

  lemma OneAdvance(c: Config, x: System, cpu: Cpu, n: nat)
    requires n > 0
    ensures Interleave(c, x, Advances(cpu, n)) == Interleave(c, Do(c, x, Advance(cpu)), Advances(cpu, n - 1))
  {
    assert Advances(cpu, n)[1..] == Advances(cpu, n - 1);
  }

  lemma {:induction false} IdleStays(c: Config, x: System, cpu: Cpu, n: nat)
    requires cpu !in x.cpus
    ensures Interleave(c, x, Advances(cpu, n)) == x
    decreases n
  {
    if n == 0 {
    } else {
      OneAdvance(c, x, cpu, n);
      IdleStays(c, x, cpu, n - 1);
    }
  }

  // One step of a program that is not disturbed.
  lemma AdvanceAlone(c: Config, g: Ledger, cpus: map<Cpu, Pc>, cpu: Cpu, pc: Pc) returns (g': Ledger, pc': Option<Pc>)
    requires cpu !in cpus
    ensures Do(c, System(g, cpus[cpu := pc]), Advance(cpu))
         == System(g', if pc'.Some? then cpus[cpu := pc'.value] else cpus)
    ensures Finish(g, pc) == if pc'.Some? then Finish(g', pc'.value) else g'
    ensures pc'.Some? ==> Rank(pc'.value) < Rank(pc)
  {
    var next := Next(g, pc);
    g', pc' := next.0, next.1;
    RankFalls(g, pc);
    assert cpus[cpu := pc] - {cpu} == cpus;
    assert pc'.Some? ==> cpus[cpu := pc][cpu := pc'.value] == cpus[cpu := pc'.value];
  }

  lemma {:induction false} RunsToItsEnd(c: Config, g: Ledger, cpus: map<Cpu, Pc>, cpu: Cpu, pc: Pc, n: nat)
    returns (end: Ledger)
    requires cpu !in cpus && Rank(pc) <= n
    ensures end == Finish(g, pc)
    ensures Interleave(c, System(g, cpus[cpu := pc]), Advances(cpu, n)) == System(end, cpus)
    decreases n
  {
    var g', pc' := AdvanceAlone(c, g, cpus, cpu, pc);
    OneAdvance(c, System(g, cpus[cpu := pc]), cpu, n);
    if pc'.Some? {
      end := RunsToItsEnd(c, g', cpus, cpu, pc'.value, n - 1);
    } else {
      end := g';
      IdleStays(c, System(g', cpus), cpu, n - 1);
    }
  }

  // A program from its beginning to its end.
  function Alone(cpu: Cpu, op: Op): seq<Action> {
    [Begin(cpu, op)] + Advances(cpu, 9)
  }

  lemma AloneIsStep(c: Config, g: Ledger, cpus: map<Cpu, Pc>, cpu: Cpu, op: Op)
    requires cpu !in cpus
    ensures Interleave(c, System(g, cpus), Alone(cpu, op)) == System(Step(c, g, op), cpus)
  {
    var x := System(g, cpus);
    FinishIsStep(c, g, op);
    assert Alone(cpu, op)[1..] == Advances(cpu, 9);
    if First(c, op).Some? {
      var end := RunsToItsEnd(c, g, cpus, cpu, First(c, op).value, 9);
    } else {
      assert cpus - {cpu} == cpus;
      IdleStays(c, x, cpu, 9);
    }
  }

  // An allocation whose enter and exit run to their ends.
  function Allocate(p: Pid, size: U64, a: U64, s: I32): seq<Action> {
    Alone(0, Enter(p, size, 0)) + Alone(0, Exit(p, a, s, 0))
  }

  function OneBlock(size: U64, a: U64, s: I32): Ledger {
    Ledger(Maps(map[], map[], map[a := AllocInfo(size, 0, s)], map[StackKey(s) := Increment(size)]), [])
  }

  function OneSize(p: Pid, size: U64): Ledger {
    Ledger(Maps(map[p := size], map[], map[], map[]), [])
  }

  lemma EnterFirst(c: Config, p: Pid, size: U64)
    requires Accepts(c, p, size, 0)
    ensures Interleave(c, START, Alone(0, Enter(p, size, 0))) == Quiet(OneSize(p, size))
  {
    AloneIsStep(c, EMPTY, map[], 0, Enter(p, size, 0));
  }

  lemma ExitFirst(p: Pid, size: U64, a: U64, s: I32)
    requires a != 0
    ensures RunExit(OneSize(p, size), p, a, s, 0) == OneBlock(size, a, s)
  {
    var info := AllocInfo(size, 0, s);
    var taken := EMPTY;
    assert OneSize(p, size).maps.sizes - {p} == map[];
    AddStatFresh(map[], StackKey(s), size);
    assert InsertAlloc(taken, a, info).lost == [];
  }

  lemma AllocateFirst(c: Config, p: Pid, size: U64, a: U64, s: I32)
    requires Accepts(c, p, size, 0) && a != 0
    ensures Interleave(c, START, Allocate(p, size, a, s)) == Quiet(OneBlock(size, a, s))
  {
    EnterFirst(c, p, size);
    ExitFirst(p, size, a, s);
    AloneIsStep(c, OneSize(p, size), map[], 0, Exit(p, a, s, 0));
    InTurn(c, START, Alone(0, Enter(p, size, 0)), Quiet(OneSize(p, size)),
           Alone(0, Exit(p, a, s, 0)), Quiet(OneBlock(size, a, s)));
  }

  lemma OneBlockIndexed(size: U64, a: U64, s: I32)
    ensures IndexedAt(OneBlock(size, a, s), StackKey(s))
  {
    var g := OneBlock(size, a, s);
    SumRemove(g.maps.allocs, AtStack(Word, StackKey(s)), a);
    assert g.maps.allocs - {a} == map[];
    SmallDoesNotWrap(Increment(size));
  }

  /** A run from the start, for every accepted size, that is not conserved. */
  lemma RaceFromStart(c: Config, p: Pid, size: U64, a: U64, s: I32)
    requires Accepts(c, p, size, 0) && a != 0
    ensures !Conserved(Interleave(c, START, Allocate(p, size, a, s) + RacingFrees(a)), StackKey(s))
  {
    var g := OneBlock(size, a, s);
    AllocateFirst(c, p, size, a, s);
    OneBlockIndexed(size, a, s);
    RaceBreaksConservation(c, g, a, AllocInfo(size, 0, s));
    InterleaveConcat(c, START, Allocate(p, size, a, s), RacingFrees(a));
  }

  /** Exclusion must last until the statistic is added: a free that comes between the
      two updates of the exit finds no word to subtract from, and the word that the
      exit then creates counts an entry that is gone. */
  lemma EarlyFreeLeavesGhost(c: Config, g: Ledger, a: U64, info: AllocInfo)
    requires a in g.maps.allocs && g.maps.allocs[a] == info
    requires KeyOf(info) !in g.maps.combined && |g.maps.combined| < COMBINED_ALLOCS_MAX_ENTRIES
    ensures Interleave(c, Solo(g, AddLookup(a, info)), Alone(1, Free(a)) + Advances(0, 4))
         == Quiet(PutCombined(Without(g, a), g.maps.combined[KeyOf(info) := Increment(info.size)]))
  {
    var adder: map<Cpu, Pc> := map[0 := AddLookup(a, info)];
    var h := Without(g, a);
    AloneIsStep(c, g, adder, 1, Free(a));
    FreeUncounted(g, a, info);
    AdderEnds(c, h, a, info);
    FirstCount(h, info);
    InTurn(c, System(g, adder), Alone(1, Free(a)), System(h, adder), Advances(0, 4), Quiet(CountAdd(h, info)));
  }

  lemma AdderEnds(c: Config, g: Ledger, a: U64, info: AllocInfo)
    ensures Interleave(c, Solo(g, AddLookup(a, info)), Advances(0, 4)) == Quiet(CountAdd(g, info))
  {
    assert map[][0 := AddLookup(a, info)] == map[0 := AddLookup(a, info)];
    var end := RunsToItsEnd(c, g, map[], 0, AddLookup(a, info), 4);
    FinishAdd(g, a, info);
  }

  lemma FreeUncounted(g: Ledger, a: U64, info: AllocInfo)
    requires a in g.maps.allocs && g.maps.allocs[a] == info && KeyOf(info) !in g.maps.combined
    ensures RunFree(g, a) == Without(g, a)
  {}

  lemma FirstCount(g: Ledger, info: AllocInfo)
    requires KeyOf(info) !in g.maps.combined && |g.maps.combined| < COMBINED_ALLOCS_MAX_ENTRIES
    ensures CountAdd(g, info) == PutCombined(g, g.maps.combined[KeyOf(info) := Increment(info.size)])
  {
    AddStatFresh(g.maps.combined, KeyOf(info), info.size);
  }

  // An exit up to the point where its entry is stored and not yet counted.
  function ExitHalfway(p: Pid, a: U64, s: I32): seq<Action> {
    [Begin(0, Exit(p, a, s, 0))] + Advances(0, 3)
  }

  function Stored(size: U64, a: U64, s: I32): Ledger {
    Ledger(Maps(map[], map[], map[a := AllocInfo(size, 0, s)], map[]), [])
  }

  lemma ExitBegins(c: Config, p: Pid, size: U64, a: U64, s: I32)
    ensures Interleave(c, Quiet(OneSize(p, size)), ExitHalfway(p, a, s))
         == Interleave(c, Solo(OneSize(p, size), ExitDelete(p, a, AllocInfo(size, 0, s))), Advances(0, 2))
  {
    var g := OneSize(p, size);
    var begun := Solo(g, ExitLookup(p, a, s, 0));
    assert ExitHalfway(p, a, s)[1..] == Advances(0, 3);
    assert Do(c, Quiet(g), Begin(0, Exit(p, a, s, 0))) == begun;
    assert Do(c, begun, Advance(0)) == Solo(g, ExitDelete(p, a, AllocInfo(size, 0, s)));
    OneAdvance(c, begun, 0, 3);
  }

  lemma ExitStores(c: Config, p: Pid, size: U64, a: U64, info: AllocInfo)
    requires a != 0 && info.size == size
    ensures Interleave(c, Solo(OneSize(p, size), ExitDelete(p, a, info)), Advances(0, 2))
         == Solo(InsertAlloc(EMPTY, a, info), AddLookup(a, info))
  {
    var x, y := Solo(OneSize(p, size), ExitDelete(p, a, info)), Solo(EMPTY, AllocsUpdate(p, a, info));
    var z := Solo(InsertAlloc(EMPTY, a, info), AddLookup(a, info));
    assert Do(c, x, Advance(0)) == y;
    assert Do(c, y, Advance(0)) == z;
    OneAdvance(c, x, 0, 2);
    OneAdvance(c, y, 0, 1);
  }

  lemma HalfwayStores(c: Config, p: Pid, size: U64, a: U64, s: I32)
    requires a != 0
    ensures Interleave(c, Quiet(OneSize(p, size)), ExitHalfway(p, a, s))
         == Solo(Stored(size, a, s), AddLookup(a, AllocInfo(size, 0, s)))
  {
    ExitBegins(c, p, size, a, s);
    ExitStores(c, p, size, a, AllocInfo(size, 0, s));
  }

  function Ghost(size: U64, s: I32): System {
    Quiet(Ledger(Maps(map[], map[], map[], map[StackKey(s) := Increment(size)]), []))
  }

  function EarlyFree(p: Pid, size: U64, a: U64, s: I32): seq<Action> {
    Alone(0, Enter(p, size, 0)) + ExitHalfway(p, a, s) + (Alone(1, Free(a)) + Advances(0, 4))
  }

  lemma StoredFirst(c: Config, p: Pid, size: U64, a: U64, s: I32)
    requires Accepts(c, p, size, 0) && a != 0
    ensures Interleave(c, START, Alone(0, Enter(p, size, 0)) + ExitHalfway(p, a, s))
         == Solo(Stored(size, a, s), AddLookup(a, AllocInfo(size, 0, s)))
  {
    EnterFirst(c, p, size);
    HalfwayStores(c, p, size, a, s);
    InTurn(c, START, Alone(0, Enter(p, size, 0)), Quiet(OneSize(p, size)), ExitHalfway(p, a, s),
           Solo(Stored(size, a, s), AddLookup(a, AllocInfo(size, 0, s))));
  }

  lemma ThenFreed(c: Config, size: U64, a: U64, s: I32)
    ensures Interleave(
              c, Solo(Stored(size, a, s), AddLookup(a, AllocInfo(size, 0, s))), Alone(1, Free(a)) + Advances(0, 4))
         == Ghost(size, s)
  {
    EarlyFreeLeavesGhost(c, Stored(size, a, s), a, AllocInfo(size, 0, s));
    assert Without(Stored(size, a, s), a).maps.allocs == map[];
  }

  /** A run from the start, for every accepted size, that leaves a word for nothing and
      is not conserved. */
  lemma GhostFromStart(c: Config, p: Pid, size: U64, a: U64, s: I32)
    requires Accepts(c, p, size, 0) && a != 0
    ensures Interleave(c, START, EarlyFree(p, size, a, s)) == Ghost(size, s)
    ensures !Conserved(Interleave(c, START, EarlyFree(p, size, a, s)), StackKey(s))
  {
    StoredFirst(c, p, size, a, s);
    ThenFreed(c, size, a, s);
    InTurn(c, START, Alone(0, Enter(p, size, 0)) + ExitHalfway(p, a, s),
           Solo(Stored(size, a, s), AddLookup(a, AllocInfo(size, 0, s))),
           Alone(1, Free(a)) + Advances(0, 4), Ghost(size, s));
    GhostIsNotConserved(Ghost(size, s), size, s);
  }

  lemma GhostIsNotConserved(x: System, size: U64, s: I32)
    requires x == Ghost(size, s)
    ensures !Conserved(x, StackKey(s))
  {
    IncrementBound(size);
    SmallDoesNotWrap(0);
    assert Expected(x, StackKey(s)) == 0;
  }
}
