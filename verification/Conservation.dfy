/** When the index `combined_allocs` agrees with `allocs`, however the programs
    interleave and whichever addresses they work on. */
module Conservation {
  import opened Words
  import opened BpfMaps
  import opened Accounting
  import opened Totals
  import opened Sums
  import opened Interleaving

  // ---------- what a stack is owed ----------

  predicate PendingAdd(pc: Pc) {
    pc.AddLookup? || pc.AddTryInit? || pc.AddLookupAgain? || pc.AddFetch?
  }

  predicate PendingSub(pc: Pc) {
    pc.DelLookup? || pc.DelFetch?
  }

  // The additions less the subtractions that a program still has to make.
  function Debt(key: U64, pc: Pc): int {
    if PendingAdd(pc) then Share(Word, key, pc.info)
    else if PendingSub(pc) then -Share(Word, key, pc.info)
    else 0
  }

  function DebtOf(key: U64): Pc -> int {
    (pc: Pc) => Debt(key, pc)
  }

  // What the word of a stack should hold: the live and the lost entries, without
  // the additions and with the subtractions that are still on their way.
  ghost function Owed(x: System, key: U64): int {
    Recorded(x.g, key) - Sum(x.cpus, DebtOf(key))
  }

  ghost function Recorded(g: Ledger, key: U64): int {
    Live(Word, key, g.maps.allocs) + Lost(Word, key, g.lost)
  }

  // A tracked word is what its stack is owed, modulo 2^64; a stack that is neither
  // tracked nor refused for good is owed nothing at all.
  predicate Pays(combined: map<U64, U64>, key: U64, owed: int) {
    if key in combined then combined[key] == Wrap64(owed)
    else |combined| < COMBINED_ALLOCS_MAX_ENTRIES ==> owed == 0
  }

  // The word of a stack is `off` from what the stack is owed.
  ghost predicate OffBy(x: System, key: U64, off: int) {
    Pays(x.g.maps.combined, key, Owed(x, key) + off)
  }

  ghost predicate Balanced(x: System, key: U64) {
    OffBy(x, key, 0)
  }

  ghost predicate AllBalanced(x: System) {
    forall key: U64 :: Balanced(x, key)
  }

  // Tracked, or refused for good: keys never leave the map, so a full map stays full.
  predicate Known(m: Maps, key: U64) {
    key in m.combined || |m.combined| >= COMBINED_ALLOCS_MAX_ENTRIES
  }

  // Tracked, or with room to become so.
  predicate Countable(m: Maps, key: U64) {
    key in m.combined || |m.combined| < COMBINED_ALLOCS_MAX_ENTRIES
  }

  // What holds of a program in flight whatever the others do.
  predicate PcSound(m: Maps, pc: Pc) {
    match pc
    case AllocsUpdate(_, address, _) => address != 0
    case AddLookupAgain(_, info) => KeyOf(info) in m.combined
    case AddFetch(_, info) => KeyOf(info) in m.combined
    case DelFetch(_, info) => KeyOf(info) in m.combined
    case _ => true
  }

  predicate WithinLimits(m: Maps) {
    && |m.sizes| <= SIZES_MAX_ENTRIES
    && |m.memptrs| <= MEMPTRS_MAX_ENTRIES
    && |m.allocs| <= ALLOCS_MAX_ENTRIES
    && |m.combined| <= COMBINED_ALLOCS_MAX_ENTRIES
    && 0 !in m.allocs
    && forall k :: k in m.combined ==> IsStackKey(k)
  }

  predicate Sound(x: System) {
    WithinLimits(x.g.maps) && forall c :: c in x.cpus ==> PcSound(x.g.maps, x.cpus[c])
  }

  // ---------- where the index goes wrong ----------

  // What a delete takes away from a stack.
  function Removed(key: U64, m: Maps, address: U64): int {
    if address in m.allocs then Share(Word, key, m.allocs[address]) else 0
  }

  // How far one map operation moves the word of a stack away from what the stack is
  // owed. Only two of them can: a delete that does not remove what its lookup saw,
  // and a subtraction that finds no word to subtract from.
  function Slip(key: U64, m: Maps, pc: Pc): int {
    match pc
    case FreeDelete(address, info) => Removed(key, m, address) - Share(Word, key, info)
    case DelLookup(_, info) => if KeyOf(info) in m.combined then 0 else Share(Word, key, info)
    case _ => 0
  }

  function SlipOf(key: U64, x: System, act: Action): int {
    if act.Advance? && act.cpu in x.cpus then Slip(key, x.g.maps, x.cpus[act.cpu]) else 0
  }

  // All the slips of a run.
  function Drift(c: Config, x: System, acts: seq<Action>, key: U64): int
    decreases |acts|
  {
    if acts == [] then 0 else SlipOf(key, x, acts[0]) + Drift(c, Do(c, x, acts[0]), acts[1..], key)
  }

  // Two allocations that no word can tell apart.
  predicate CountAlike(a: AllocInfo, b: AllocInfo) {
    KeyOf(a) == KeyOf(b) && Increment(a.size) == Increment(b.size)
  }

  // A delete must remove an entry that counts like the one its lookup saw, except
  // that stacks refused for good do not count; a subtraction must look for a stack
  // that is tracked or refused for good.
  predicate Clean(m: Maps, pc: Pc) {
    match pc
    case FreeDelete(address, info) =>
      if address in m.allocs && Countable(m, KeyOf(m.allocs[address])) then CountAlike(m.allocs[address], info)
      else !Countable(m, KeyOf(info))
    case DelLookup(_, info) => Known(m, KeyOf(info))
    case _ => true
  }

  predicate CleanAct(x: System, act: Action) {
    act.Advance? && act.cpu in x.cpus ==> Clean(x.g.maps, x.cpus[act.cpu])
  }

  predicate CleanRun(c: Config, x: System, acts: seq<Action>)
    decreases |acts|
  {
    acts != [] ==> CleanAct(x, acts[0]) && CleanRun(c, Do(c, x, acts[0]), acts[1..])
  }

  ghost predicate AlwaysBalanced(c: Config, x: System, acts: seq<Action>)
    decreases |acts|
  {
    AllBalanced(x) && (acts != [] ==> AlwaysBalanced(c, Do(c, x, acts[0]), acts[1..]))
  }

  // ---------- one map operation ----------

  lemma GotoSum(cpus: map<Cpu, Pc>, cpu: Cpu, pc: Option<Pc>, f: Pc -> int)
    ensures Sum(Goto(cpus, cpu, pc), f)
         == Sum(cpus, f) - (if cpu in cpus then f(cpus[cpu]) else 0) + (if pc.Some? then f(pc.value) else 0)
  {
    match pc
    case Some(p) => SumPut(cpus, f, cpu, p);
    case None =>
      if cpu in cpus {
        SumRemove(cpus, f, cpu);
      } else {
        assert cpus - {cpu} == cpus;
      }
  }

  // Recording an entry adds its word to the live and lost entries of its stack,
  // whether it is inserted, overwrites another entry or is refused.
  lemma InsertAdds(g: Ledger, address: U64, info: AllocInfo, key: U64)
    ensures Recorded(InsertAlloc(g, address, info), key) == Recorded(g, key) + Share(Word, key, info)
  {
    SumPut(g.maps.allocs, AtStack(Word, key), address, info);
    var loss := LossOf(g.maps.allocs, address, info);
    if loss == [] {
      assert g.lost + loss == g.lost;
    } else {
      LostSnoc(Word, key, g.lost, loss[0]);
    }
  }

  function DebtLeft(key: U64, pc: Option<Pc>): int {
    if pc.Some? then Debt(key, pc.value) else 0
  }

  // The debt that a step settles in the word; a subtraction given up settles nothing.
  function Settled(key: U64, pc: Pc, pc': Option<Pc>): int {
    if pc'.None? && !pc.DelLookup? then Debt(key, pc) else 0
  }

  lemma NextKeepsAllocs(g: Ledger, pc: Pc)
    requires !pc.AllocsUpdate? && !pc.FreeDelete?
    ensures Next(g, pc).0.maps.allocs == g.maps.allocs && Next(g, pc).0.lost == g.lost
  {}

  lemma NextDebt(g: Ledger, pc: Pc, key: U64)
    requires !pc.AllocsUpdate? && !pc.FreeDelete?
    ensures DebtLeft(key, Next(g, pc).1) == Debt(key, pc) - Settled(key, pc, Next(g, pc).1) + Slip(key, g.maps, pc)
  {
    if PendingAdd(pc) {
      AddDebt(g, pc, key);
    } else if PendingSub(pc) {
      SubDebt(g, pc, key);
    }
  }

  lemma AddDebt(g: Ledger, pc: Pc, key: U64)
    requires PendingAdd(pc)
    ensures DebtLeft(key, Next(g, pc).1) == Debt(key, pc) - Settled(key, pc, Next(g, pc).1)
  {
    assert Next(g, pc).1.Some? ==> PendingAdd(Next(g, pc).1.value) && Next(g, pc).1.value.info == pc.info;
  }

  lemma SubDebt(g: Ledger, pc: Pc, key: U64)
    requires PendingSub(pc)
    ensures DebtLeft(key, Next(g, pc).1) == Debt(key, pc) - Settled(key, pc, Next(g, pc).1) + Slip(key, g.maps, pc)
  {
    assert Next(g, pc).1.Some? ==> pc.DelLookup? && Next(g, pc).1.value == DelFetch(pc.address, pc.info);
  }

  lemma DeleteRemoves(g: Ledger, address: U64, info: AllocInfo, key: U64)
    ensures Recorded(Next(g, FreeDelete(address, info)).0, key) == Recorded(g, key) - Removed(key, g.maps, address)
  {
    if address in g.maps.allocs {
      SumRemove(g.maps.allocs, AtStack(Word, key), address);
    } else {
      DeleteAbsent(g.maps.allocs, address);
    }
  }

  // While a program runs, what it records it also owes, up to its slips; ending
  // settles its debt.
  lemma NextRecorded(g: Ledger, pc: Pc, key: U64)
    ensures Recorded(Next(g, pc).0, key) - DebtLeft(key, Next(g, pc).1) + Slip(key, g.maps, pc)
         == Recorded(g, key) - Debt(key, pc) + Settled(key, pc, Next(g, pc).1)
  {
    match pc {
      case AllocsUpdate(_, address, info) => InsertAdds(g, address, info, key);
      case FreeDelete(address, info) => DeleteRemoves(g, address, info, key);
      case _ =>
        NextKeepsAllocs(g, pc);
        NextDebt(g, pc, key);
    }
  }

  // The word of a tracked stack changes by exactly the debt that is settled; a
  // stack that stays out of a map with room has no debt settled at all.
  predicate Settles(before: map<U64, U64>, after: map<U64, U64>, key: U64, settled: int, ended: bool) {
    && (key in before ==> key in after && after[key] == Wrap64(before[key] + settled))
    && (key !in before && key in after ==> |before| < COMBINED_ALLOCS_MAX_ENTRIES && !ended && after[key] == 0)
    && (key !in after && |after| < COMBINED_ALLOCS_MAX_ENTRIES ==> settled == 0)
    && |before| <= |after|
  }

  // Only the last steps of update_statistics_add and update_statistics_del, and
  // the creation of a word, concern the statistics.
  predicate Counts(pc: Pc) {
    pc.AddTryInit? || pc.AddFetch? || pc.AddLookupAgain? || pc.DelLookup? || pc.DelFetch?
  }

  lemma NextKeepsCombined(g: Ledger, pc: Pc)
    requires !Counts(pc)
    ensures Next(g, pc).0.maps.combined == g.maps.combined
  {}

  lemma NextSettlesNothing(g: Ledger, pc: Pc, key: U64)
    requires !Counts(pc)
    ensures Settled(key, pc, Next(g, pc).1) == 0
  {
    if PendingAdd(pc) {
      assert pc.AddLookup? && Next(g, pc).1.Some?;
    }
  }

  predicate NextSettled(g: Ledger, pc: Pc, key: U64) {
    var n := Next(g, pc);
    Settles(g.maps.combined, n.0.maps.combined, key, Settled(key, pc, n.1), n.1.None?)
  }

  lemma SettlesNothing(combined: map<U64, U64>, key: U64, ended: bool)
    ensures Settles(combined, combined, key, 0, ended)
  {}

  lemma CreationSettles(g: Ledger, pc: Pc, key: U64)
    requires pc.AddTryInit?
    ensures NextSettled(g, pc, key)
  {}

  lemma AddSettles(g: Ledger, pc: Pc, key: U64)
    requires pc.AddFetch? && PcSound(g.maps, pc)
    ensures NextSettled(g, pc, key)
  {}

  lemma SubSettles(g: Ledger, pc: Pc, key: U64)
    requires pc.DelFetch? && PcSound(g.maps, pc)
    ensures NextSettled(g, pc, key)
  {}

  lemma LookupSettles(g: Ledger, pc: Pc, key: U64)
    requires (pc.AddLookupAgain? || pc.DelLookup?) && PcSound(g.maps, pc)
    ensures NextSettled(g, pc, key)
  {}

  lemma NextSettles(g: Ledger, pc: Pc, key: U64)
    requires PcSound(g.maps, pc)
    ensures NextSettled(g, pc, key)
  {
    if pc.AddTryInit? {
      CreationSettles(g, pc, key);
    } else if pc.AddFetch? {
      AddSettles(g, pc, key);
    } else if pc.DelFetch? {
      SubSettles(g, pc, key);
    } else if Counts(pc) {
      LookupSettles(g, pc, key);
    } else {
      NextKeepsCombined(g, pc);
      NextSettlesNothing(g, pc, key);
      SettlesNothing(g.maps.combined, key, Next(g, pc).1.None?);
    }
  }

  lemma SettlingPays(
    before: map<U64, U64>, after: map<U64, U64>, key: U64, owed: int, owed': int, settled: int, ended: bool)
    requires Pays(before, key, owed) && Settles(before, after, key, settled, ended)
    requires (!ended ==> settled == 0) && owed' == owed + settled
    ensures Pays(after, key, owed')
  {
    WrapSum(owed, settled);
  }

  lemma GotoOwed(x: System, cpu: Cpu, g: Ledger, pc: Option<Pc>, y: System, key: U64, change: int)
    requires cpu in x.cpus && y == System(g, Goto(x.cpus, cpu, pc))
    requires Recorded(g, key) - DebtLeft(key, pc) == Recorded(x.g, key) - Debt(key, x.cpus[cpu]) + change
    ensures Owed(y, key) == Owed(x, key) + change
  {
    GotoSum(x.cpus, cpu, pc, DebtOf(key));
  }

  lemma EffectSlips(
    x: System, cpu: Cpu, g: Ledger, pc: Option<Pc>, y: System, key: U64, off: int, off': int, settled: int)
    requires cpu in x.cpus && y == System(g, Goto(x.cpus, cpu, pc)) && OffBy(x, key, off)
    requires Recorded(g, key) - DebtLeft(key, pc) + off' == Recorded(x.g, key) - Debt(key, x.cpus[cpu]) + off + settled
    requires Settles(x.g.maps.combined, g.maps.combined, key, settled, pc.None?)
    requires pc.Some? ==> settled == 0
    ensures OffBy(y, key, off')
  {
    GotoOwed(x, cpu, g, pc, y, key, off + settled - off');
    SettlingPays(x.g.maps.combined, g.maps.combined, key, Owed(x, key) + off, Owed(y, key) + off', settled, pc.None?);
  }

  lemma NextSlips(x: System, cpu: Cpu, y: System, key: U64, off: int, off': int)
    requires cpu in x.cpus && PcSound(x.g.maps, x.cpus[cpu]) && OffBy(x, key, off)
    requires y == System(Next(x.g, x.cpus[cpu]).0, Goto(x.cpus, cpu, Next(x.g, x.cpus[cpu]).1))
    requires off' == off + Slip(key, x.g.maps, x.cpus[cpu])
    ensures OffBy(y, key, off')
  {
    var pc := x.cpus[cpu];
    var n := Next(x.g, pc);
    NextRecorded(x.g, pc, key);
    NextSettles(x.g, pc, key);
    EffectSlips(x, cpu, n.0, n.1, y, key, off, off', Settled(key, pc, n.1));
  }

  lemma DoAdvance(c: Config, x: System, cpu: Cpu, y: System)
    requires cpu in x.cpus && y == Do(c, x, Advance(cpu))
    ensures y == System(Next(x.g, x.cpus[cpu]).0, Goto(x.cpus, cpu, Next(x.g, x.cpus[cpu]).1))
  {}

  lemma AdvanceSlips(c: Config, x: System, cpu: Cpu, y: System, key: U64, off: int, off': int)
    requires cpu in x.cpus && PcSound(x.g.maps, x.cpus[cpu]) && OffBy(x, key, off)
    requires y == Do(c, x, Advance(cpu)) && off' == off + Slip(key, x.g.maps, x.cpus[cpu])
    ensures OffBy(y, key, off')
  {
    DoAdvance(c, x, cpu, y);
    NextSlips(x, cpu, y, key, off, off');
  }

  // A program that has done nothing yet owes nothing.
  lemma FirstOwes(c: Config, op: Op, key: U64)
    ensures DebtLeft(key, First(c, op)) == 0
  {}

  lemma BeginOwes(x: System, cpu: Cpu, pc: Option<Pc>, y: System, key: U64)
    requires cpu !in x.cpus && y == System(x.g, Goto(x.cpus, cpu, pc)) && DebtLeft(key, pc) == 0
    ensures Owed(y, key) == Owed(x, key)
  {
    GotoSum(x.cpus, cpu, pc, DebtOf(key));
  }

  lemma BeginSlips(c: Config, x: System, cpu: Cpu, op: Op, y: System, key: U64, off: int)
    requires cpu !in x.cpus && y == Do(c, x, Begin(cpu, op)) && OffBy(x, key, off)
    ensures OffBy(y, key, off)
  {
    FirstOwes(c, op, key);
    BeginOwes(x, cpu, First(c, op), y, key);
  }

  // A word that is `off` from what its stack is owed is off by the slip more after a step.
  lemma DoSlips(c: Config, x: System, act: Action, y: System, key: U64, off: int, off': int)
    requires Sound(x) && OffBy(x, key, off)
    requires y == Do(c, x, act) && off' == off + SlipOf(key, x, act)
    ensures OffBy(y, key, off')
  {
    match act {
      case Begin(cpu, op) =>
        if cpu !in x.cpus {
          BeginSlips(c, x, cpu, op, y, key, off);
        }
      case Advance(cpu) =>
        if cpu in x.cpus {
          AdvanceSlips(c, x, cpu, y, key, off, off');
        }
    }
  }

  // ---------- soundness survives every step ----------

  lemma NextLimits(g: Ledger, pc: Pc)
    requires WithinLimits(g.maps) && PcSound(g.maps, pc)
    ensures WithinLimits(Next(g, pc).0.maps)
  {
    if PendingAdd(pc) || PendingSub(pc) {
      TruncateStackKey(pc.info.stackId);
    }
  }

  lemma NextKnown(g: Ledger, pc: Pc, key: U64)
    requires PcSound(g.maps, pc)
    ensures key in g.maps.combined ==> key in Next(g, pc).0.maps.combined
    ensures Known(g.maps, key) ==> Known(Next(g, pc).0.maps, key)
  {
    NextSettles(g, pc, key);
  }

  lemma NextSound(g: Ledger, pc: Pc)
    requires PcSound(g.maps, pc)
    ensures Next(g, pc).1.Some? ==> PcSound(Next(g, pc).0.maps, Next(g, pc).1.value)
  {}

  lemma NextOtherSound(g: Ledger, pc: Pc, other: Pc)
    requires PcSound(g.maps, pc) && PcSound(g.maps, other)
    ensures PcSound(Next(g, pc).0.maps, other)
  {
    if PendingAdd(other) || PendingSub(other) {
      NextKnown(g, pc, KeyOf(other.info));
    }
  }

  lemma DoSound(c: Config, x: System, act: Action)
    requires Sound(x)
    ensures Sound(Do(c, x, act))
  {
    if act.Advance? && act.cpu in x.cpus {
      var pc := x.cpus[act.cpu];
      var y := Do(c, x, act);
      NextLimits(x.g, pc);
      forall d | d in y.cpus
        ensures PcSound(y.g.maps, y.cpus[d])
      {
        if d == act.cpu {
          NextSound(x.g, pc);
        } else {
          NextOtherSound(x.g, pc, x.cpus[d]);
        }
      }
    }
  }

  lemma {:induction false} InterleaveSound(c: Config, x: System, acts: seq<Action>)
    requires Sound(x)
    ensures Sound(Interleave(c, x, acts))
    decreases |acts|
  {
    if acts == [] {
    } else {
      DoSound(c, x, acts[0]);
      InterleaveSound(c, Do(c, x, acts[0]), acts[1..]);
    }
  }

  // ---------- which steps keep the balance ----------

  lemma CountWeighs(key: U64, info: AllocInfo)
    ensures 0 <= Share(Word, key, info) <= 0x1FF_FFFF_FFFF
    ensures Share(Word, key, info) > 0 <==> KeyOf(info) == key
  {}

  lemma SlipBound(key: U64, m: Maps, pc: Pc)
    ensures -0x1FF_FFFF_FFFF <= Slip(key, m, pc) <= 0x1FF_FFFF_FFFF
  {
    if pc.FreeDelete? || pc.DelLookup? {
      CountWeighs(key, pc.info);
      if pc.FreeDelete? && pc.address in m.allocs {
        CountWeighs(key, m.allocs[pc.address]);
      }
    }
  }

  // Clean steps are those that do not slip at any stack that still counts.
  lemma CleanNeverSlips(m: Maps, pc: Pc, key: U64)
    requires Clean(m, pc) && Countable(m, key)
    ensures Slip(key, m, pc) == 0
  {}

  lemma UncleanSlips(m: Maps, pc: Pc) returns (key: U64)
    requires !Clean(m, pc)
    ensures Countable(m, key) && Slip(key, m, pc) != 0
  {
    key := if pc.FreeDelete? && pc.address in m.allocs && Countable(m, KeyOf(m.allocs[pc.address]))
    then KeyOf(m.allocs[pc.address]) else KeyOf(pc.info);
    CountWeighs(key, pc.info);
    if pc.FreeDelete? && pc.address in m.allocs {
      CountWeighs(key, m.allocs[pc.address]);
    }
  }

  lemma WrapShift(owed: int, slip: int)
    ensures Wrap64(owed + slip) == Wrap64(owed) <==> Wrap64(slip) == 0
  {}

  lemma SmallSlip(slip: int)
    requires -0x1_0000_0000_0000_0000 < slip < 0x1_0000_0000_0000_0000
    ensures Wrap64(slip) == 0 <==> slip == 0
  {}

  lemma SlippedBalance(x: System, key: U64, slip: int)
    requires OffBy(x, key, slip)
    requires -0x1_0000_0000_0000_0000 < slip < 0x1_0000_0000_0000_0000
    ensures Balanced(x, key) <==> (Countable(x.g.maps, key) ==> slip == 0)
  {
    WrapShift(Owed(x, key), slip);
    SmallSlip(slip);
  }

  lemma SlipKeepsCombined(g: Ledger, pc: Pc, key: U64)
    ensures Slip(key, g.maps, pc) != 0 ==> Next(g, pc).0.maps.combined == g.maps.combined
  {}

  lemma AdvanceBalance(c: Config, x: System, cpu: Cpu, y: System, key: U64)
    requires Sound(x) && Balanced(x, key) && cpu in x.cpus && y == Do(c, x, Advance(cpu))
    ensures Balanced(y, key) <==> (Countable(x.g.maps, key) ==> Slip(key, x.g.maps, x.cpus[cpu]) == 0)
  {
    var slip := Slip(key, x.g.maps, x.cpus[cpu]);
    DoSlips(c, x, Advance(cpu), y, key, 0, slip);
    SlipBound(key, x.g.maps, x.cpus[cpu]);
    SlipKeepsCombined(x.g, x.cpus[cpu], key);
    SlippedBalance(y, key, slip);
  }

  /** From a balanced state, a map operation keeps every stack balanced if and only if
      it passes the guard `Clean`. */
  lemma StepExact(c: Config, x: System, cpu: Cpu)
    requires Sound(x) && AllBalanced(x) && cpu in x.cpus
    ensures AllBalanced(Do(c, x, Advance(cpu))) <==> Clean(x.g.maps, x.cpus[cpu])
  {
    var y := Do(c, x, Advance(cpu));
    if Clean(x.g.maps, x.cpus[cpu]) {
      forall key: U64
        ensures Balanced(y, key)
      {
        assert Balanced(x, key);
        AdvanceBalance(c, x, cpu, y, key);
        if Countable(x.g.maps, key) {
          CleanNeverSlips(x.g.maps, x.cpus[cpu], key);
        }
      }
    } else {
      var key := UncleanSlips(x.g.maps, x.cpus[cpu]);
      assert Balanced(x, key);
      AdvanceBalance(c, x, cpu, y, key);
    }
  }

  lemma BeginBalanced(c: Config, x: System, cpu: Cpu, op: Op)
    requires Sound(x) && AllBalanced(x)
    ensures AllBalanced(Do(c, x, Begin(cpu, op)))
  {
    var y := Do(c, x, Begin(cpu, op));
    forall key: U64
      ensures Balanced(y, key)
    {
      assert Balanced(x, key);
      DoSlips(c, x, Begin(cpu, op), y, key, 0, 0);
    }
  }

  lemma ActExact(c: Config, x: System, act: Action)
    requires Sound(x) && AllBalanced(x)
    ensures AllBalanced(Do(c, x, act)) <==> CleanAct(x, act)
  {
    match act {
      case Begin(cpu, op) => BeginBalanced(c, x, cpu, op);
      case Advance(cpu) =>
        if cpu in x.cpus {
          StepExact(c, x, cpu);
        }
    }
  }

  // ---------- main results, for any interleaving at all ----------

  /** Every state that a run reaches is balanced if and only if every step of the run
      passes the guard. */
  lemma {:induction false} RunExact(c: Config, x: System, acts: seq<Action>)
    requires Sound(x) && AllBalanced(x)
    ensures AlwaysBalanced(c, x, acts) <==> CleanRun(c, x, acts)
    decreases |acts|
  {
    if acts == [] {
    } else {
      var y := Do(c, x, acts[0]);
      ActExact(c, x, acts[0]);
      if CleanAct(x, acts[0]) {
        DoSound(c, x, acts[0]);
        RunExact(c, y, acts[1..]);
      } else {
        assert !AlwaysBalanced(c, y, acts[1..]);
      }
    }
  }

  // The first step of a run, after which it is off by the slip of that step.
  lemma DriftStep(c: Config, x: System, acts: seq<Action>, key: U64, off: int, drift: int)
    returns (x': System, off': int, drift': int)
    requires Sound(x) && OffBy(x, key, off) && acts != [] && drift == Drift(c, x, acts, key)
    ensures Sound(x') && OffBy(x', key, off')
    ensures Interleave(c, x, acts) == Interleave(c, x', acts[1..])
    ensures drift' == Drift(c, x', acts[1..], key) && off' + drift' == off + drift
  {
    x', off' := Do(c, x, acts[0]), off + SlipOf(key, x, acts[0]);
    drift' := drift - SlipOf(key, x, acts[0]);
    DoSound(c, x, acts[0]);
    DoSlips(c, x, acts[0], x', key, off, off');
  }

  // The induction carries the amounts as values, which keeps its terms small.
  lemma {:induction false} DriftSum(c: Config, x: System, acts: seq<Action>, key: U64, off: int, drift: int)
    returns (y: System, off': int)
    requires Sound(x) && OffBy(x, key, off) && drift == Drift(c, x, acts, key)
    ensures y == Interleave(c, x, acts) && off' == off + drift && OffBy(y, key, off')
    decreases |acts|
  {
    if acts == [] {
      y, off' := x, off;
    } else {
      var x1, off1, drift1 := DriftStep(c, x, acts, key, off, drift);
      y, off' := DriftSum(c, x1, acts[1..], key, off1, drift1);
    }
  }

  /** A word strays from what its stack is owed by exactly the slips of the run. */
  lemma DriftLaw(c: Config, x: System, acts: seq<Action>, key: U64, off: int)
    requires Sound(x) && OffBy(x, key, off)
    ensures OffBy(Interleave(c, x, acts), key, off + Drift(c, x, acts, key))
  {
    var drift := Drift(c, x, acts, key);
    var y, off' := DriftSum(c, x, acts, key, off, drift);
    assert OffBy(y, key, off');
    assert Interleave(c, x, acts) == y;
    assert off + Drift(c, x, acts, key) == off';
  }

  // The debt, split into the additions and the subtractions still to be made.
  function AddsOf(key: U64): Pc -> int {
    (pc: Pc) => if PendingAdd(pc) then Share(Word, key, pc.info) else 0
  }

  function SubsOf(key: U64): Pc -> int {
    (pc: Pc) => if PendingSub(pc) then Share(Word, key, pc.info) else 0
  }

  lemma DebtSplits(cpus: map<Cpu, Pc>, key: U64)
    ensures Sum(cpus, DebtOf(key)) == Sum(cpus, AddsOf(key)) - Sum(cpus, SubsOf(key))
  {
    SumLinear(cpus, DebtOf(key), AddsOf(key), SubsOf(key), -1);
  }

  // Live and lost entries, less the additions and plus the subtractions still pending.
  ghost function Expected(x: System, key: U64): int {
    Live(Word, key, x.g.maps.allocs) + Lost(Word, key, x.g.lost)
    - Sum(x.cpus, AddsOf(key)) + Sum(x.cpus, SubsOf(key))
  }

  lemma OwedIsExpected(x: System, key: U64)
    ensures Owed(x, key) == Expected(x, key)
  {
    DebtSplits(x.cpus, key);
  }

  ghost predicate Conserved(x: System, key: U64) {
    key in x.g.maps.combined ==> x.g.maps.combined[key] == Wrap64(Expected(x, key))
  }

  lemma BalancedConserves(x: System, key: U64)
    requires Balanced(x, key)
    ensures Conserved(x, key)
  {
    OwedIsExpected(x, key);
  }

  lemma OffConserves(x: System, key: U64, off: int)
    requires OffBy(x, key, off) && key in x.g.maps.combined
    ensures x.g.maps.combined[key] == Wrap64(Expected(x, key) + off)
    ensures Conserved(x, key) <==> Wrap64(off) == 0
  {
    OwedIsExpected(x, key);
    WrapShift(Expected(x, key), off);
  }

  lemma StartBalanced()
    ensures Sound(START) && AllBalanced(START)
  {}

  lemma StartsRight(key: U64)
    ensures Sound(START) && OffBy(START, key, 0)
  {
    StartBalanced();
    assert Balanced(START, key);
  }

  lemma StartDrift(c: Config, acts: seq<Action>, key: U64) returns (x: System, drift: int)
    ensures x == Interleave(c, START, acts) && drift == Drift(c, START, acts, key)
    ensures OffBy(x, key, drift)
  {
    StartsRight(key);
    x, drift := DriftSum(c, START, acts, key, 0, Drift(c, START, acts, key));
  }

  /** In any interleaving, whatever it works on, a tracked word is its live and lost
      entries, less the additions and plus the subtractions still pending, plus the
      drift; so it is conserved exactly when the drift is a multiple of 2^64. */
  lemma ConservedExactly(c: Config, acts: seq<Action>, key: U64)
    requires key in Interleave(c, START, acts).g.maps.combined
    ensures var x := Interleave(c, START, acts);
            && x.g.maps.combined[key] == Wrap64(Expected(x, key) + Drift(c, START, acts, key))
            && (Conserved(x, key) <==> Wrap64(Drift(c, START, acts, key)) == 0)
  {
    var x, drift := StartDrift(c, acts, key);
    assert Interleave(c, START, acts) == x && Drift(c, START, acts, key) == drift;
    OffConserves(x, key, drift);
  }

  lemma {:induction false} EndsBalanced(c: Config, x: System, acts: seq<Action>)
    requires AlwaysBalanced(c, x, acts)
    ensures AllBalanced(Interleave(c, x, acts))
    decreases |acts|
  {
    if acts == [] {
    } else {
      EndsBalanced(c, Do(c, x, acts[0]), acts[1..]);
    }
  }

  /** In every state that a clean run reaches, all stacks are balanced. */
  lemma CleanRunBalances(c: Config, acts: seq<Action>)
    requires CleanRun(c, START, acts)
    ensures Sound(Interleave(c, START, acts)) && AllBalanced(Interleave(c, START, acts))
  {
    StartBalanced();
    RunExact(c, START, acts);
    EndsBalanced(c, START, acts);
    InterleaveSound(c, START, acts);
  }
}
