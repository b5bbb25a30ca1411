/** Programs that never work on the same address at once keep the index right. */
module Exclusion {
  import opened Words
  import opened BpfMaps
  import opened Accounting
  import opened Totals
  import opened Interleaving
  import opened Conservation

  predicate PcOk(m: Maps, pc: Pc) {
    match pc
    case AllocsUpdate(_, address, _) => address != 0
    case AddLookupAgain(_, info) => KeyOf(info) in m.combined
    case AddFetch(_, info) => KeyOf(info) in m.combined
    case FreeDelete(address, info) => address in m.allocs && m.allocs[address] == info && Known(m, KeyOf(info))
    case DelLookup(_, info) => Known(m, KeyOf(info))
    case DelFetch(_, info) => KeyOf(info) in m.combined
    case _ => true
  }

  // The program that recorded an entry is still to create the word of its stack.
  predicate Announces(pc: Pc, address: U64, info: AllocInfo) {
    (pc.AddLookup? || pc.AddTryInit?) && pc.address == address && pc.info == info
  }

  predicate Covered(x: System, address: U64)
    requires address in x.g.maps.allocs
  {
    var info := x.g.maps.allocs[address];
    Known(x.g.maps, KeyOf(info)) || exists c :: c in x.cpus && Announces(x.cpus[c], address, info)
  }

  ghost predicate Inv(x: System) {
    && WithinLimits(x.g.maps)
    && (forall c :: c in x.cpus ==> PcOk(x.g.maps, x.cpus[c]))
    && (forall a :: a in x.g.maps.allocs ==> Covered(x, a))
    && AllBalanced(x)
  }

  lemma OkIsClean(m: Maps, pc: Pc)
    requires PcOk(m, pc)
    ensures PcSound(m, pc) && Clean(m, pc)
  {}

  lemma InvIsSound(x: System)
    requires Inv(x)
    ensures Sound(x)
  {
    forall d | d in x.cpus
      ensures PcSound(x.g.maps, x.cpus[d])
    {
      OkIsClean(x.g.maps, x.cpus[d]);
    }
  }

  // A step leaves alone the entries of every address that it does not work on.
  lemma NextTouches(g: Ledger, pc: Pc, a: U64)
    requires a != Target(pc)
    ensures a in Next(g, pc).0.maps.allocs <==> a in g.maps.allocs
    ensures a in g.maps.allocs ==> Next(g, pc).0.maps.allocs[a] == g.maps.allocs[a]
  {}

  lemma NextPcOk(g: Ledger, pc: Pc)
    requires PcOk(g.maps, pc)
    requires pc.FreeLookup? && pc.address in g.maps.allocs ==> Known(g.maps, KeyOf(g.maps.allocs[pc.address]))
    ensures Next(g, pc).1.Some? ==> PcOk(Next(g, pc).0.maps, Next(g, pc).1.value)
  {}

  lemma NextOtherPcOk(g: Ledger, pc: Pc, other: Pc)
    requires PcOk(g.maps, pc) && PcOk(g.maps, other) && 0 !in g.maps.allocs
    requires Target(pc) == Target(other) ==> Target(pc) == 0
    ensures PcOk(Next(g, pc).0.maps, other)
  {
    if PendingAdd(other) || PendingSub(other) || other.FreeDelete? {
      NextKnown(g, pc, KeyOf(other.info));
      if other.FreeDelete? {
        NextTouches(g, pc, other.address);
      }
    }
  }

  // An announced word is created, or refused for good, unless it is announced further.
  lemma NextAnnounces(g: Ledger, pc: Pc, a: U64, info: AllocInfo)
    requires PcOk(g.maps, pc) && Announces(pc, a, info)
    ensures var (g', pc') := Next(g, pc);
            Known(g'.maps, KeyOf(info)) || (pc'.Some? && Announces(pc'.value, a, info))
  {}

  // An entry in the maps after a step is either an old one or announced by this step.
  lemma NextEntry(g: Ledger, pc: Pc, a: U64)
    requires a in Next(g, pc).0.maps.allocs
    ensures var (g', pc') := Next(g, pc);
            || (a in g.maps.allocs && g.maps.allocs[a] == g'.maps.allocs[a])
            || (pc'.Some? && Announces(pc'.value, a, g'.maps.allocs[a]))
  {}

  lemma CoveredAfter(x: System, cpu: Cpu, g: Ledger, pc: Option<Pc>, a: U64, info: AllocInfo)
    requires cpu in x.cpus && a in g.maps.allocs && g.maps.allocs[a] == info
    requires || (a in x.g.maps.allocs && x.g.maps.allocs[a] == info && Covered(x, a))
             || (pc.Some? && Announces(pc.value, a, info))
    requires Known(x.g.maps, KeyOf(info)) ==> Known(g.maps, KeyOf(info))
    requires Announces(x.cpus[cpu], a, info) ==>
               Known(g.maps, KeyOf(info)) || (pc.Some? && Announces(pc.value, a, info))
    ensures Covered(System(g, Goto(x.cpus, cpu, pc)), a)
  {
    var cpus := Goto(x.cpus, cpu, pc);
    if !Known(g.maps, KeyOf(info)) {
      if pc.Some? && Announces(pc.value, a, info) {
        assert cpu in cpus && Announces(cpus[cpu], a, info);
      } else {
        var c :| c in x.cpus && Announces(x.cpus[c], a, info);
        assert c in cpus && cpus[c] == x.cpus[c];
      }
    }
  }

  lemma AdvanceCovered(x: System, cpu: Cpu, a: U64)
    requires cpu in x.cpus && PcOk(x.g.maps, x.cpus[cpu])
    requires a in x.g.maps.allocs ==> Covered(x, a)
    requires a in Next(x.g, x.cpus[cpu]).0.maps.allocs
    ensures Covered(System(Next(x.g, x.cpus[cpu]).0, Goto(x.cpus, cpu, Next(x.g, x.cpus[cpu]).1)), a)
  {
    var n := Next(x.g, x.cpus[cpu]);
    var info := n.0.maps.allocs[a];
    NextEntry(x.g, x.cpus[cpu], a);
    NextKnown(x.g, x.cpus[cpu], KeyOf(info));
    if Announces(x.cpus[cpu], a, info) {
      NextAnnounces(x.g, x.cpus[cpu], a, info);
    }
    CoveredAfter(x, cpu, n.0, n.1, a, info);
  }

  // What a free finds is known: nobody else in flight may still announce it.
  lemma FoundIsKnown(x: System, cpu: Cpu)
    requires Inv(x) && Exclusive(x)
    requires cpu in x.cpus && x.cpus[cpu].FreeLookup? && x.cpus[cpu].address in x.g.maps.allocs
    ensures Known(x.g.maps, KeyOf(x.g.maps.allocs[x.cpus[cpu].address]))
  {
    assert Covered(x, x.cpus[cpu].address);
  }

  lemma AdvanceInv(c: Config, x: System, cpu: Cpu)
    requires Inv(x) && Exclusive(x)
    ensures Inv(Do(c, x, Advance(cpu)))
  {
    if cpu in x.cpus {
      var pc := x.cpus[cpu];
      var n := Next(x.g, pc);
      var y := System(n.0, Goto(x.cpus, cpu, n.1));
      assert y == Do(c, x, Advance(cpu));
      InvIsSound(x);
      DoSound(c, x, Advance(cpu));
      if pc.FreeLookup? && pc.address in x.g.maps.allocs {
        FoundIsKnown(x, cpu);
      }
      forall d | d in y.cpus
        ensures PcOk(y.g.maps, y.cpus[d])
      {
        if d == cpu {
          NextPcOk(x.g, pc);
        } else {
          NextOtherPcOk(x.g, pc, x.cpus[d]);
        }
      }
      forall a | a in y.g.maps.allocs
        ensures Covered(y, a)
      {
        AdvanceCovered(x, cpu, a);
      }
      OkIsClean(x.g.maps, pc);
      StepExact(c, x, cpu);
    }
  }

  lemma BeginCovered(x: System, cpu: Cpu, pc: Option<Pc>, a: U64)
    requires cpu !in x.cpus && a in x.g.maps.allocs && Covered(x, a)
    ensures Covered(x.(cpus := Goto(x.cpus, cpu, pc)), a)
  {
    var y := x.(cpus := Goto(x.cpus, cpu, pc));
    if !Known(x.g.maps, KeyOf(x.g.maps.allocs[a])) {
      var d :| d in x.cpus && Announces(x.cpus[d], a, x.g.maps.allocs[a]);
      assert d in y.cpus && y.cpus[d] == x.cpus[d];
    }
  }

  lemma FirstOk(c: Config, op: Op, m: Maps)
    ensures First(c, op).Some? ==> PcOk(m, First(c, op).value)
  {}

  lemma BeginInv(c: Config, x: System, cpu: Cpu, op: Op)
    requires Inv(x)
    ensures Inv(Do(c, x, Begin(cpu, op)))
  {
    if cpu !in x.cpus {
      var y := Do(c, x, Begin(cpu, op));
      FirstOk(c, op, x.g.maps);
      forall a | a in y.g.maps.allocs
        ensures Covered(y, a)
      {
        BeginCovered(x, cpu, First(c, op), a);
      }
      InvIsSound(x);
      BeginBalanced(c, x, cpu, op);
    }
  }

  lemma ActInv(c: Config, x: System, act: Action)
    requires Inv(x) && Exclusive(x)
    ensures Inv(Do(c, x, act)) && CleanAct(x, act)
  {
    match act {
      case Begin(cpu, op) => BeginInv(c, x, cpu, op);
      case Advance(cpu) =>
        AdvanceInv(c, x, cpu);
        if cpu in x.cpus {
          OkIsClean(x.g.maps, x.cpus[cpu]);
        }
    }
  }

  lemma {:induction false} InterleaveInv(c: Config, x: System, acts: seq<Action>)
    requires Inv(x) && ExclusiveRun(c, x, acts)
    ensures Inv(Interleave(c, x, acts))
    decreases |acts|
  {
    if acts == [] {
    } else {
      ActInv(c, x, acts[0]);
      InterleaveInv(c, Do(c, x, acts[0]), acts[1..]);
    }
  }

  lemma StartInv()
    ensures Inv(START)
  {}

  // ---------- main results ----------

  /** Exclusion suffices: every step of an exclusive run passes the guard. */
  lemma {:induction false} ExclusiveIsClean(c: Config, x: System, acts: seq<Action>)
    requires Inv(x) && ExclusiveRun(c, x, acts)
    ensures CleanRun(c, x, acts)
    decreases |acts|
  {
    if acts == [] {
    } else {
      ActInv(c, x, acts[0]);
      ExclusiveIsClean(c, Do(c, x, acts[0]), acts[1..]);
    }
  }

  /** Conservation: in every state that an exclusive run reaches, and for every
      tracked stack, the word is the live entries plus the lost ones, less the
      additions and plus the subtractions that are still pending, modulo 2^64. */
  lemma ExclusiveConserves(c: Config, acts: seq<Action>, key: U64)
    requires ExclusiveRun(c, START, acts)
    ensures Conserved(Interleave(c, START, acts), key)
  {
    StartInv();
    ExclusiveIsClean(c, START, acts);
    CleanRunBalances(c, acts);
    BalancedConserves(Interleave(c, START, acts), key);
  }

  /** Exclusion is not necessary: two frees of one untracked address may overlap. */
  lemma HarmlessOverlap(c: Config, a: U64)
    requires a != 0
    ensures var acts := [Begin(0, Free(a)), Begin(1, Free(a)), Advance(0), Advance(1)];
            CleanRun(c, START, acts) && !ExclusiveRun(c, START, acts)
  {
    var acts := [Begin(0, Free(a)), Begin(1, Free(a)), Advance(0), Advance(1)];
    var one := System(EMPTY, map[0 := FreeLookup(a)]);
    var both := System(EMPTY, map[0 := FreeLookup(a), 1 := FreeLookup(a)]);
    assert Do(c, START, acts[0]) == one;
    assert Do(c, one, acts[1..][0]) == both;
    assert !Exclusive(both) by {
      assert both.cpus[0] == both.cpus[1];
    }
    assert !ExclusiveRun(c, both, acts[1..][1..]);
    assert !ExclusiveRun(c, one, acts[1..]);
    var last := Do(c, both, Advance(0));
    assert CleanRun(c, Do(c, last, Advance(1)), acts[1..][1..][1..][1..]);
    assert CleanRun(c, last, acts[1..][1..][1..]);
    assert CleanRun(c, both, acts[1..][1..]);
    assert CleanRun(c, one, acts[1..]);
  }
}
