/** When an enter is recorded at most once, although the programs that pass its size on
    overlap. */
module Claims {
  import opened Words
  import opened BpfMaps
  import opened Accounting
  import opened Sums
  import opened Interleaving
  import opened Simulation
  import opened Races
  import opened Handover

  // ---------- claims ----------

  // An exit claims the enter that it has read, and the claim stays when it has taken it:
  // no two exits claim one enter.
  ghost predicate ClaimedOnce(h: History) {
    forall i: nat :: h.taken[i] + Sum(h.read, Is(i)) <= 1
  }

  // A lookup does not find an enter that an exit in flight has already read.
  predicate FreshLookup(h: History, pc: Pc) {
    pc.ExitLookup? && pc.pid in h.pending ==> forall d :: d in h.read ==> h.read[d] != h.pending[pc.pid]
  }

  predicate FreshAct(w: Watch, act: Action) {
    act.Advance? && act.cpu in w.x.cpus ==> FreshLookup(w.h, w.x.cpus[act.cpu])
  }

  predicate FreshRun(c: Config, w: Watch, acts: seq<Action>)
    decreases |acts|
  {
    acts != [] ==> FreshAct(w, acts[0]) && FreshRun(c, WatchDo(c, w, acts[0]), acts[1..])
  }

  ghost predicate AlwaysClaimedOnce(c: Config, w: Watch, acts: seq<Action>)
    decreases |acts|
  {
    ClaimedOnce(w.h) && (acts != [] ==> AlwaysClaimedOnce(c, WatchDo(c, w, acts[0]), acts[1..]))
  }

  lemma ReadersOf(read: map<Cpu, nat>, i: nat)
    ensures Sum(read, Is(i)) >= 0
    ensures Sum(read, Is(i)) == 0 <==> forall d :: d in read ==> read[d] != i
  {
    SumNonNegative(read, Is(i));
    if d :| d in read && read[d] == i {
      assert 1 == Is(i)(read[d]) <= Sum(read, Is(i));
    } else {
      SumZero(read, Is(i));
    }
  }

  // Reading a pending enter claims it; it was not taken before.
  lemma LookupClaims(h: History, h': History, cpu: Cpu, i: nat)
    requires ClaimedOnce(h) && i !in h.taken && cpu !in h.read
    requires h'.read == h.read[cpu := i] && h'.taken == h.taken
    ensures ClaimedOnce(h') <==> forall d :: d in h.read ==> h.read[d] != i
  {
    ReadersOf(h.read, i);
    SumPut(h.read, Is(i), cpu, i);
    if Sum(h.read, Is(i)) == 0 {
      forall j: nat
        ensures h'.taken[j] + Sum(h'.read, Is(j)) <= 1
      {
        assert h.taken[j] + Sum(h.read, Is(j)) <= 1;
        SumPut(h.read, Is(j), cpu, i);
      }
    } else {
      assert h'.taken[i] + Sum(h'.read, Is(i)) > 1;
    }
  }

  // Taking what was read turns one claim into the other.
  lemma DeleteClaims(h: History, h': History, cpu: Cpu)
    requires ClaimedOnce(h) && cpu in h.read
    requires h'.read == h.read - {cpu} && h'.taken == h.taken + multiset{h.read[cpu]}
    ensures ClaimedOnce(h')
  {
    forall i: nat
      ensures h'.taken[i] + Sum(h'.read, Is(i)) <= 1
    {
      assert h.taken[i] + Sum(h.read, Is(i)) <= 1;
      SumRemove(h.read, Is(i), cpu);
    }
  }

  lemma ObserveClaims(h: History, h': History, sizes: map<Pid, U64>, cpu: Cpu, pc: Pc)
    requires ReadTrueAt(h, cpu, Some(pc)) && TakenTrue(h) && ClaimedOnce(h) && h' == Observe(h, sizes, cpu, pc)
    ensures ClaimedOnce(h') <==> FreshLookup(h, pc)
  {
    if pc.ExitLookup? && pc.pid in h.pending {
      LookupClaims(h, h', cpu, h.pending[pc.pid]);
    } else if pc.ExitDelete? {
      DeleteClaims(h, h', cpu);
    } else {
      assert h'.read == h.read && h'.taken == h.taken;
    }
  }

  /** From a state in which no enter is claimed twice, a map operation keeps it so if and
      only if it is not a lookup of an enter that an exit in flight has already read. */
  lemma ClaimExact(c: Config, w: Watch, act: Action)
    requires True(w) && ClaimedOnce(w.h)
    ensures ClaimedOnce(WatchDo(c, w, act).h) <==> FreshAct(w, act)
  {
    if act.Advance? && act.cpu in w.x.cpus {
      var pc := w.x.cpus[act.cpu];
      assert PcOf(w.x.cpus, act.cpu) == Some(pc);
      ObserveClaims(w.h, WatchDo(c, w, act).h, w.x.g.maps.sizes, act.cpu, pc);
    }
  }

  /** Throughout a run no enter is claimed twice if and only if no lookup finds an enter
      that an exit in flight has already read. */
  lemma {:induction false} ClaimRunExact(c: Config, w: Watch, acts: seq<Action>)
    requires True(w) && ClaimedOnce(w.h)
    ensures AlwaysClaimedOnce(c, w, acts) <==> FreshRun(c, w, acts)
    decreases |acts|
  {
    if acts == [] {
    } else {
      ClaimExact(c, w, acts[0]);
      DoTrue(c, w, acts[0]);
      if FreshAct(w, acts[0]) {
        ClaimRunExact(c, WatchDo(c, w, acts[0]), acts[1..]);
      } else {
        assert !AlwaysClaimedOnce(c, WatchDo(c, w, acts[0]), acts[1..]);
      }
    }
  }

  lemma {:induction false} EndsClaimedOnce(c: Config, w: Watch, acts: seq<Action>)
    requires AlwaysClaimedOnce(c, w, acts)
    ensures ClaimedOnce(WatchRun(c, w, acts).h)
    decreases |acts|
  {
    if acts == [] {
    } else {
      EndsClaimedOnce(c, WatchDo(c, w, acts[0]), acts[1..]);
    }
  }

  lemma StartClaims()
    ensures ClaimedOnce(WATCHED_START.h)
  {}

  lemma RecordsAreClaims(h: History, i: nat)
    requires RecordedTrue(h) && TakenTrue(h) && ClaimedOnce(h)
    ensures h.recorded[i] <= h.taken[i] <= 1
    ensures i in h.taken ==> i < |h.enters|
  {
    ReadersOf(h.read, i);
    ReadersOf(h.holding, i);
    assert h.taken[i] + Sum(h.read, Is(i)) <= 1;
    assert h.recorded[i] + Sum(h.holding, Is(i)) <= h.taken[i];
  }

  /** In any such run each stored enter is taken by at most one exit and recorded at most
      once. */
  lemma EnterRecordedOnce(c: Config, acts: seq<Action>, i: nat)
    requires FreshRun(c, WATCHED_START, acts)
    ensures var w := WatchRun(c, WATCHED_START, acts);
            && w.x == Interleave(c, START, acts)
            && w.h.recorded[i] <= w.h.taken[i] <= 1
            && (i in w.h.taken ==> i < |w.h.enters|)
  {
    StartTrue();
    StartClaims();
    ClaimRunExact(c, WATCHED_START, acts);
    EndsClaimedOnce(c, WATCHED_START, acts);
    WatchingIsHarmless(c, WATCHED_START, acts);
    RunTrue(c, WATCHED_START, acts);
    RecordsAreClaims(WatchRun(c, WATCHED_START, acts).h, i);
  }

  // ---------- two claims of one enter become two records ----------

  // An exit that has read enter `i` and has an address to record it at.
  predicate Claiming(w: Watch, cpu: Cpu, i: nat) {
    && cpu in w.x.cpus && w.x.cpus[cpu].ExitDelete? && w.x.cpus[cpu].address != 0
    && cpu in w.h.read && w.h.read[cpu] == i
  }

  lemma WatchAdvance(c: Config, w: Watch, cpu: Cpu) returns (v: Watch, pc': Option<Pc>)
    requires cpu in w.x.cpus
    ensures v == WatchDo(c, w, Advance(cpu)) && v.x.cpus == Goto(w.x.cpus, cpu, pc')
    ensures v.h == Observe(w.h, w.x.g.maps.sizes, cpu, w.x.cpus[cpu])
    ensures SizeEffect(w.x.g.maps.sizes, w.x.cpus[cpu], v.x.g.maps.sizes, pc')
  {
    v, pc' := WatchDo(c, w, Advance(cpu)), Next(w.x.g, w.x.cpus[cpu]).1;
    NextSizes(w.x.g, w.x.cpus[cpu]);
  }

  // Deleting the pending size and recording the entry are the next two steps of such an exit.
  lemma ClaimIsRecorded(c: Config, w: Watch, cpu: Cpu, i: nat) returns (v: Watch)
    requires Claiming(w, cpu, i)
    ensures v == WatchDo(c, WatchDo(c, w, Advance(cpu)), Advance(cpu))
    ensures v.h.recorded == w.h.recorded + multiset{i} && v.h.taken == w.h.taken + multiset{i}
    ensures forall d, j :: d != cpu && Claiming(w, d, j) ==> Claiming(v, d, j)
  {
    var u, pc1 := WatchAdvance(c, w, cpu);
    assert u.h.holding[cpu] == i && u.x.cpus[cpu].AllocsUpdate?;
    var pc2;
    v, pc2 := WatchAdvance(c, u, cpu);
    forall d, j | d != cpu && Claiming(w, d, j)
      ensures Claiming(v, d, j)
    {
      ReadOfOthers(w.h, w.x.g.maps.sizes, cpu, w.x.cpus[cpu], d);
      ReadOfOthers(u.h, u.x.g.maps.sizes, cpu, u.x.cpus[cpu], d);
    }
  }

  lemma WatchFour(c: Config, w: Watch, a: Action, b: Action)
    ensures WatchRun(c, w, [a, a, b, b])
         == WatchDo(c, WatchDo(c, WatchDo(c, WatchDo(c, w, a), a), b), b)
  {
    assert [a, a, b, b][1..] == [a, b, b] && [a, b, b][1..] == [b, b] && [b, b][1..] == [b] && [b][1..] == [];
    var w1 := WatchDo(c, w, a);
    var w2 := WatchDo(c, w1, a);
    assert WatchRun(c, w2, [b, b]) == WatchRun(c, WatchDo(c, w2, b), [b]);
  }

  /** The condition is needed for the records too: once two exits have read one enter, and
      both have an address, they only need to go on, and the enter is recorded twice. */
  lemma TwoReadersRecordTwice(c: Config, w: Watch, cpu: Cpu, other: Cpu, i: nat)
    requires cpu != other && Claiming(w, cpu, i) && Claiming(w, other, i)
    ensures var v := WatchRun(c, w, [Advance(cpu), Advance(cpu), Advance(other), Advance(other)]);
            v.h.recorded[i] >= 2 && v.h.taken[i] >= 2
  {
    var u := ClaimIsRecorded(c, w, cpu, i);
    var v := ClaimIsRecorded(c, u, other, i);
    WatchFour(c, w, Advance(cpu), Advance(other));
  }

  // ---------- when every exit takes what it has read ----------

  // Every enter is removed as often as it is taken: none is dropped unread, and none
  // is taken after another exit has removed it.
  predicate Paired(w: Watch) {
    w.h.taken == w.h.removed
  }

  // The delete of an exit finds the very enter that its lookup read still pending.
  predicate GuardedDelete(h: History, cpu: Cpu, pc: Pc) {
    pc.ExitDelete? ==> pc.pid in h.pending && cpu in h.read && h.pending[pc.pid] == h.read[cpu]
  }

  predicate Guarded(w: Watch, act: Action) {
    act.Advance? && act.cpu in w.x.cpus ==> GuardedDelete(w.h, act.cpu, w.x.cpus[act.cpu])
  }

  predicate GuardedRun(c: Config, w: Watch, acts: seq<Action>)
    decreases |acts|
  {
    acts != [] ==> Guarded(w, acts[0]) && GuardedRun(c, WatchDo(c, w, acts[0]), acts[1..])
  }

  predicate AlwaysPaired(c: Config, w: Watch, acts: seq<Action>)
    decreases |acts|
  {
    Paired(w) && (acts != [] ==> AlwaysPaired(c, WatchDo(c, w, acts[0]), acts[1..]))
  }

  lemma OneMore(m: multiset<nat>, i: nat, j: nat)
    ensures m + multiset{i} == m + multiset{j} <==> i == j
    ensures m + multiset{i} != m
  {
    assert (m + multiset{i})[i] == m[i] + 1;
  }

  lemma ObservePairs(h: History, sizes: map<Pid, U64>, cpu: Cpu, pc: Pc)
    requires ReadTrueAt(h, cpu, Some(pc)) && h.taken == h.removed
    ensures var h' := Observe(h, sizes, cpu, pc);
            h'.taken == h'.removed <==> GuardedDelete(h, cpu, pc)
  {
    if pc.ExitDelete? {
      OneMore(h.taken, h.read[cpu], if pc.pid in h.pending then h.pending[pc.pid] else 0);
    }
  }

  // A delete keeps it so exactly when it is of the very enter that the exit has read.
  lemma PairExact(c: Config, w: Watch, act: Action)
    requires True(w) && Paired(w)
    ensures Paired(WatchDo(c, w, act)) <==> Guarded(w, act)
  {
    if act.Advance? && act.cpu in w.x.cpus {
      assert PcOf(w.x.cpus, act.cpu) == Some(w.x.cpus[act.cpu]);
      ObservePairs(w.h, w.x.g.maps.sizes, act.cpu, w.x.cpus[act.cpu]);
    }
  }

  // And so over runs.
  lemma {:induction false} PairRunExact(c: Config, w: Watch, acts: seq<Action>)
    requires True(w) && Paired(w)
    ensures AlwaysPaired(c, w, acts) <==> GuardedRun(c, w, acts)
    decreases |acts|
  {
    if acts == [] {
    } else {
      PairExact(c, w, acts[0]);
      DoTrue(c, w, acts[0]);
      if Guarded(w, acts[0]) {
        PairRunExact(c, WatchDo(c, w, acts[0]), acts[1..]);
      } else {
        assert !AlwaysPaired(c, WatchDo(c, w, acts[0]), acts[1..]);
      }
    }
  }

  // The size taken is then the size of that enter.
  lemma GuardedTakes(w: Watch, cpu: Cpu)
    requires True(w) && cpu in w.x.cpus && w.x.cpus[cpu].ExitDelete? && Guarded(w, Advance(cpu))
    ensures var pc := w.x.cpus[cpu];
            && pc.pid in w.x.g.maps.sizes && w.x.g.maps.sizes[pc.pid] == pc.info.size
            && w.h.enters[w.h.read[cpu]] == Entered(pc.pid, pc.info.size)
  {
    assert PcOf(w.x.cpus, cpu) == Some(w.x.cpus[cpu]);
  }

  // ---------- one program of a process at a time ----------

  predicate UsesSize(pc: Pc) {
    pc.EnterStore? || pc.ExitLookup? || pc.ExitDelete?
  }

  predicate Alternate(cpus: map<Cpu, Pc>) {
    forall c, d :: c in cpus && d in cpus && c != d && UsesSize(cpus[c]) && UsesSize(cpus[d]) ==>
                     cpus[c].pid != cpus[d].pid
  }

  predicate OneAtATime(x: System) {
    Alternate(x.cpus)
  }

  predicate OneAtATimeRun(c: Config, x: System, acts: seq<Action>)
    decreases |acts|
  {
    OneAtATime(x) && (acts != [] ==> OneAtATimeRun(c, Do(c, x, acts[0]), acts[1..]))
  }

  // What an exit has read is still pending.
  ghost predicate ReadIsPending(h: History, cpus: map<Cpu, Pc>) {
    forall c :: c in h.read ==> c in cpus && cpus[c].ExitDelete? && GuardedDelete(h, c, cpus[c])
  }

  lemma OthersKept(h: History, sizes: map<Pid, U64>, cpu: Cpu, pc: Pc, d: Cpu, other: Pc)
    requires d != cpu && other.ExitDelete? && GuardedDelete(h, d, other)
    requires UsesSize(pc) ==> pc.pid != other.pid
    ensures GuardedDelete(Observe(h, sizes, cpu, pc), d, other)
  {}

  lemma OwnPending(h: History, sizes: map<Pid, U64>, cpu: Cpu, pc: Pc, sizes': map<Pid, U64>, pc': Option<Pc>)
    requires SizeEffect(sizes, pc, sizes', pc') && h.pending.Keys == sizes.Keys
    requires cpu in h.read ==> pc.ExitDelete?
    requires cpu in Observe(h, sizes, cpu, pc).read
    ensures pc'.Some? && pc'.value.ExitDelete? && GuardedDelete(Observe(h, sizes, cpu, pc), cpu, pc'.value)
  {}

  lemma ObservePending(
    h: History, sizes: map<Pid, U64>, cpus: map<Cpu, Pc>, cpu: Cpu, sizes': map<Pid, U64>, pc': Option<Pc>)
    requires cpu in cpus && PendingTrue(h, sizes) && SizeEffect(sizes, cpus[cpu], sizes', pc')
    requires ReadIsPending(h, cpus) && Alternate(cpus)
    ensures ReadIsPending(Observe(h, sizes, cpu, cpus[cpu]), Goto(cpus, cpu, pc'))
  {
    var h', cpus' := Observe(h, sizes, cpu, cpus[cpu]), Goto(cpus, cpu, pc');
    forall d | d in h'.read
      ensures d in cpus' && cpus'[d].ExitDelete? && GuardedDelete(h', d, cpus'[d])
    {
      if d == cpu {
        OwnPending(h, sizes, cpu, cpus[cpu], sizes', pc');
      } else {
        ReadOfOthers(h, sizes, cpu, cpus[cpu], d);
        OthersKept(h, sizes, cpu, cpus[cpu], d, cpus[d]);
      }
    }
  }

  lemma AdvancePending(c: Config, w: Watch, cpu: Cpu, v: Watch)
    requires PendingTrue(w.h, w.x.g.maps.sizes) && ReadIsPending(w.h, w.x.cpus) && Alternate(w.x.cpus)
    requires cpu in w.x.cpus && v == WatchDo(c, w, Advance(cpu))
    ensures ReadIsPending(v.h, v.x.cpus)
  {
    var u, pc' := WatchAdvance(c, w, cpu);
    ObservePending(w.h, w.x.g.maps.sizes, w.x.cpus, cpu, u.x.g.maps.sizes, pc');
  }

  lemma BeginPending(h: History, cpus: map<Cpu, Pc>, cpu: Cpu, pc: Option<Pc>)
    requires ReadIsPending(h, cpus) && cpu !in cpus
    ensures ReadIsPending(h, Goto(cpus, cpu, pc))
  {}

  lemma DoPending(c: Config, w: Watch, act: Action)
    requires True(w) && ReadIsPending(w.h, w.x.cpus) && OneAtATime(w.x)
    ensures ReadIsPending(WatchDo(c, w, act).h, WatchDo(c, w, act).x.cpus) && Guarded(w, act)
  {
    match act {
      case Begin(cpu, op) =>
        if cpu !in w.x.cpus {
          BeginPending(w.h, w.x.cpus, cpu, First(c, op));
        }
      case Advance(cpu) =>
        if cpu in w.x.cpus {
          assert ReadTrueAt(w.h, cpu, PcOf(w.x.cpus, cpu));
          AdvancePending(c, w, cpu, WatchDo(c, w, act));
        }
    }
  }

  // An exit in flight that has read the pending enter of a process belongs to it.
  lemma AlternateIsFresh(w: Watch, act: Action)
    requires True(w) && OneAtATime(w.x)
    ensures FreshAct(w, act)
  {
    if act.Advance? && act.cpu in w.x.cpus && w.x.cpus[act.cpu].ExitLookup? && w.x.cpus[act.cpu].pid in w.h.pending {
      var pc, cpus := w.x.cpus[act.cpu], w.x.cpus;
      assert PcOf(cpus, act.cpu) == Some(pc);
      forall d | d in w.h.read
        ensures w.h.read[d] != w.h.pending[pc.pid]
      {
        assert ReadTrueAt(w.h, d, PcOf(cpus, d));
        assert UsesSize(cpus[d]) && UsesSize(pc);
      }
    }
  }

  lemma {:induction false} OneAtATimeIsGuarded(c: Config, w: Watch, acts: seq<Action>)
    requires True(w) && ReadIsPending(w.h, w.x.cpus) && OneAtATimeRun(c, w.x, acts)
    ensures GuardedRun(c, w, acts) && FreshRun(c, w, acts)
    ensures True(WatchRun(c, w, acts)) && ReadIsPending(WatchRun(c, w, acts).h, WatchRun(c, w, acts).x.cpus)
    decreases |acts|
  {
    if acts == [] {
    } else {
      DoPending(c, w, acts[0]);
      AlternateIsFresh(w, acts[0]);
      DoTrue(c, w, acts[0]);
      OneAtATimeIsGuarded(c, WatchDo(c, w, acts[0]), acts[1..]);
    }
  }

  lemma {:induction false} EndsPaired(c: Config, w: Watch, acts: seq<Action>)
    requires AlwaysPaired(c, w, acts)
    ensures Paired(WatchRun(c, w, acts))
    decreases |acts|
  {
    if acts == [] {
    } else {
      EndsPaired(c, WatchDo(c, w, acts[0]), acts[1..]);
    }
  }

  /** When no two programs of one process are storing, looking up or deleting a size at
      once, no lookup finds an enter that is already claimed, every enter whose size is
      deleted has been taken, and every exit about to delete a size finds exactly the
      size that it read. */
  lemma OneProgramAtATime(c: Config, acts: seq<Action>, cpu: Cpu)
    requires OneAtATimeRun(c, START, acts)
    ensures FreshRun(c, WATCHED_START, acts)
    ensures WatchRun(c, WATCHED_START, acts).h.taken == WatchRun(c, WATCHED_START, acts).h.removed
    ensures var x := Interleave(c, START, acts);
            cpu in x.cpus && x.cpus[cpu].ExitDelete? ==>
              x.cpus[cpu].pid in x.g.maps.sizes && x.g.maps.sizes[x.cpus[cpu].pid] == x.cpus[cpu].info.size
  {
    StartTrue();
    OneAtATimeIsGuarded(c, WATCHED_START, acts);
    PairRunExact(c, WATCHED_START, acts);
    EndsPaired(c, WATCHED_START, acts);
    WatchingIsHarmless(c, WATCHED_START, acts);
    var w := WatchRun(c, WATCHED_START, acts);
    if cpu in w.x.cpus && w.x.cpus[cpu].ExitDelete? {
      assert PcOf(w.x.cpus, cpu) == Some(w.x.cpus[cpu]);
      GuardedTakes(w, cpu);
    }
  }

  // ---------- programs of one process at once ----------

  function LateExits(p: Pid, size: U64, a: U64, b: U64, s: I32, t: I32): seq<Action> {
    Alone(0, Enter(p, size, 0)) + [Begin(0, Exit(p, a, s, 0)), Advance(0)]
    + Alone(1, Exit(p, b, t, 0)) + Advances(0, 6)
  }

  /** Otherwise one enter can be recorded twice, here in a run from the start: an exit
      that has read the pending size records it even if another exit of the process
      took it meanwhile. */
  lemma OneEnterTwoExits(c: Config, p: Pid, size: U64, a: U64, b: U64, s: I32, t: I32)
    requires Accepts(c, p, size, 0) && a != 0 && b != 0 && a != b
    ensures var x := Interleave(c, START, LateExits(p, size, a, b, s, t));
            && x.cpus == map[]
            && x.g.maps.allocs == map[a := AllocInfo(size, 0, s), b := AllocInfo(size, 0, t)]
  {
    var before := Alone(0, Enter(p, size, 0)) + [Begin(0, Exit(p, a, s, 0)), Advance(0)] + Alone(1, Exit(p, b, t, 0));
    EnterAndTwoExits(c, p, size, a, b, s, t);
    var h := LateExit(c, OneBlock(size, b, t), p, a, AllocInfo(size, 0, s));
    InTurn(c, START, before, Reading(OneBlock(size, b, t), p, size, a, s), Advances(0, 6), Quiet(h));
  }

  lemma EnterAndTwoExits(c: Config, p: Pid, size: U64, a: U64, b: U64, s: I32, t: I32)
    requires Accepts(c, p, size, 0) && b != 0
    ensures Interleave(c, START,
                       Alone(0, Enter(p, size, 0)) + [Begin(0, Exit(p, a, s, 0)), Advance(0)]
                       + Alone(1, Exit(p, b, t, 0)))
         == Reading(OneBlock(size, b, t), p, size, a, s)
  {
    var enter, begin := Alone(0, Enter(p, size, 0)), [Begin(0, Exit(p, a, s, 0)), Advance(0)];
    var one, two := Reading(OneSize(p, size), p, size, a, s), Reading(OneBlock(size, b, t), p, size, a, s);
    EnterFirst(c, p, size);
    ExitReads(c, p, size, a, s);
    InTurn(c, START, enter, Quiet(OneSize(p, size)), begin, one);
    OtherExits(c, p, size, a, b, s, t);
    InTurn(c, START, enter + begin, one, Alone(1, Exit(p, b, t, 0)), two);
  }

  // An exit on the first CPU that has read the pending size.
  function Reading(g: Ledger, p: Pid, size: U64, a: U64, s: I32): System {
    System(g, map[0 := ExitDelete(p, a, AllocInfo(size, 0, s))])
  }

  lemma OtherExits(c: Config, p: Pid, size: U64, a: U64, b: U64, s: I32, t: I32)
    requires b != 0
    ensures Interleave(c, Reading(OneSize(p, size), p, size, a, s), Alone(1, Exit(p, b, t, 0)))
         == Reading(OneBlock(size, b, t), p, size, a, s)
  {
    ExitFirst(p, size, b, t);
    AloneIsStep(c, OneSize(p, size), map[0 := ExitDelete(p, a, AllocInfo(size, 0, s))], 1, Exit(p, b, t, 0));
  }

  lemma ExitReads(c: Config, p: Pid, size: U64, a: U64, s: I32)
    ensures Interleave(c, Quiet(OneSize(p, size)), [Begin(0, Exit(p, a, s, 0)), Advance(0)])
         == System(OneSize(p, size), map[0 := ExitDelete(p, a, AllocInfo(size, 0, s))])
  {
    var x := Quiet(OneSize(p, size));
    InterleaveTwo(c, x, Begin(0, Exit(p, a, s, 0)), Advance(0));
    assert Do(c, x, Begin(0, Exit(p, a, s, 0))) == Solo(OneSize(p, size), ExitLookup(p, a, s, 0));
  }

  lemma LateExit(c: Config, g: Ledger, p: Pid, a: U64, info: AllocInfo) returns (h: Ledger)
    requires a != 0 && a !in g.maps.allocs && |g.maps.allocs| < ALLOCS_MAX_ENTRIES
    ensures Interleave(c, System(g, map[0 := ExitDelete(p, a, info)]), Advances(0, 6)) == Quiet(h)
    ensures h.maps.allocs == g.maps.allocs[a := info] && h.maps.sizes == g.maps.sizes - {p}
  {
    assert map[][0 := ExitDelete(p, a, info)] == map[0 := ExitDelete(p, a, info)];
    h := RunsToItsEnd(c, g, map[], 0, ExitDelete(p, a, info), 6);
    LateRecord(g, p, a, info);
  }

  lemma LateRecord(g: Ledger, p: Pid, a: U64, info: AllocInfo)
    requires a != 0 && a !in g.maps.allocs && |g.maps.allocs| < ALLOCS_MAX_ENTRIES
    ensures Finish(g, ExitDelete(p, a, info)).maps.allocs == g.maps.allocs[a := info]
    ensures Finish(g, ExitDelete(p, a, info)).maps.sizes == g.maps.sizes - {p}
    ensures Finish(g, ExitDelete(p, a, info)).maps.memptrs == g.maps.memptrs
  {
    var taken := g.(maps := g.maps.(sizes := DeleteElem(g.maps.sizes, p)));
    var inserted := InsertAlloc(taken, a, info);
    FinishAdd(inserted, a, info);
    assert Finish(taken, AllocsUpdate(p, a, info)) == Finish(inserted, AddLookup(a, info));
  }

  /** And an enter can be dropped: one that is stored while an exit of its process has
      read the size before and not yet deleted it. Here its size is never recorded, and
      no pending size is left for its own exit. */
  lemma EnterDropped(c: Config, p: Pid, size: U64, second: U64, a: U64, s: I32)
    requires Accepts(c, p, size, 0) && Accepts(c, p, second, 0) && a != 0
    ensures var x := Interleave(c, START,
                                Alone(0, Enter(p, size, 0)) + [Begin(0, Exit(p, a, s, 0)), Advance(0)]
                                + Alone(1, Enter(p, second, 0)) + Advances(0, 6));
            x.cpus == map[] && x.g.maps.sizes == map[] && x.g.maps.allocs == map[a := AllocInfo(size, 0, s)]
  {
    var enter, begin := Alone(0, Enter(p, size, 0)), [Begin(0, Exit(p, a, s, 0)), Advance(0)];
    var one, two := Reading(OneSize(p, size), p, size, a, s), Reading(OneSize(p, second), p, size, a, s);
    EnterFirst(c, p, size);
    ExitReads(c, p, size, a, s);
    InTurn(c, START, enter, Quiet(OneSize(p, size)), begin, one);
    OtherEnters(c, p, size, second, a, s);
    InTurn(c, START, enter + begin, one, Alone(1, Enter(p, second, 0)), two);
    var h := LateExit(c, OneSize(p, second), p, a, AllocInfo(size, 0, s));
    InTurn(c, START, enter + begin + Alone(1, Enter(p, second, 0)), two, Advances(0, 6), Quiet(h));
  }

  lemma OtherEnters(c: Config, p: Pid, size: U64, second: U64, a: U64, s: I32)
    requires Accepts(c, p, second, 0)
    ensures Interleave(c, Reading(OneSize(p, size), p, size, a, s), Alone(1, Enter(p, second, 0)))
         == Reading(OneSize(p, second), p, size, a, s)
  {
    AloneIsStep(c, OneSize(p, size), map[0 := ExitDelete(p, a, AllocInfo(size, 0, s))], 1, Enter(p, second, 0));
    assert map[p := size][p := second] == map[p := second];
  }

  // ---------- two posix_memalign exits at once ----------

  // One call has entered; two of its process return while its pointer and its size pend.
  function TwoReading(p: Pid, memptr: U64, size: U64, a: U64, b: U64, s: I32, t: I32): seq<Action> {
    Alone(0, SetMemptr(p, memptr)) + Alone(0, Enter(p, size, 0))
    + [Begin(0, MemalignExit(p, map[memptr := a], s, 0)), Begin(1, MemalignExit(p, map[memptr := b], t, 0))]
    + Rounds(3)
  }

  function TwoReturns(p: Pid, memptr: U64, size: U64, a: U64, b: U64, s: I32, t: I32): seq<Action> {
    TwoReading(p, memptr, size, a, b, s, t) + (Advances(0, 6) + Advances(1, 6))
  }

  function OnePointer(p: Pid, memptr: U64): Ledger {
    Ledger(Maps(map[], map[p := memptr], map[], map[]), [])
  }

  function PointerAndSize(p: Pid, memptr: U64, size: U64): Ledger {
    Ledger(Maps(map[p := size], map[p := memptr], map[], map[]), [])
  }

  /** The pointer does not exclude either: when both exits have looked it up, each reads its
      address and goes on, although the other has deleted the pointer, and both addresses
      are recorded with the one size. */
  lemma OnePointerTwoExits(c: Config, p: Pid, memptr: U64, size: U64, a: U64, b: U64, s: I32, t: I32)
    requires Accepts(c, p, size, 0) && a != 0 && b != 0 && a != b
    ensures var x := Interleave(c, START, TwoReturns(p, memptr, size, a, b, s, t));
            && x.cpus == map[] && x.g.maps.sizes == map[] && x.g.maps.memptrs == map[]
            && x.g.maps.allocs == map[a := AllocInfo(size, 0, s), b := AllocInfo(size, 0, t)]
  {
    var read := BothRead(p, size, a, b, s, t);
    TwoRead(c, p, memptr, size, a, b, s, t);
    var h := OneAfterOther(c, OneSize(p, size), p, a, b, AllocInfo(size, 0, s), AllocInfo(size, 0, t));
    InTurn(c, START, TwoReading(p, memptr, size, a, b, s, t), read, Advances(0, 6) + Advances(1, 6), Quiet(h));
  }

  function BothRead(p: Pid, size: U64, a: U64, b: U64, s: I32, t: I32): System {
    Pair(OneSize(p, size),
         Some(ExitDelete(p, a, AllocInfo(size, 0, s))), Some(ExitDelete(p, b, AllocInfo(size, 0, t))))
  }

  lemma TwoRead(c: Config, p: Pid, memptr: U64, size: U64, a: U64, b: U64, s: I32, t: I32)
    requires Accepts(c, p, size, 0)
    ensures Interleave(c, START, TwoReading(p, memptr, size, a, b, s, t)) == BothRead(p, size, a, b, s, t)
  {
    var enter := Alone(0, SetMemptr(p, memptr)) + Alone(0, Enter(p, size, 0));
    var first, second := MemalignExit(p, map[memptr := a], s, 0), MemalignExit(p, map[memptr := b], t, 0);
    var both := BothReturning(p, memptr, size, a, b, s, t);
    CallEnters(c, p, memptr, size);
    BeginBoth(c, PointerAndSize(p, memptr, size), first, second);
    InTurn(c, START, enter, Quiet(PointerAndSize(p, memptr, size)), [Begin(0, first), Begin(1, second)], both);
    ThreeRounds(c, p, memptr, size, a, b, s, t);
    InTurn(c, START, enter + [Begin(0, first), Begin(1, second)], both, Rounds(3), BothRead(p, size, a, b, s, t));
  }

  lemma CallEnters(c: Config, p: Pid, memptr: U64, size: U64)
    requires Accepts(c, p, size, 0)
    ensures Interleave(c, START, Alone(0, SetMemptr(p, memptr)) + Alone(0, Enter(p, size, 0)))
         == Quiet(PointerAndSize(p, memptr, size))
  {
    AloneIsStep(c, EMPTY, map[], 0, SetMemptr(p, memptr));
    AloneIsStep(c, OnePointer(p, memptr), map[], 0, Enter(p, size, 0));
    InTurn(c, START, Alone(0, SetMemptr(p, memptr)), Quiet(OnePointer(p, memptr)),
           Alone(0, Enter(p, size, 0)), Quiet(PointerAndSize(p, memptr, size)));
  }

  function BothReturning(p: Pid, memptr: U64, size: U64, a: U64, b: U64, s: I32, t: I32): System {
    Pair(PointerAndSize(p, memptr, size),
         Some(MemptrLookup(p, map[memptr := a], s, 0)), Some(MemptrLookup(p, map[memptr := b], t, 0)))
  }

  lemma LookupsRound(c: Config, p: Pid, memptr: U64, size: U64, a: U64, b: U64, s: I32, t: I32)
    ensures Interleave(c, BothReturning(p, memptr, size, a, b, s, t), BOTH)
         == Pair(PointerAndSize(p, memptr, size), Some(MemptrDelete(p, memptr, map[memptr := a], s, 0)),
                 Some(MemptrDelete(p, memptr, map[memptr := b], t, 0)))
  {
    Lockstep(c, PointerAndSize(p, memptr, size),
             MemptrLookup(p, map[memptr := a], s, 0), MemptrLookup(p, map[memptr := b], t, 0));
  }

  lemma DeletesRound(c: Config, p: Pid, memptr: U64, size: U64, a: U64, b: U64, s: I32, t: I32)
    ensures Interleave(c, Pair(PointerAndSize(p, memptr, size), Some(MemptrDelete(p, memptr, map[memptr := a], s, 0)),
                               Some(MemptrDelete(p, memptr, map[memptr := b], t, 0))), BOTH)
         == Pair(OneSize(p, size), Some(ExitLookup(p, a, s, 0)), Some(ExitLookup(p, b, t, 0)))
  {
    Lockstep(c, PointerAndSize(p, memptr, size), MemptrDelete(p, memptr, map[memptr := a], s, 0),
             MemptrDelete(p, memptr, map[memptr := b], t, 0));
    assert map[p := memptr] - {p} == map[] && map[p := memptr] - {p} - {p} == map[];
  }

  lemma ReadsRound(c: Config, p: Pid, size: U64, a: U64, b: U64, s: I32, t: I32)
    ensures Interleave(c, Pair(OneSize(p, size), Some(ExitLookup(p, a, s, 0)), Some(ExitLookup(p, b, t, 0))), BOTH)
         == BothRead(p, size, a, b, s, t)
  {
    Lockstep(c, OneSize(p, size), ExitLookup(p, a, s, 0), ExitLookup(p, b, t, 0));
  }

  lemma ThreeRounds(c: Config, p: Pid, memptr: U64, size: U64, a: U64, b: U64, s: I32, t: I32)
    ensures Interleave(c, BothReturning(p, memptr, size, a, b, s, t), Rounds(3))
         == BothRead(p, size, a, b, s, t)
  {
    var x := BothReturning(p, memptr, size, a, b, s, t);
    LookupsRound(c, p, memptr, size, a, b, s, t);
    var y := Interleave(c, x, BOTH);
    AfterRound(c, x, 3, y);
    DeletesRound(c, p, memptr, size, a, b, s, t);
    var z := Interleave(c, y, BOTH);
    AfterRound(c, y, 2, z);
    ReadsRound(c, p, size, a, b, s, t);
    AfterRound(c, z, 1, Interleave(c, z, BOTH));
  }

  lemma OneAfterOther(c: Config, g: Ledger, p: Pid, a: U64, b: U64, first: AllocInfo, second: AllocInfo)
    returns (h: Ledger)
    requires a != 0 && b != 0 && a != b && g.maps.sizes.Keys == {p} && g.maps.allocs == map[]
    ensures Interleave(c, Pair(g, Some(ExitDelete(p, a, first)), Some(ExitDelete(p, b, second))),
                       Advances(0, 6) + Advances(1, 6)) == Quiet(h)
    ensures h.maps.allocs == map[a := first, b := second] && h.maps.sizes == map[]
    ensures h.maps.memptrs == g.maps.memptrs
  {
    var waiting: map<Cpu, Pc> := map[1 := ExitDelete(p, b, second)];
    assert Pair(g, Some(ExitDelete(p, a, first)), Some(ExitDelete(p, b, second)))
        == System(g, waiting[0 := ExitDelete(p, a, first)]);
    var g1 := RunsToItsEnd(c, g, waiting, 0, ExitDelete(p, a, first), 6);
    LateRecord(g, p, a, first);
    assert map[][1 := ExitDelete(p, b, second)] == waiting;
    h := RunsToItsEnd(c, g1, map[], 1, ExitDelete(p, b, second), 6);
    LateRecord(g1, p, b, second);
    InTurn(c, System(g, waiting[0 := ExitDelete(p, a, first)]), Advances(0, 6), System(g1, waiting),
           Advances(1, 6), Quiet(h));
  }
}
