/** How sizes pass from enters to exits when programs overlap: which exit goes on with
    the size of which enter. */
module Handover {
  import opened Words
  import opened BpfMaps
  import opened Accounting
  import opened Sums
  import opened Interleaving

  datatype Entered = Entered(pid: Pid, size: U64)

  /** The history of the pending sizes. An enter that is stored gets the next number.
      - pending: the enter behind each pending size
      - read: the enter whose size the exit on a CPU has looked up
      - holding: the enter whose size a CPU is about to record
      - taken, recorded: the enters whose size an exit went on with, and recorded
      - removed: the enters whose pending size a delete removed */
  datatype History = History(
    enters: seq<Entered>, pending: map<Pid, nat>, read: map<Cpu, nat>, holding: map<Cpu, nat>,
    taken: multiset<nat>, recorded: multiset<nat>, removed: multiset<nat>)

  datatype Watch = Watch(x: System, h: History)

  const WATCHED_START := Watch(START, History([], map[], map[], map[], multiset{}, multiset{}, multiset{}))

  predicate Fits(sizes: map<Pid, U64>, p: Pid) {
    p in sizes || |sizes| < SIZES_MAX_ENTRIES
  }

  function Once<K>(m: map<K, nat>, k: K): multiset<nat> {
    if k in m then multiset{m[k]} else multiset{}
  }

  // What the next map operation of a CPU adds to the history.
  function Observe(h: History, sizes: map<Pid, U64>, cpu: Cpu, pc: Pc): History {
    match pc
    case EnterStore(p, size) =>
      if Fits(sizes, p) then h.(enters := h.enters + [Entered(p, size)], pending := h.pending[p := |h.enters|]) else h
    case ExitLookup(p, _, _, _) =>
      if p in h.pending then h.(read := h.read[cpu := h.pending[p]]) else h
    case ExitDelete(p, address, _) =>
      h.(taken := h.taken + Once(h.read, cpu),
      removed := h.removed + Once(h.pending, p),
      holding := if cpu in h.read && address != 0 then h.holding[cpu := h.read[cpu]] else h.holding,
      pending := h.pending - {p},
      read := h.read - {cpu})
    case AllocsUpdate(_, _, _) =>
      h.(recorded := h.recorded + Once(h.holding, cpu), holding := h.holding - {cpu})
    case _ => h
  }

  function WatchDo(c: Config, w: Watch, act: Action): Watch {
    Watch(Do(c, w.x, act),
          if act.Advance? && act.cpu in w.x.cpus
          then Observe(w.h, w.x.g.maps.sizes, act.cpu, w.x.cpus[act.cpu]) else w.h)
  }

  function WatchRun(c: Config, w: Watch, acts: seq<Action>): Watch
    decreases |acts|
  {
    if acts == [] then w else WatchRun(c, WatchDo(c, w, acts[0]), acts[1..])
  }

  /** Watching a run does not change it. */
  lemma {:induction false} WatchingIsHarmless(c: Config, w: Watch, acts: seq<Action>)
    ensures WatchRun(c, w, acts).x == Interleave(c, w.x, acts)
    decreases |acts|
  {
    if acts == [] {
    } else {
      WatchingIsHarmless(c, WatchDo(c, w, acts[0]), acts[1..]);
    }
  }

  // ---------- the history is true ----------

  predicate PendingTrue(h: History, sizes: map<Pid, U64>) {
    && h.pending.Keys == sizes.Keys
    && forall p :: p in h.pending ==> h.pending[p] < |h.enters| && h.enters[h.pending[p]] == Entered(p, sizes[p])
  }

  predicate ReadTrueAt(h: History, cpu: Cpu, pc: Option<Pc>) {
    && (cpu in h.read <==> pc.Some? && pc.value.ExitDelete?)
    && (cpu in h.read ==>
          h.read[cpu] < |h.enters| && h.enters[h.read[cpu]] == Entered(pc.value.pid, pc.value.info.size))
  }

  predicate HoldingTrueAt(h: History, cpu: Cpu, pc: Option<Pc>) {
    && (cpu in h.holding <==> pc.Some? && pc.value.AllocsUpdate?)
    && (cpu in h.holding ==>
          h.holding[cpu] < |h.enters| && h.enters[h.holding[cpu]] == Entered(pc.value.pid, pc.value.info.size))
  }

  // What an exit has read, and what it is about to record, stem from an enter of its
  // process with that size.
  ghost predicate ExitTrue(h: History, cpus: map<Cpu, Pc>) {
    forall cpu: Cpu :: ReadTrueAt(h, cpu, PcOf(cpus, cpu)) && HoldingTrueAt(h, cpu, PcOf(cpus, cpu))
  }

  // Nothing is removed twice, and what is pending has not been removed.
  predicate RemovedTrue(h: History) {
    && (forall i :: i in h.removed ==> i < |h.enters| && h.removed[i] == 1)
    && forall p :: p in h.pending ==> h.pending[p] !in h.removed
  }

  // What is pending has not been taken either.
  predicate TakenTrue(h: History) {
    && (forall i :: i in h.taken ==> i < |h.enters|)
    && forall p :: p in h.pending ==> h.pending[p] !in h.taken
  }

  function Is(i: nat): nat -> int {
    (j: nat) => if i == j then 1 else 0
  }

  // An exit makes at most one record of what it took.
  ghost predicate RecordedTrue(h: History) {
    forall i: nat :: h.recorded[i] + Sum(h.holding, Is(i)) <= h.taken[i]
  }

  ghost predicate TrueOf(h: History, sizes: map<Pid, U64>, cpus: map<Cpu, Pc>) {
    PendingTrue(h, sizes) && ExitTrue(h, cpus) && RemovedTrue(h) && TakenTrue(h) && RecordedTrue(h)
  }

  ghost predicate True(w: Watch) {
    TrueOf(w.h, w.x.g.maps.sizes, w.x.cpus)
  }

  // All that a map operation does to the pending sizes and to the exits in flight.
  predicate SizeEffect(sizes: map<Pid, U64>, pc: Pc, sizes': map<Pid, U64>, pc': Option<Pc>) {
    match pc
    case EnterStore(p, size) =>
      pc'.None? && sizes' == if Fits(sizes, p) then sizes[p := size] else sizes
    case ExitLookup(p, _, _, _) =>
      && sizes' == sizes && (pc'.Some? <==> p in sizes)
      && (pc'.Some? ==> pc'.value.ExitDelete? && pc'.value.pid == p && pc'.value.info.size == sizes[p])
    case ExitDelete(p, address, info) =>
      sizes' == sizes - {p} && pc' == if address != 0 then Some(AllocsUpdate(p, address, info)) else None
    case _ =>
      sizes' == sizes && (pc'.Some? ==> !pc'.value.ExitDelete? && !pc'.value.AllocsUpdate?)
  }

  lemma NextSizes(g: Ledger, pc: Pc)
    ensures SizeEffect(g.maps.sizes, pc, Next(g, pc).0.maps.sizes, Next(g, pc).1)
  {}

  lemma SizesTrue(h: History, sizes: map<Pid, U64>, cpu: Cpu, pc: Pc, sizes': map<Pid, U64>, pc': Option<Pc>)
    requires PendingTrue(h, sizes) && SizeEffect(sizes, pc, sizes', pc')
    ensures PendingTrue(Observe(h, sizes, cpu, pc), sizes')
  {}

  // A step of one CPU changes nothing in the history of the exits on the others.
  lemma ReadOfOthers(h: History, sizes: map<Pid, U64>, cpu: Cpu, pc: Pc, d: Cpu)
    requires d != cpu
    ensures var h' := Observe(h, sizes, cpu, pc);
            && h.enters <= h'.enters
            && (d in h'.read <==> d in h.read) && (d in h.read ==> h'.read[d] == h.read[d])
            && (d in h'.holding <==> d in h.holding) && (d in h.holding ==> h'.holding[d] == h.holding[d])
  {}

  lemma OwnTrue(h: History, sizes: map<Pid, U64>, cpu: Cpu, pc: Pc, sizes': map<Pid, U64>, pc': Option<Pc>)
    requires PendingTrue(h, sizes) && SizeEffect(sizes, pc, sizes', pc')
    requires ReadTrueAt(h, cpu, Some(pc)) && HoldingTrueAt(h, cpu, Some(pc))
    ensures ReadTrueAt(Observe(h, sizes, cpu, pc), cpu, pc') && HoldingTrueAt(Observe(h, sizes, cpu, pc), cpu, pc')
  {}

  lemma ExitsTrue(
    h: History, sizes: map<Pid, U64>, cpus: map<Cpu, Pc>, cpu: Cpu, sizes': map<Pid, U64>, pc': Option<Pc>)
    requires cpu in cpus && PendingTrue(h, sizes) && ExitTrue(h, cpus) && SizeEffect(sizes, cpus[cpu], sizes', pc')
    ensures ExitTrue(Observe(h, sizes, cpu, cpus[cpu]), Goto(cpus, cpu, pc'))
  {
    var h', cpus' := Observe(h, sizes, cpu, cpus[cpu]), Goto(cpus, cpu, pc');
    forall d: Cpu
      ensures ReadTrueAt(h', d, PcOf(cpus', d)) && HoldingTrueAt(h', d, PcOf(cpus', d))
    {
      assert ReadTrueAt(h, d, PcOf(cpus, d)) && HoldingTrueAt(h, d, PcOf(cpus, d));
      if d == cpu {
        OwnTrue(h, sizes, cpu, cpus[cpu], sizes', pc');
      } else {
        ReadOfOthers(h, sizes, cpu, cpus[cpu], d);
      }
    }
  }

  lemma StoredNotRemoved(h: History, p: Pid, size: U64)
    requires RemovedTrue(h)
    ensures RemovedTrue(h.(enters := h.enters + [Entered(p, size)], pending := h.pending[p := |h.enters|]))
  {}

  lemma RemovedNotPending(h: History, h': History, p: Pid)
    requires RemovedTrue(h) && p in h.pending && h'.enters == h.enters
    requires forall q :: q in h.pending ==> h.pending[q] < |h.enters| && h.enters[h.pending[q]].pid == q
    requires h'.pending == h.pending - {p} && h'.removed == h.removed + multiset{h.pending[p]}
    ensures RemovedTrue(h')
  {
    forall i | i in h'.removed
      ensures i < |h'.enters| && h'.removed[i] == 1
    {
      assert i == h.pending[p] || i in h.removed;
    }
  }

  lemma RemovalsTrue(h: History, h': History, sizes: map<Pid, U64>, cpu: Cpu, pc: Pc)
    requires PendingTrue(h, sizes) && RemovedTrue(h) && h' == Observe(h, sizes, cpu, pc)
    ensures RemovedTrue(h')
  {
    if pc.EnterStore? {
      StoredNotRemoved(h, pc.pid, pc.size);
    } else if pc.ExitDelete? && pc.pid in h.pending {
      RemovedNotPending(h, h', pc.pid);
    } else {
      assert h'.enters == h.enters && h'.removed == h.removed;
      assert forall p :: p in h'.pending ==> p in h.pending && h'.pending[p] == h.pending[p];
    }
  }

  lemma StoredNotTaken(h: History, p: Pid, size: U64)
    requires TakenTrue(h)
    ensures TakenTrue(h.(enters := h.enters + [Entered(p, size)], pending := h.pending[p := |h.enters|]))
  {}

  // An exit takes an enter of its own process, whose pending size it deletes.
  lemma TakenNotPending(h: History, h': History, p: Pid, i: nat)
    requires TakenTrue(h) && i < |h.enters| && h.enters[i].pid == p && h'.enters == h.enters
    requires forall q :: q in h.pending ==> h.pending[q] < |h.enters| && h.enters[h.pending[q]].pid == q
    requires h'.pending == h.pending - {p} && h'.taken == h.taken + multiset{i}
    ensures TakenTrue(h')
  {
    forall j | j in h'.taken
      ensures j < |h'.enters|
    {
      assert j == i || j in h.taken;
    }
  }

  lemma TakesTrue(h: History, sizes: map<Pid, U64>, cpu: Cpu, pc: Pc)
    requires PendingTrue(h, sizes) && TakenTrue(h) && ReadTrueAt(h, cpu, Some(pc))
    ensures TakenTrue(Observe(h, sizes, cpu, pc))
  {
    if pc.EnterStore? {
      StoredNotTaken(h, pc.pid, pc.size);
    } else if pc.ExitDelete? {
      TakenNotPending(h, Observe(h, sizes, cpu, pc), pc.pid, h.read[cpu]);
    }
  }

  lemma TakeHolds(h: History, h': History, cpu: Cpu, i: nat)
    requires h.recorded[i] + Sum(h.holding, Is(i)) <= h.taken[i] && cpu in h.read && cpu !in h.holding
    requires h'.recorded == h.recorded && h'.taken == h.taken + multiset{h.read[cpu]}
    requires h'.holding == h.holding || h'.holding == h.holding[cpu := h.read[cpu]]
    ensures h'.recorded[i] + Sum(h'.holding, Is(i)) <= h'.taken[i]
  {
    SumPut(h.holding, Is(i), cpu, h.read[cpu]);
  }

  lemma RecordLetsGo(h: History, h': History, cpu: Cpu, i: nat)
    requires h.recorded[i] + Sum(h.holding, Is(i)) <= h.taken[i] && cpu in h.holding
    requires h'.recorded == h.recorded + multiset{h.holding[cpu]} && h'.taken == h.taken
    requires h'.holding == h.holding - {cpu}
    ensures h'.recorded[i] + Sum(h'.holding, Is(i)) <= h'.taken[i]
  {
    SumRemove(h.holding, Is(i), cpu);
  }

  // What a map operation of a CPU does to what is taken, held and recorded.
  predicate RecordEffect(h: History, h': History, cpu: Cpu, pc: Pc)
    requires pc.ExitDelete? ==> cpu in h.read
    requires pc.AllocsUpdate? ==> cpu in h.holding
  {
    if pc.ExitDelete? then
      && h'.recorded == h.recorded && h'.taken == h.taken + multiset{h.read[cpu]}
      && (h'.holding == h.holding || h'.holding == h.holding[cpu := h.read[cpu]])
    else if pc.AllocsUpdate? then
      && h'.recorded == h.recorded + multiset{h.holding[cpu]} && h'.taken == h.taken
      && h'.holding == h.holding - {cpu}
    else h'.recorded == h.recorded && h'.taken == h.taken && h'.holding == h.holding
  }

  lemma RecordsKept(h: History, h': History, cpu: Cpu, pc: Pc)
    requires ReadTrueAt(h, cpu, Some(pc)) && HoldingTrueAt(h, cpu, Some(pc)) && RecordedTrue(h)
    requires RecordEffect(h, h', cpu, pc)
    ensures RecordedTrue(h')
  {
    forall i: nat
      ensures h'.recorded[i] + Sum(h'.holding, Is(i)) <= h'.taken[i]
    {
      assert h.recorded[i] + Sum(h.holding, Is(i)) <= h.taken[i];
      if pc.ExitDelete? {
        TakeHolds(h, h', cpu, i);
      } else if pc.AllocsUpdate? {
        RecordLetsGo(h, h', cpu, i);
      }
    }
  }

  lemma ObserveRecords(h: History, sizes: map<Pid, U64>, cpu: Cpu, pc: Pc)
    requires ReadTrueAt(h, cpu, Some(pc)) && HoldingTrueAt(h, cpu, Some(pc))
    ensures RecordEffect(h, Observe(h, sizes, cpu, pc), cpu, pc)
  {}

  lemma RecordsTrue(h: History, h': History, sizes: map<Pid, U64>, cpu: Cpu, pc: Pc)
    requires ReadTrueAt(h, cpu, Some(pc)) && HoldingTrueAt(h, cpu, Some(pc)) && RecordedTrue(h)
    requires h' == Observe(h, sizes, cpu, pc)
    ensures RecordedTrue(h')
  {
    ObserveRecords(h, sizes, cpu, pc);
    RecordsKept(h, h', cpu, pc);
  }

  lemma ObserveTrue(
    h: History, sizes: map<Pid, U64>, cpus: map<Cpu, Pc>, cpu: Cpu, sizes': map<Pid, U64>, pc': Option<Pc>)
    requires cpu in cpus && TrueOf(h, sizes, cpus) && SizeEffect(sizes, cpus[cpu], sizes', pc')
    ensures TrueOf(Observe(h, sizes, cpu, cpus[cpu]), sizes', Goto(cpus, cpu, pc'))
  {
    SizesTrue(h, sizes, cpu, cpus[cpu], sizes', pc');
    ExitsTrue(h, sizes, cpus, cpu, sizes', pc');
    RemovalsTrue(h, Observe(h, sizes, cpu, cpus[cpu]), sizes, cpu, cpus[cpu]);
    assert PcOf(cpus, cpu) == Some(cpus[cpu]);
    TakesTrue(h, sizes, cpu, cpus[cpu]);
    RecordsTrue(h, Observe(h, sizes, cpu, cpus[cpu]), sizes, cpu, cpus[cpu]);
  }

  lemma BeginTrue(c: Config, h: History, sizes: map<Pid, U64>, cpus: map<Cpu, Pc>, cpu: Cpu, op: Op)
    requires TrueOf(h, sizes, cpus) && cpu !in cpus
    ensures TrueOf(h, sizes, Goto(cpus, cpu, First(c, op)))
  {
    var cpus' := Goto(cpus, cpu, First(c, op));
    forall d: Cpu
      ensures ReadTrueAt(h, d, PcOf(cpus', d)) && HoldingTrueAt(h, d, PcOf(cpus', d))
    {
      assert ReadTrueAt(h, d, PcOf(cpus, d)) && HoldingTrueAt(h, d, PcOf(cpus, d));
    }
  }

  lemma DoTrue(c: Config, w: Watch, act: Action)
    requires True(w)
    ensures True(WatchDo(c, w, act))
  {
    var sizes, cpus := w.x.g.maps.sizes, w.x.cpus;
    match act {
      case Begin(cpu, op) =>
        if cpu !in cpus {
          BeginTrue(c, w.h, sizes, cpus, cpu, op);
        }
      case Advance(cpu) =>
        if cpu in cpus {
          var n := Next(w.x.g, cpus[cpu]);
          NextSizes(w.x.g, cpus[cpu]);
          ObserveTrue(w.h, sizes, cpus, cpu, n.0.maps.sizes, n.1);
        }
    }
  }

  lemma StartTrue()
    ensures True(WATCHED_START)
  {}

  lemma {:induction false} RunTrue(c: Config, w: Watch, acts: seq<Action>)
    requires True(w)
    ensures True(WatchRun(c, w, acts))
    decreases |acts|
  {
    if acts == [] {
    } else {
      DoTrue(c, w, acts[0]);
      RunTrue(c, WatchDo(c, w, acts[0]), acts[1..]);
    }
  }

  /** In any interleaving what is about to be recorded is the size of an
      enter of the same process. */
  lemma RecordStemsFromEnter(c: Config, acts: seq<Action>, cpu: Cpu)
    requires cpu in Interleave(c, START, acts).cpus && Interleave(c, START, acts).cpus[cpu].AllocsUpdate?
    ensures var w, pc := WatchRun(c, WATCHED_START, acts), Interleave(c, START, acts).cpus[cpu];
            cpu in w.h.holding && w.h.holding[cpu] < |w.h.enters|
            && w.h.enters[w.h.holding[cpu]] == Entered(pc.pid, pc.info.size)
  {
    StartTrue();
    RunTrue(c, WATCHED_START, acts);
    WatchingIsHarmless(c, WATCHED_START, acts);
    var w := WatchRun(c, WATCHED_START, acts);
    assert PcOf(w.x.cpus, cpu) == Some(w.x.cpus[cpu]);
  }
}
