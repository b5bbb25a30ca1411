/** The missing-free workaround when the slab handlers run on many CPUs at once. */
module Workaround {
  import opened Words
  import opened BpfMaps
  import opened Accounting
  import opened Totals
  import opened Interleaving
  import opened Conservation
  import opened Exclusion
  import opened Ledgers
  import opened KernelRuns

  // ---------- handlers on CPUs ----------

  // The handler that a CPU is running, and the operations that it has not begun yet.
  datatype Task = Task(h: Handler, rest: seq<Op>)

  datatype Kernel = Kernel(x: System, tasks: map<Cpu, Task>)

  datatype Turn = Start(cpu: Cpu, h: Handler) | Go(cpu: Cpu)

  const IDLE := Kernel(START, map[])

  // A CPU goes on with its next map operation, with its next gen_* call, or by returning.
  function DoTurn(c: Config, k: Kernel, turn: Turn): Kernel {
    match turn
    case Start(cpu, h) =>
      if cpu in k.tasks then k else k.(tasks := k.tasks[cpu := Task(h, Program(c, h))])
    case Go(cpu) =>
      if cpu !in k.tasks then k
      else if cpu in k.x.cpus then k.(x := Do(c, k.x, Advance(cpu)))
      else if k.tasks[cpu].rest == [] then k.(tasks := k.tasks - {cpu})
      else
        var t := k.tasks[cpu];
        Kernel(Do(c, k.x, Begin(cpu, t.rest[0])), k.tasks[cpu := Task(t.h, t.rest[1..])])
  }

  function DoTurns(c: Config, k: Kernel, turns: seq<Turn>): Kernel
    decreases |turns|
  {
    if turns == [] then k else DoTurns(c, DoTurn(c, k, turns[0]), turns[1..])
  }

  // The handlers are one of the interleavings of their programs.
  lemma {:induction false} TurnsInterleave(c: Config, k: Kernel, turns: seq<Turn>) returns (acts: seq<Action>)
    ensures Interleave(c, k.x, acts) == DoTurns(c, k, turns).x
    decreases |turns|
  {
    if turns == [] {
      acts := [];
    } else {
      acts := TurnsInterleave(c, DoTurn(c, k, turns[0]), turns[1..]);
      var act := TurnActs(c, k, turns[0]);
      InterleaveConcat(c, k.x, act, acts);
      acts := act + acts;
    }
  }

  lemma TurnActs(c: Config, k: Kernel, turn: Turn) returns (acts: seq<Action>)
    ensures Interleave(c, k.x, acts) == DoTurn(c, k, turn).x
  {
    acts := [];
    if turn.Go? && turn.cpu in k.tasks {
      if turn.cpu in k.x.cpus {
        acts := [Advance(turn.cpu)];
        assert acts[1..] == [];
      } else if k.tasks[turn.cpu].rest != [] {
        acts := [Begin(turn.cpu, k.tasks[turn.cpu].rest[0])];
        assert acts[1..] == [];
      }
    }
  }

  function AddressOf(h: Handler): U64 {
    match h
    case SlabAlloc(_, ptr, _, _, _, _) => ptr
    case FreeEnter(address) => address
    case _ => 0
  }

  // No two handlers at work share an address.
  predicate ApartAt(tasks: map<Cpu, Task>) {
    forall c, d :: c in tasks && d in tasks && c != d && AddressOf(tasks[c].h) == AddressOf(tasks[d].h) ==>
                     AddressOf(tasks[c].h) == 0
  }

  predicate Apart(c: Config, k: Kernel, turns: seq<Turn>)
    decreases |turns|
  {
    ApartAt(k.tasks) && (turns != [] ==> Apart(c, DoTurn(c, k, turns[0]), turns[1..]))
  }

  // `allocs` has room throughout.
  predicate HasRoom(c: Config, k: Kernel, turns: seq<Turn>)
    decreases |turns|
  {
    |k.x.g.maps.allocs| < ALLOCS_MAX_ENTRIES && (turns != [] ==> HasRoom(c, DoTurn(c, k, turns[0]), turns[1..]))
  }

  predicate SlabTurns(turns: seq<Turn>) {
    forall i :: 0 <= i < |turns| && turns[i].Start? ==> SlabProgram(turns[i].h)
  }

  // ---------- where a handler stands ----------

  predicate Freeing(pc: Pc, a: U64) {
    (pc.FreeLookup? || pc.FreeDelete? || pc.DelLookup? || pc.DelFetch?) && pc.address == a
  }

  predicate Exiting(pc: Pc, a: U64) {
    && (pc.ExitLookup? || pc.ExitDelete? || pc.AllocsUpdate? || PendingAdd(pc))
    && pc.address == a
  }

  // What is left of a handler, and the program it is in, fit together.
  predicate InStep(t: Task, pc: Option<Pc>) {
    match t.h
    case FreeEnter(a) =>
      || (t.rest == [Free(a)] && pc.None?)
      || (t.rest == [] && (pc.Some? ==> Freeing(pc.value, a)))
    case SlabAlloc(pid, ptr, size, stackId, now, later) =>
      var enter, exit := Enter(pid, size, now), Exit(pid, ptr, stackId, later);
      || (t.rest == [Free(ptr), enter, exit] && pc.None?)
      || (t.rest == [enter, exit] && (pc.Some? ==> Freeing(pc.value, ptr)))
      || (t.rest == [exit] && (pc.Some? ==> pc.value.EnterStore?))
      || (t.rest == [] && (pc.Some? ==> Exiting(pc.value, ptr)))
    case _ => false
  }

  // From its delete to its own record an allocation has no entry at its address.
  predicate Cleared(t: Task, pc: Option<Pc>) {
    t.h.SlabAlloc? &&
    if |t.rest| == 2 then pc.None? || PendingSub(pc.value)
    else if |t.rest| == 1 then true
    else |t.rest| == 0 && pc.Some? && (pc.value.ExitLookup? || pc.value.ExitDelete? || pc.value.AllocsUpdate?)
  }

  predicate TaskOk(m: Maps, t: Task, pc: Option<Pc>) {
    InStep(t, pc) && (Cleared(t, pc) ==> AddressOf(t.h) !in m.allocs)
  }

  predicate TasksOk(k: Kernel) {
    && k.x.cpus.Keys <= k.tasks.Keys
    && forall cpu :: cpu in k.tasks ==> TaskOk(k.x.g.maps, k.tasks[cpu], PcOf(k.x.cpus, cpu))
  }

  lemma InStepTarget(t: Task, pc: Pc)
    requires InStep(t, Some(pc))
    ensures Target(pc) == 0 || Target(pc) == AddressOf(t.h)
  {}

  // Handlers that are apart make an exclusive interleaving.
  lemma ApartIsExclusive(k: Kernel)
    requires TasksOk(k) && ApartAt(k.tasks)
    ensures Exclusive(k.x)
  {
    forall c, d | c in k.x.cpus && d in k.x.cpus && c != d && Target(k.x.cpus[c]) == Target(k.x.cpus[d])
      ensures Target(k.x.cpus[c]) == 0
    {
      assert TaskOk(k.x.g.maps, k.tasks[c], PcOf(k.x.cpus, c)) && TaskOk(k.x.g.maps, k.tasks[d], PcOf(k.x.cpus, d));
      InStepTarget(k.tasks[c], k.x.cpus[c]);
      InStepTarget(k.tasks[d], k.x.cpus[d]);
    }
  }

  // ---------- one turn ----------

  lemma OwnTask(g: Ledger, t: Task, pc: Pc)
    requires TaskOk(g.maps, t, Some(pc))
    ensures TaskOk(Next(g, pc).0.maps, t, Next(g, pc).1)
  {}

  lemma OtherTask(g: Ledger, pc: Pc, t: Task, other: Task, otherPc: Option<Pc>)
    requires InStep(t, Some(pc)) && TaskOk(g.maps, other, otherPc)
    requires 0 !in Next(g, pc).0.maps.allocs
    requires AddressOf(t.h) == AddressOf(other.h) ==> AddressOf(t.h) == 0
    ensures TaskOk(Next(g, pc).0.maps, other, otherPc)
  {
    InStepTarget(t, pc);
    if AddressOf(other.h) != 0 {
      NextTouches(g, pc, AddressOf(other.h));
    }
  }

  lemma AdvanceTask(k: Kernel, cpu: Cpu, g: Ledger, pc: Option<Pc>, d: Cpu)
    requires TasksOk(k) && ApartAt(k.tasks) && cpu in k.x.cpus && d in k.tasks && WithinLimits(g.maps)
    requires g == Next(k.x.g, k.x.cpus[cpu]).0 && pc == Next(k.x.g, k.x.cpus[cpu]).1
    ensures TaskOk(g.maps, k.tasks[d], PcOf(Goto(k.x.cpus, cpu, pc), d))
  {
    assert TaskOk(k.x.g.maps, k.tasks[cpu], PcOf(k.x.cpus, cpu));
    assert TaskOk(k.x.g.maps, k.tasks[d], PcOf(k.x.cpus, d));
    if d == cpu {
      OwnTask(k.x.g, k.tasks[cpu], k.x.cpus[cpu]);
    } else {
      OtherTask(k.x.g, k.x.cpus[cpu], k.tasks[cpu], k.tasks[d], PcOf(k.x.cpus, d));
    }
  }

  lemma AdvanceTasks(c: Config, k: Kernel, cpu: Cpu)
    requires TasksOk(k) && ApartAt(k.tasks) && cpu in k.x.cpus && Inv(k.x)
    ensures TasksOk(DoTurn(c, k, Go(cpu)))
  {
    var n := Next(k.x.g, k.x.cpus[cpu]);
    InvIsSound(k.x);
    NextLimits(k.x.g, k.x.cpus[cpu]);
    forall d | d in k.tasks
      ensures TaskOk(n.0.maps, k.tasks[d], PcOf(Goto(k.x.cpus, cpu, n.1), d))
    {
      AdvanceTask(k, cpu, n.0, n.1, d);
    }
  }

  lemma NextCall(c: Config, m: Maps, t: Task)
    requires TaskOk(m, t, None) && t.rest != []
    ensures TaskOk(m, Task(t.h, t.rest[1..]), First(c, t.rest[0]))
  {}

  lemma CallTasks(c: Config, k: Kernel, cpu: Cpu)
    requires TasksOk(k) && cpu in k.tasks && cpu !in k.x.cpus && k.tasks[cpu].rest != []
    ensures TasksOk(DoTurn(c, k, Go(cpu)))
  {
    var k' := DoTurn(c, k, Go(cpu));
    forall d | d in k'.tasks
      ensures TaskOk(k'.x.g.maps, k'.tasks[d], PcOf(k'.x.cpus, d))
    {
      assert TaskOk(k.x.g.maps, k.tasks[d], PcOf(k.x.cpus, d));
      if d == cpu {
        NextCall(c, k.x.g.maps, k.tasks[cpu]);
        assert PcOf(k'.x.cpus, d) == First(c, k.tasks[cpu].rest[0]);
      } else {
        assert PcOf(k'.x.cpus, d) == PcOf(k.x.cpus, d);
      }
    }
  }

  lemma StartTask(c: Config, m: Maps, h: Handler)
    requires c.waMissingFree && SlabProgram(h)
    ensures TaskOk(m, Task(h, Program(c, h)), None)
  {
    if h.SlabAlloc? {
      assert Program(c, h) == [Free(h.ptr), Enter(h.pid, h.size, h.now), Exit(h.pid, h.ptr, h.stackId, h.later)];
    }
  }

  lemma StartTasks(c: Config, k: Kernel, cpu: Cpu, h: Handler)
    requires c.waMissingFree && SlabProgram(h) && TasksOk(k)
    ensures TasksOk(DoTurn(c, k, Start(cpu, h)))
  {
    StartTask(c, k.x.g.maps, h);
    if cpu !in k.tasks {
      assert PcOf(k.x.cpus, cpu) == None;
    }
  }

  lemma TurnTasks(c: Config, k: Kernel, turn: Turn)
    requires c.waMissingFree && (turn.Start? ==> SlabProgram(turn.h))
    requires TasksOk(k) && ApartAt(k.tasks) && Inv(k.x)
    ensures TasksOk(DoTurn(c, k, turn))
  {
    match turn {
      case Start(cpu, h) => StartTasks(c, k, cpu, h);
      case Go(cpu) =>
        if cpu in k.tasks {
          if cpu in k.x.cpus {
            AdvanceTasks(c, k, cpu);
          } else if k.tasks[cpu].rest != [] {
            CallTasks(c, k, cpu);
          }
        }
    }
  }

  lemma TurnInv(c: Config, k: Kernel, turn: Turn)
    requires TasksOk(k) && ApartAt(k.tasks) && Inv(k.x)
    ensures Inv(DoTurn(c, k, turn).x)
  {
    if turn.Go? && turn.cpu in k.tasks {
      if turn.cpu in k.x.cpus {
        ApartIsExclusive(k);
        AdvanceInv(c, k.x, turn.cpu);
      } else if k.tasks[turn.cpu].rest != [] {
        BeginInv(c, k.x, turn.cpu, k.tasks[turn.cpu].rest[0]);
      }
    }
  }

  // ---------- nothing is overwritten ----------

  lemma NextLost(g: Ledger, t: Task, pc: Pc)
    requires TaskOk(g.maps, t, Some(pc))
    ensures NoOverwrites(g.lost) ==> NoOverwrites(Next(g, pc).0.lost)
    ensures |g.maps.allocs| < ALLOCS_MAX_ENTRIES ==> Next(g, pc).0.lost == g.lost
  {
    if pc.AllocsUpdate? {
      assert LossOf(g.maps.allocs, pc.address, pc.info)
          == if |g.maps.allocs| >= ALLOCS_MAX_ENTRIES then [Refused(pc.info)] else [];
    }
  }

  lemma TurnLost(c: Config, k: Kernel, turn: Turn)
    requires TasksOk(k)
    ensures NoOverwrites(k.x.g.lost) ==> NoOverwrites(DoTurn(c, k, turn).x.g.lost)
    ensures |k.x.g.maps.allocs| < ALLOCS_MAX_ENTRIES ==> DoTurn(c, k, turn).x.g.lost == k.x.g.lost
  {
    if turn.Go? && turn.cpu in k.tasks && turn.cpu in k.x.cpus {
      assert TaskOk(k.x.g.maps, k.tasks[turn.cpu], PcOf(k.x.cpus, turn.cpu));
      NextLost(k.x.g, k.tasks[turn.cpu], k.x.cpus[turn.cpu]);
    }
  }

  lemma {:induction false} TurnsKeep(c: Config, k: Kernel, turns: seq<Turn>)
    requires c.waMissingFree && SlabTurns(turns) && Apart(c, k, turns)
    requires TasksOk(k) && Inv(k.x) && NoOverwrites(k.x.g.lost)
    ensures Inv(DoTurns(c, k, turns).x) && NoOverwrites(DoTurns(c, k, turns).x.g.lost)
    ensures HasRoom(c, k, turns) ==> DoTurns(c, k, turns).x.g.lost == k.x.g.lost
    decreases |turns|
  {
    if turns == [] {
    } else {
      TurnTasks(c, k, turns[0]);
      TurnInv(c, k, turns[0]);
      TurnLost(c, k, turns[0]);
      TurnsKeep(c, DoTurn(c, k, turns[0]), turns[1..]);
    }
  }

  /** With the workaround no entry is ever overwritten, however the handlers of
      different addresses overlap and whichever frees were missed. */
  lemma OverlapNeverOverwrites(c: Config, turns: seq<Turn>)
    requires c.waMissingFree && SlabTurns(turns) && Apart(c, IDLE, turns)
    ensures NoOverwrites(DoTurns(c, IDLE, turns).x.g.lost)
  {
    StartInv();
    TurnsKeep(c, IDLE, turns);
  }

  /** And as long as `allocs` has room, nothing is lost at all, and the word of every
      tracked stack with nothing pending is the exact sum of its live entries. */
  lemma OverlapIsExact(c: Config, turns: seq<Turn>, key: U64)
    requires c.waMissingFree && SlabTurns(turns) && Apart(c, IDLE, turns) && HasRoom(c, IDLE, turns)
    ensures var x := DoTurns(c, IDLE, turns).x;
            && x.g.lost == []
            && (key in x.g.maps.combined && NonePending(x, key) ==>
                  x.g.maps.combined[key] == Live(Word, key, x.g.maps.allocs))
  {
    var x := DoTurns(c, IDLE, turns).x;
    StartInv();
    TurnsKeep(c, IDLE, turns);
    if key in x.g.maps.combined && NonePending(x, key) {
      InvIsSound(x);
      assert Balanced(x, key);
      SettledStack(x, key);
      WordIsLive(x.g, key);
    }
  }
}
