/** Runs of the kernel tracepoint programs, where one program both enters and exits. */
module KernelRuns {
  import opened Words
  import opened BpfMaps
  import opened Accounting
  import opened Totals
  import opened Sums
  import opened Ledgers

  predicate KernelProgram(h: Handler) {
    h.SlabAlloc? || h.PageAlloc? || h.PercpuAlloc? || h.FreeEnter?
  }

  function Handle(c: Config, g: Ledger, h: Handler): Ledger {
    Run(c, g, Program(c, h))
  }

  // ---------- no residue ----------

  function EnterThenExit(
    c: Config, g: Ledger, pid: Pid, size: U64, ptr: U64, stackId: I32, now: U64, later: U64): Ledger
  {
    Step(c, Step(c, g, Enter(pid, size, now)), Exit(pid, ptr, stackId, later))
  }

  // With no pending size to begin with, a rejected size records nothing, and an
  // accepted one is the size that its own exit takes.
  lemma EnterExitPair(c: Config, g: Ledger, pid: Pid, size: U64, ptr: U64, stackId: I32, now: U64, later: U64)
    requires g.maps.sizes == map[]
    ensures var g' := EnterThenExit(c, g, pid, size, ptr, stackId, now, later);
            && g'.maps.sizes == map[]
            && (!Accepts(c, pid, size, now) || ptr == 0 ==> g' == g)
            && (Accepts(c, pid, size, now) && ptr != 0 ==>
                  g' == CountAdd(InsertAlloc(g, ptr, AllocInfo(size, later, stackId)), AllocInfo(size, later, stackId)))
  {
    assert g.maps.sizes[pid := size] - {pid} == map[];
  }

  // The size that a kernel program asks for, and the address it reports.
  function Requested(c: Config, h: Handler): U64
    requires KernelProgram(h) && !h.FreeEnter?
  {
    match h
    case SlabAlloc(_, _, size, _, _, _) => size
    case PageAlloc(_, order, _, _, _, _) => Wrap64(c.pageSize * PowerOfTwo(order))
    case PercpuAlloc(_, _, size, _, _, _) => size
  }

  function Reported(h: Handler): U64
    requires KernelProgram(h) && !h.FreeEnter?
  {
    match h
    case SlabAlloc(_, ptr, _, _, _, _) => ptr
    case PageAlloc(_, _, pfn, _, _, _) => pfn
    case PercpuAlloc(_, ptr, _, _, _, _) => ptr
  }

  // The state in which the enter and exit of a kernel program run.
  function Prepared(c: Config, g: Ledger, h: Handler): Ledger {
    if h.SlabAlloc? && c.waMissingFree then Step(c, g, Free(h.ptr)) else g
  }

  lemma KernelHandle(c: Config, g: Ledger, h: Handler)
    requires KernelProgram(h)
    ensures h.FreeEnter? ==> Handle(c, g, h) == Step(c, g, Free(h.address))
    ensures !h.FreeEnter? ==>
              Handle(c, g, h) == EnterThenExit(
                c, Prepared(c, g, h), h.pid, Requested(c, h), Reported(h), h.stackId, h.now, h.later)
  {
    if !h.FreeEnter? {
      var enter, exit := Enter(h.pid, Requested(c, h), h.now), Exit(h.pid, Reported(h), h.stackId, h.later);
      if h.SlabAlloc? && c.waMissingFree {
        assert Program(c, h) == [Free(h.ptr), enter, exit];
        RunThree(c, g, Free(h.ptr), enter, exit);
      } else {
        assert Program(c, h) == [enter, exit];
        RunTwo(c, g, enter, exit);
      }
    } else {
      RunOne(c, g, Free(h.address));
    }
  }

  lemma KernelLeavesNoSize(c: Config, g: Ledger, h: Handler)
    requires KernelProgram(h) && g.maps.sizes == map[]
    ensures Handle(c, g, h).maps.sizes == map[]
  {
    KernelHandle(c, g, h);
    if !h.FreeEnter? {
      EnterExitPair(c, Prepared(c, g, h), h.pid, Requested(c, h), Reported(h), h.stackId, h.now, h.later);
    }
  }

  /** Kernel programs leave no residue: no size is pending at any boundary. */
  lemma {:induction false} NoResidue(c: Config, g: Ledger, hs: seq<Handler>)
    requires g.maps.sizes == map[]
    requires forall i :: 0 <= i < |hs| ==> KernelProgram(hs[i])
    ensures RunHandlers(c, g, hs).maps.sizes == map[]
    decreases |hs|
  {
    if hs == [] {
    } else {
      KernelLeavesNoSize(c, g, hs[0]);
      NoResidue(c, Handle(c, g, hs[0]), hs[1..]);
    }
  }

  /** So at the end of any kernel run, the next program records its own size at its
      own address, or, when its filters reject it, nothing at all. */
  lemma RecordsItsOwn(c: Config, hs: seq<Handler>, h: Handler)
    requires forall i :: 0 <= i < |hs| ==> KernelProgram(hs[i])
    requires KernelProgram(h) && !h.FreeEnter?
    ensures var g := Prepared(c, After(c, hs), h);
            var g' := Handle(c, After(c, hs), h);
            var ptr, info := Reported(h), AllocInfo(Requested(c, h), h.later, h.stackId);
            if Accepts(c, h.pid, Requested(c, h), h.now) && ptr != 0 then
              g'.maps.allocs == if ptr in g.maps.allocs || |g.maps.allocs| < ALLOCS_MAX_ENTRIES
              then g.maps.allocs[ptr := info] else g.maps.allocs
            else g' == g
  {
    NoResidue(c, EMPTY, hs);
    KernelHandle(c, After(c, hs), h);
    EnterExitPair(c, Prepared(c, After(c, hs), h), h.pid, Requested(c, h), Reported(h), h.stackId, h.now, h.later);
  }

  // ---------- the missing-free workaround ----------

  predicate SlabProgram(h: Handler) {
    h.SlabAlloc? || h.FreeEnter?
  }

  predicate NoOverwrites(lost: seq<Loss>) {
    forall i :: 0 <= i < |lost| ==> lost[i].Refused?
  }

  // At an address without an entry only a full map loses the record.
  lemma FreshAddress(g: Ledger, address: U64, info: AllocInfo)
    requires address !in g.maps.allocs
    ensures var g' := CountAdd(InsertAlloc(g, address, info), info);
            && (NoOverwrites(g.lost) ==> NoOverwrites(g'.lost))
            && (g'.lost != g.lost ==> |g.maps.allocs| >= ALLOCS_MAX_ENTRIES && |g'.maps.allocs| >= ALLOCS_MAX_ENTRIES)
  {}

  // The free of the workaround makes room for the entry that follows: it is a new
  // one, which only a full map can refuse.
  lemma FreedAddress(c: Config, g: Ledger, address: U64)
    ensures var g' := Step(c, g, Free(address));
            address !in g'.maps.allocs && g'.lost == g.lost && g'.maps.sizes == g.maps.sizes
            && |g'.maps.allocs| <= |g.maps.allocs|
  {
    if address in g.maps.allocs {
      assert (g.maps.allocs - {address}).Keys == g.maps.allocs.Keys - {address};
    }
  }

  lemma SlabNeverOverwrites(c: Config, g: Ledger, h: Handler)
    requires c.waMissingFree && SlabProgram(h) && g.maps.sizes == map[]
    ensures NoOverwrites(g.lost) ==> NoOverwrites(Handle(c, g, h).lost)
    ensures Handle(c, g, h).lost != g.lost ==>
              |g.maps.allocs| >= ALLOCS_MAX_ENTRIES && |Handle(c, g, h).maps.allocs| >= ALLOCS_MAX_ENTRIES
  {
    KernelHandle(c, g, h);
    if h.SlabAlloc? {
      var freed := Step(c, g, Free(h.ptr));
      FreedAddress(c, g, h.ptr);
      EnterExitPair(c, freed, h.pid, h.size, h.ptr, h.stackId, h.now, h.later);
      FreshAddress(freed, h.ptr, AllocInfo(h.size, h.later, h.stackId));
    }
  }

  /** With the workaround no entry is ever overwritten, whichever frees were missed. */
  lemma {:induction false} WorkaroundNeverOverwrites(c: Config, g: Ledger, hs: seq<Handler>)
    requires c.waMissingFree && g.maps.sizes == map[] && NoOverwrites(g.lost)
    requires forall i :: 0 <= i < |hs| ==> SlabProgram(hs[i])
    ensures NoOverwrites(RunHandlers(c, g, hs).lost)
    decreases |hs|
  {
    if hs == [] {
    } else {
      SlabNeverOverwrites(c, g, hs[0]);
      KernelLeavesNoSize(c, g, hs[0]);
      WorkaroundNeverOverwrites(c, Handle(c, g, hs[0]), hs[1..]);
    }
  }

  // `allocs` has room at every boundary of the run.
  predicate NeverFills(c: Config, g: Ledger, hs: seq<Handler>)
    decreases |hs|
  {
    |g.maps.allocs| < ALLOCS_MAX_ENTRIES && (hs != [] ==> NeverFills(c, Handle(c, g, hs[0]), hs[1..]))
  }

  lemma {:induction false} WorkaroundLosesNothing(c: Config, g: Ledger, hs: seq<Handler>)
    requires c.waMissingFree && g.maps.sizes == map[] && g.lost == []
    requires forall i :: 0 <= i < |hs| ==> SlabProgram(hs[i])
    requires NeverFills(c, g, hs)
    ensures RunHandlers(c, g, hs).lost == []
    decreases |hs|
  {
    if hs == [] {
    } else {
      SlabNeverOverwrites(c, g, hs[0]);
      KernelLeavesNoSize(c, g, hs[0]);
      WorkaroundLosesNothing(c, Handle(c, g, hs[0]), hs[1..]);
    }
  }

  /** As long as `allocs` never fills, the index is exact for every tracked stack. */
  lemma WorkaroundIsExact(c: Config, hs: seq<Handler>, key: U64)
    requires c.waMissingFree
    requires forall i :: 0 <= i < |hs| ==> SlabProgram(hs[i])
    requires NeverFills(c, EMPTY, hs)
    requires key in After(c, hs).maps.combined
    ensures After(c, hs).maps.combined[key] == Live(Word, key, After(c, hs).maps.allocs)
  {
    WorkaroundLosesNothing(c, EMPTY, hs);
    SequentialLedger(c, hs);
    WordNeverWraps(After(c, hs), key);
  }

  /** Without the workaround every accepted allocation at an address whose free was
      missed does overwrite, and the old entry stays in the word of its stack. */
  lemma MissedFreeIsLost(c: Config, hs: seq<Handler>, h: Handler)
    requires !c.waMissingFree && h.SlabAlloc? && h.ptr != 0 && Accepts(c, h.pid, h.size, h.now)
    requires forall i :: 0 <= i < |hs| ==> KernelProgram(hs[i])
    requires h.ptr in After(c, hs).maps.allocs
    ensures After(c, hs + [h]).lost == After(c, hs).lost + [Overwritten(After(c, hs).maps.allocs[h.ptr])]
  {
    NoResidue(c, EMPTY, hs);
    KernelHandle(c, After(c, hs), h);
    EnterExitPair(c, After(c, hs), h.pid, h.size, h.ptr, h.stackId, h.now, h.later);
    HandlersSnoc(c, EMPTY, hs, h);
  }

  /** So an address that is allocated twice with its free missed counts twice: 8 bytes
      are outstanding and 16 are shown, as two allocations. */
  lemma MissedFreeShowsTwice(c: Config, p: Pid)
    requires !c.waMissingFree && Accepts(c, p, 8, 0)
    ensures var h := SlabAlloc(p, 0x1000, 8, 5, 0, 0);
            var g := After(c, [h, h]);
            && Live(Bytes, 5, g.maps.allocs) == 8 && Live(Count, 5, g.maps.allocs) == 1
            && 5 in g.maps.combined
            && Decoded(g.maps.combined[5]).totalSize == 16 && Decoded(g.maps.combined[5]).numberOfAllocs == 2
  {
    TwoSlabs(c, p);
    OneEntry(0x1000, AllocInfo(8, 0, 5));
    DecodedFields(0x200_0000_0010, 16, 2);
  }

  lemma TwoSlabs(c: Config, p: Pid)
    requires !c.waMissingFree && Accepts(c, p, 8, 0)
    ensures var h := SlabAlloc(p, 0x1000, 8, 5, 0, 0);
            var g := After(c, [h, h]);
            g.maps.allocs == map[0x1000 := AllocInfo(8, 0, 5)] && g.maps.combined == map[5 := 0x200_0000_0010]
  {
    var h := SlabAlloc(p, 0x1000, 8, 5, 0, 0);
    HandlersSnoc(c, EMPTY, [], h);
    HandlersSnoc(c, EMPTY, [h], h);
    assert [] + [h] == [h] && [h] + [h] == [h, h];
    FirstSlab(c, p);
    SecondSlab(c, p, Handle(c, EMPTY, h));
  }

  lemma FirstSlab(c: Config, p: Pid)
    requires !c.waMissingFree && Accepts(c, p, 8, 0)
    ensures var g := Handle(c, EMPTY, SlabAlloc(p, 0x1000, 8, 5, 0, 0));
            && g.maps.sizes == map[] && g.maps.allocs == map[0x1000 := AllocInfo(8, 0, 5)]
            && g.maps.combined == map[5 := 0x100_0000_0008]
  {
    SlabRecords(c, EMPTY, SlabAlloc(p, 0x1000, 8, 5, 0, 0));
    AddStatFresh(map[], 5, 8);
    assert Increment(8) == 0x100_0000_0008;
  }

  lemma SecondSlab(c: Config, p: Pid, g: Ledger)
    requires !c.waMissingFree && Accepts(c, p, 8, 0)
    requires g.maps.sizes == map[] && g.maps.allocs == map[0x1000 := AllocInfo(8, 0, 5)]
    requires g.maps.combined == map[5 := 0x100_0000_0008]
    ensures var g' := Handle(c, g, SlabAlloc(p, 0x1000, 8, 5, 0, 0));
            && g'.maps.allocs == map[0x1000 := AllocInfo(8, 0, 5)]
            && g'.maps.combined == map[5 := 0x200_0000_0010]
  {
    SlabRecords(c, g, SlabAlloc(p, 0x1000, 8, 5, 0, 0));
    RecordedAgain(g, 0x1000, AllocInfo(8, 0, 5));
    EightTwice();
  }

  lemma EightTwice()
    ensures AddStat(map[5 := 0x100_0000_0008], 5, 8) == map[5 := 0x200_0000_0010]
  {
    AddStatTracked(map[5 := 0x100_0000_0008], 5, 8);
    assert Increment(8) == 0x100_0000_0008;
  }

  lemma RecordedAgain(g: Ledger, a: U64, info: AllocInfo)
    requires a in g.maps.allocs && g.maps.allocs[a] == info
    ensures var g' := CountAdd(InsertAlloc(g, a, info), info);
            && g'.maps.allocs == g.maps.allocs
            && g'.maps.combined == AddStat(g.maps.combined, StackKey(info.stackId), info.size)
  {
    assert g.maps.allocs[a := info] == g.maps.allocs;
  }

  lemma SlabRecords(c: Config, g: Ledger, h: Handler)
    requires !c.waMissingFree && h.SlabAlloc? && h.ptr != 0 && Accepts(c, h.pid, h.size, h.now) && g.maps.sizes == map[]
    ensures var info := AllocInfo(h.size, h.later, h.stackId);
            Handle(c, g, h) == CountAdd(InsertAlloc(g, h.ptr, info), info) && Handle(c, g, h).maps.sizes == map[]
  {
    KernelHandle(c, g, h);
    EnterExitPair(c, g, h.pid, h.size, h.ptr, h.stackId, h.now, h.later);
  }

  lemma OneEntry(a: U64, info: AllocInfo)
    ensures forall q :: Live(q, KeyOf(info), map[a := info]) == Measure(q, info.size)
  {
    forall q
      ensures Live(q, KeyOf(info), map[a := info]) == Measure(q, info.size)
    {
      SumPut(map[], AtStack(q, KeyOf(info)), a, info);
      assert map[][a := info] == map[a := info];
    }
  }

  lemma {:induction false} HandlersSnoc(c: Config, g: Ledger, hs: seq<Handler>, h: Handler)
    ensures RunHandlers(c, g, hs + [h]) == Handle(c, RunHandlers(c, g, hs), h)
    decreases |hs|
  {
    if hs == [] {
      assert [h][1..] == [] && hs + [h] == [h];
      assert RunHandlers(c, Handle(c, g, h), []) == Handle(c, g, h);
    } else {
      assert (hs + [h])[1..] == hs[1..] + [h];
      HandlersSnoc(c, Handle(c, g, hs[0]), hs[1..], h);
    }
  }
}
