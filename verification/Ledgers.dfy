/** The index at rest: what `combined_allocs` says when no program is in flight. */
module Ledgers {
  import opened Words
  import opened Accounting
  import opened Totals
  import opened Sums
  import opened Interleaving
  import opened Conservation
  import opened Exclusion
  import opened Simulation
  import Info

  function After(c: Config, hs: seq<Handler>): Ledger {
    RunHandlers(c, EMPTY, hs)
  }

  // Every tracked word is the sum of its live and lost entries, modulo 2^64, and
  // an entry of an untracked stack exists only once the index is full for good.
  ghost predicate Indexed(g: Ledger) {
    && WithinLimits(g.maps)
    && (forall key: U64 :: key in g.maps.combined ==> g.maps.combined[key] == Wrap64(Recorded(g, key)))
    && (forall a :: a in g.maps.allocs ==> Known(g.maps, KeyOf(g.maps.allocs[a])))
    && (forall i :: 0 <= i < |g.lost| ==> Known(g.maps, KeyOf(g.lost[i].info)))
  }

  // A stack counts in the word exactly when it has a live or a lost entry.
  lemma EntryWeighs(g: Ledger, key: U64)
    ensures Recorded(g, key) >= 0
    ensures (exists a :: a in g.maps.allocs && KeyOf(g.maps.allocs[a]) == key) ==> Recorded(g, key) > 0
    ensures (exists i :: 0 <= i < |g.lost| && KeyOf(g.lost[i].info) == key) ==> Recorded(g, key) > 0
  {
    LiveNonNegative(Word, key, g.maps.allocs);
    LostNonNegative(Word, key, g.lost);
  }

  // No program in flight is about to change the word of the stack.
  predicate NonePending(x: System, key: U64) {
    forall c :: c in x.cpus && (PendingAdd(x.cpus[c]) || PendingSub(x.cpus[c])) ==> KeyOf(x.cpus[c].info) != key
  }

  lemma NonePendingOwed(x: System, key: U64)
    requires NonePending(x, key)
    ensures Owed(x, key) == Recorded(x.g, key)
  {
    SumZero(x.cpus, DebtOf(key));
  }

  // A tracked word is the sum of the live and lost entries of its stack, modulo 2^64.
  ghost predicate IndexedAt(g: Ledger, key: U64) {
    key in g.maps.combined ==> g.maps.combined[key] == Wrap64(Recorded(g, key))
  }

  /** Where nothing is pending the index equals the sum, whatever the rest is doing. */
  lemma SettledStack(x: System, key: U64)
    requires Balanced(x, key) && NonePending(x, key)
    ensures IndexedAt(x.g, key)
    ensures Recorded(x.g, key) > 0 ==> Known(x.g.maps, key)
  {
    NonePendingOwed(x, key);
  }

  /** With nothing in flight the whole index equals the sum. */
  lemma AtRest(x: System)
    requires Sound(x) && AllBalanced(x) && x.cpus == map[]
    ensures Indexed(x.g)
  {
    forall key: U64
      ensures IndexedAt(x.g, key)
      ensures Recorded(x.g, key) > 0 ==> Known(x.g.maps, key)
    {
      assert Balanced(x, key);
      SettledStack(x, key);
    }
    forall a | a in x.g.maps.allocs
      ensures Known(x.g.maps, KeyOf(x.g.maps.allocs[a]))
    {
      EntryWeighs(x.g, KeyOf(x.g.maps.allocs[a]));
    }
    forall i | 0 <= i < |x.g.lost|
      ensures Known(x.g.maps, KeyOf(x.g.lost[i].info))
    {
      EntryWeighs(x.g, KeyOf(x.g.lost[i].info));
    }
  }

  /** Any clean interleaving, hence any exclusive one, that has come to rest. */
  lemma ConcurrentLedger(c: Config, acts: seq<Action>)
    requires CleanRun(c, START, acts)
    requires Interleave(c, START, acts).cpus == map[]
    ensures Indexed(Interleave(c, START, acts).g)
  {
    CleanRunBalances(c, acts);
    AtRest(Interleave(c, START, acts));
  }

  lemma QuietIndexed(g: Ledger)
    requires Inv(Quiet(g))
    ensures Indexed(g)
  {
    InvIsSound(Quiet(g));
    AtRest(Quiet(g));
  }

  /** Any sequential run of operations. */
  lemma OperationLedger(c: Config, ops: seq<Op>)
    ensures Indexed(Run(c, EMPTY, ops))
  {
    StartInv();
    assert START == Quiet(EMPTY);
    RunInv(c, EMPTY, ops);
    QuietIndexed(Run(c, EMPTY, ops));
  }

  /** Any sequential run of whole handlers: no assumption on frees, overwrites or full maps. */
  lemma SequentialLedger(c: Config, hs: seq<Handler>)
    ensures Indexed(After(c, hs))
  {
    OperationLedger(c, Flatten(c, hs));
    RunHandlersIsRun(c, EMPTY, hs);
  }

  // ---------- saturation and loss over time ----------

  // Losses are never forgotten and keys never disappear; a full index admits no key.
  predicate Extends(g: Ledger, g': Ledger) {
    && g.lost <= g'.lost
    && g.maps.combined.Keys <= g'.maps.combined.Keys
    && (|g.maps.combined| >= COMBINED_ALLOCS_MAX_ENTRIES ==> g'.maps.combined.Keys == g.maps.combined.Keys)
  }

  lemma NextExtends(g: Ledger, pc: Pc)
    ensures Extends(g, Next(g, pc).0)
  {}

  lemma ExtendsTransitive(a: Ledger, b: Ledger, d: Ledger)
    requires Extends(a, b) && Extends(b, d)
    ensures Extends(a, d)
  {
    assert |a.maps.combined| == |a.maps.combined.Keys| && |b.maps.combined| == |b.maps.combined.Keys|;
  }

  /** However programs interleave, and whatever they work on. */
  lemma {:induction false} InterleaveExtends(c: Config, x: System, acts: seq<Action>)
    ensures Extends(x.g, Interleave(c, x, acts).g)
    decreases |acts|
  {
    if acts == [] {
    } else {
      var y := Do(c, x, acts[0]);
      if acts[0].Advance? && acts[0].cpu in x.cpus {
        NextExtends(x.g, x.cpus[acts[0].cpu]);
      }
      InterleaveExtends(c, y, acts[1..]);
      ExtendsTransitive(x.g, y.g, Interleave(c, x, acts).g);
    }
  }

  lemma RunExtends(c: Config, g: Ledger, ops: seq<Op>)
    ensures Extends(g, Run(c, g, ops))
  {
    RunIsInterleaving(c, g, ops);
    var acts :| ExclusiveRun(c, Quiet(g), acts) && Interleave(c, Quiet(g), acts) == Quiet(Run(c, g, ops));
    InterleaveExtends(c, Quiet(g), acts);
  }

  // An entry of a stack that the index does not track.
  predicate Uncounted(g: Ledger, key: U64) {
    && key !in g.maps.combined
    && ((exists a :: a in g.maps.allocs && KeyOf(g.maps.allocs[a]) == key)
        || (exists i :: 0 <= i < |g.lost| && KeyOf(g.lost[i].info) == key))
  }

  /** A stack with an entry, live or lost, that the index does not track and that no
      program is about to count is never tracked again, whatever follows; so its
      entries are never subtracted from any word. */
  lemma RefusedForGood(c: Config, acts: seq<Action>, later: seq<Action>, key: U64)
    requires CleanRun(c, START, acts)
    requires Uncounted(Interleave(c, START, acts).g, key) && NonePending(Interleave(c, START, acts), key)
    ensures key !in Interleave(c, START, acts + later).g.maps.combined
  {
    var x := Interleave(c, START, acts);
    CleanRunBalances(c, acts);
    assert Balanced(x, key);
    EntryWeighs(x.g, key);
    SettledStack(x, key);
    InterleaveConcat(c, START, acts, later);
    InterleaveExtends(c, x, later);
  }

  /** The same for whole operations in a row. */
  lemma RefusedInSequence(c: Config, ops: seq<Op>, later: seq<Op>, key: U64)
    requires Uncounted(Run(c, EMPTY, ops), key)
    ensures key !in Run(c, EMPTY, ops + later).maps.combined
  {
    OperationLedger(c, ops);
    RunConcat(c, EMPTY, ops, later);
    RunExtends(c, Run(c, EMPTY, ops), later);
  }

  /** When a stack becomes tracked, all that is recorded of it is what the programs in
      flight are still to add, less what they are still to subtract. */
  lemma FreshStackIsClean(c: Config, acts: seq<Action>, act: Action, key: U64)
    requires CleanRun(c, START, acts)
    requires key !in Interleave(c, START, acts).g.maps.combined
    requires key in Do(c, Interleave(c, START, acts), act).g.maps.combined
    ensures var x := Interleave(c, START, acts);
            Recorded(x.g, key) == Sum(x.cpus, AddsOf(key)) - Sum(x.cpus, SubsOf(key))
  {
    var x := Interleave(c, START, acts);
    CleanRunBalances(c, acts);
    assert Balanced(x, key);
    OwedIsExpected(x, key);
    if act.Advance? && act.cpu in x.cpus {
      NextExtends(x.g, x.cpus[act.cpu]);
    }
  }

  /** In a sequential run it had nothing outstanding, and nothing lost, before. */
  lemma FreshInSequence(c: Config, ops: seq<Op>, op: Op, key: U64)
    requires key !in Run(c, EMPTY, ops).maps.combined
    requires key in Step(c, Run(c, EMPTY, ops), op).maps.combined
    ensures Live(Count, key, Run(c, EMPTY, ops).maps.allocs) == 0
    ensures Lost(Count, key, Run(c, EMPTY, ops).lost) == 0
  {
    var g := Run(c, EMPTY, ops);
    OperationLedger(c, ops);
    RunOne(c, g, op);
    RunExtends(c, g, [op]);
    assert !Known(g.maps, key);
    SumZero(g.maps.allocs, AtStack(Count, key));
    LostNothing(g.lost, key);
  }

  lemma {:induction false} LostNothing(lost: seq<Loss>, key: U64)
    requires forall i :: 0 <= i < |lost| ==> KeyOf(lost[i].info) != key
    ensures Lost(Count, key, lost) == 0
    decreases |lost|
  {
    if lost == [] {
    } else {
      LostNothing(lost[..|lost| - 1], key);
    }
  }

  // ---------- what the packed word means ----------

  function Decoded(word: U64): Info.CombinedAllocInfo {
    Info.GetCombinedAllocInfo(0, Info.LittleEndian(word))
  }

  // Two packed fields that overflow: the low one carries into the high one, which wraps.
  lemma WrapPacked(low: nat, count: nat)
    ensures Wrap64(low + 0x100_0000_0000 * count)
         == low % 0x100_0000_0000 + 0x100_0000_0000 * ((count + low / 0x100_0000_0000) % 0x100_0000)
  {
    var sum := count + low / 0x100_0000_0000;
    var field := low % 0x100_0000_0000 + 0x100_0000_0000 * (sum % 0x100_0000);
    assert low + 0x100_0000_0000 * count == field + 0x1_0000_0000_0000_0000 * (sum / 0x100_0000);
  }

  lemma DecodedFields(word: U64, low: nat, count: nat)
    requires low < 0x100_0000_0000 && count < 0x100_0000 && word == low + 0x100_0000_0000 * count
    ensures Decoded(word).totalSize == low && Decoded(word).numberOfAllocs == count
  {
    Info.DecodeWord(0, word);
    Info.SplitWord(low, count);
  }

  lemma DecodedSum(word: U64, low: nat, count: nat)
    requires word == Wrap64(low + 0x100_0000_0000 * count)
    ensures Decoded(word).totalSize == low % 0x100_0000_0000
    ensures Decoded(word).numberOfAllocs == (count + low / 0x100_0000_0000) % 0x100_0000
  {
    WrapPacked(low, count);
    DecodedFields(word, low % 0x100_0000_0000, (count + low / 0x100_0000_0000) % 0x100_0000);
  }

  lemma FieldsFit(low: nat, count: nat)
    ensures low % 0x100_0000_0000 == low && (count + low / 0x100_0000_0000) % 0x100_0000 == count
       <==> low < 0x100_0000_0000 && count < 0x100_0000
  {}

  // Everything recorded for a stack, in one quantity.
  ghost function Total(q: Quantity, key: U64, g: Ledger): int {
    Live(q, key, g.maps.allocs) + Lost(q, key, g.lost)
  }

  lemma TotalAtLeastLive(q: Quantity, key: U64, g: Ledger)
    ensures 0 <= Live(q, key, g.maps.allocs) <= Total(q, key, g)
  {
    LiveNonNegative(q, key, g.maps.allocs);
    LostNonNegative(q, key, g.lost);
  }

  lemma RecordedSplits(key: U64, g: Ledger)
    ensures Recorded(g, key) == Total(LowBytes, key, g) + 0x100_0000_0000 * Total(Count, key, g)
  {
    LiveWordSplits(key, g.maps.allocs);
    LostWordSplits(key, g.lost);
  }

  /** The decoder shows the recorded bytes modulo 2^40 and the recorded count, with
      their carry, modulo 2^24; both fields are what was recorded exactly when
      neither overflows. */
  lemma FieldsExact(g: Ledger, key: U64)
    requires IndexedAt(g, key) && key in g.maps.combined
    ensures var d := Decoded(g.maps.combined[key]);
            var low, count := Total(LowBytes, key, g), Total(Count, key, g);
            && d.totalSize == low % 0x100_0000_0000
            && d.numberOfAllocs == (count + low / 0x100_0000_0000) % 0x100_0000
            && (d.totalSize == low && d.numberOfAllocs == count <==> low < 0x100_0000_0000 && count < 0x100_0000)
  {
    TotalAtLeastLive(LowBytes, key, g);
    TotalAtLeastLive(Count, key, g);
    var low, count := Total(LowBytes, key, g), Total(Count, key, g);
    RecordedSplits(key, g);
    DecodedSum(g.maps.combined[key], low, count);
    FieldsFit(low, count);
  }

  /** While neither field overflows, losses can only over-count: the decoded fields
      are the live amounts plus what was lost. */
  lemma LossOverCounts(g: Ledger, key: U64)
    requires IndexedAt(g, key) && key in g.maps.combined
    requires Total(LowBytes, key, g) < 0x100_0000_0000 && Total(Count, key, g) < 0x100_0000
    ensures var d := Decoded(g.maps.combined[key]);
            && d.totalSize == Total(LowBytes, key, g) >= Live(LowBytes, key, g.maps.allocs)
            && d.numberOfAllocs == Total(Count, key, g) >= Live(Count, key, g.maps.allocs)
  {
    FieldsExact(g, key);
    TotalAtLeastLive(LowBytes, key, g);
    TotalAtLeastLive(Count, key, g);
  }

  lemma MeasureBound(q: Quantity, key: U64, allocs: Allocs, bound: nat)
    requires |allocs| <= ALLOCS_MAX_ENTRIES
    requires forall a :: a in allocs ==> Measure(q, allocs[a].size) <= bound
    ensures Live(q, key, allocs) <= bound * ALLOCS_MAX_ENTRIES
  {
    SumBound(allocs, AtStack(q, key), bound);
    Scale(bound, |allocs|, ALLOCS_MAX_ENTRIES);
  }

  lemma IncrementBound(size: U64)
    ensures 0x100_0000_0000 <= Increment(size) <= 0x1FF_FFFF_FFFF
  {}

  lemma WordBound(key: U64, allocs: Allocs)
    requires |allocs| <= ALLOCS_MAX_ENTRIES
    ensures 0 <= Live(Word, key, allocs) < 0x2000_0000_0000_0000
  {
    LiveNonNegative(Word, key, allocs);
    forall a | a in allocs
      ensures Measure(Word, allocs[a].size) <= 0x1FF_FFFF_FFFF
    {
      IncrementBound(allocs[a].size);
    }
    MeasureBound(Word, key, allocs, 0x1FF_FFFF_FFFF);
  }

  lemma SmallDoesNotWrap(x: int)
    requires 0 <= x < 0x1_0000_0000_0000_0000
    ensures Wrap64(x) == x
  {}

  // The words of n losses lie between 2^40 n and 2^41 n.
  lemma {:induction false} LostWordBounds(key: U64, lost: seq<Loss>)
    ensures 0 <= 0x100_0000_0000 * Lost(Count, key, lost) <= Lost(Word, key, lost)
         <= 0x1FF_FFFF_FFFF * Lost(Count, key, lost)
    decreases |lost|
  {
    if lost == [] {
    } else {
      LostWordBounds(key, lost[..|lost| - 1]);
      IncrementBound(lost[|lost| - 1].info.size);
    }
  }

  lemma WordIsLive(g: Ledger, key: U64)
    requires WithinLimits(g.maps) && IndexedAt(g, key) && key in g.maps.combined && Lost(Count, key, g.lost) == 0
    ensures g.maps.combined[key] == Live(Word, key, g.maps.allocs) < 0x2000_0000_0000_0000
  {
    LostWordBounds(key, g.lost);
    WordBound(key, g.maps.allocs);
    SmallDoesNotWrap(Live(Word, key, g.maps.allocs));
  }

  lemma FewLive(key: U64, allocs: Allocs)
    requires |allocs| <= ALLOCS_MAX_ENTRIES
    ensures 0 <= Live(Count, key, allocs) <= ALLOCS_MAX_ENTRIES
  {
    LiveNonNegative(Count, key, allocs);
    MeasureBound(Count, key, allocs, 1);
  }

  /** With nothing lost at a stack its word never wraps: it is the exact sum, below 2^61. */
  lemma WordNeverWraps(g: Ledger, key: U64)
    requires WithinLimits(g.maps) && IndexedAt(g, key) && key in g.maps.combined && Lost(Count, key, g.lost) == 0
    ensures g.maps.combined[key] == Live(Word, key, g.maps.allocs) < 0x2000_0000_0000_0000
    ensures g.maps.combined[key]
         == Live(LowBytes, key, g.maps.allocs) + 0x100_0000_0000 * Live(Count, key, g.maps.allocs)
    ensures Live(Count, key, g.maps.allocs) <= ALLOCS_MAX_ENTRIES
  {
    WordIsLive(g, key);
    LiveWordSplits(key, g.maps.allocs);
    FewLive(key, g.maps.allocs);
  }

  // Truncating each size to 40 bits loses nothing when their sum fits.
  lemma LowIsBytes(key: U64, allocs: Allocs)
    ensures Live(LowBytes, key, allocs) <= Live(Bytes, key, allocs)
    ensures Live(Bytes, key, allocs) < 0x100_0000_0000 ==> Live(LowBytes, key, allocs) == Live(Bytes, key, allocs)
  {
    var excess := (info: AllocInfo) => Share(Bytes, key, info) - Share(LowBytes, key, info);
    forall a | a in allocs
      ensures AtStack(Bytes, key)(allocs[a]) == AtStack(LowBytes, key)(allocs[a]) + 1 * excess(allocs[a])
      ensures excess(allocs[a]) >= 0
    {}
    SumLinear(allocs, AtStack(Bytes, key), AtStack(LowBytes, key), excess, 1);
    SumNonNegative(allocs, excess);
    if Live(Bytes, key, allocs) < 0x100_0000_0000 {
      LiveNonNegative(Bytes, key, allocs);
      forall a | a in allocs
        ensures excess(allocs[a]) == 0
      {
        assert AtStack(Bytes, key)(allocs[a]) < 0x100_0000_0000;
      }
      SumZero(allocs, excess);
    }
  }

  lemma LowShift(bytes: nat, extra: nat)
    requires bytes < 0x100_0000_0000
    ensures (bytes + extra) % 0x100_0000_0000 == bytes <==> extra % 0x100_0000_0000 == 0
    ensures extra % 0x100_0000_0000 == 0 ==> (bytes + extra) / 0x100_0000_0000 == extra / 0x100_0000_0000
  {}

  lemma CountShift(number: nat, count: nat, lost: nat, bytes: nat, extra: nat)
    requires count < 0x100_0000 && bytes < 0x100_0000_0000 && extra % 0x100_0000_0000 == 0
    requires number == (count + lost + (bytes + extra) / 0x100_0000_0000) % 0x100_0000
    ensures number == count
       <==> (lost + extra / 0x100_0000_0000) % 0x100_0000 == 0
  {
    LowShift(bytes, extra);
    CarryShift(count, lost + extra / 0x100_0000_0000);
  }

  lemma CarryShift(count: nat, extra: nat)
    requires count < 0x100_0000
    ensures (count + extra) % 0x100_0000 == count <==> extra % 0x100_0000 == 0
  {}

  // The losses of the stack leave its byte field as it would be without them.
  predicate LossesHidden(key: U64, lost: seq<Loss>) {
    Lost(LowBytes, key, lost) % 0x100_0000_0000 == 0
  }

  /** The reported bytes of a stack are its outstanding bytes if and only if these are
      below 2^40 and the bytes lost there are a multiple of 2^40, whatever the word
      went through before. */
  lemma TotalExact(g: Ledger, key: U64)
    requires IndexedAt(g, key) && key in g.maps.combined
    ensures Decoded(g.maps.combined[key]).totalSize == Live(Bytes, key, g.maps.allocs)
       <==> Live(Bytes, key, g.maps.allocs) < 0x100_0000_0000 && LossesHidden(key, g.lost)
  {
    FieldsExact(g, key);
    LowIsBytes(key, g.maps.allocs);
    LiveNonNegative(LowBytes, key, g.maps.allocs);
    LostNonNegative(LowBytes, key, g.lost);
    if Live(Bytes, key, g.maps.allocs) < 0x100_0000_0000 {
      LowShift(Live(LowBytes, key, g.maps.allocs), Lost(LowBytes, key, g.lost));
    }
  }

  // Whether losses have carried into the number, once the bytes are exact.
  function Carried(key: U64, lost: seq<Loss>): int {
    (Lost(Count, key, lost) + Lost(LowBytes, key, lost) / 0x100_0000_0000) % 0x100_0000
  }

  lemma LostParts(key: U64, lost: seq<Loss>) returns (count: nat, extra: nat)
    ensures count == Lost(Count, key, lost) && extra == Lost(LowBytes, key, lost)
    ensures LossesHidden(key, lost) <==> extra % 0x100_0000_0000 == 0
    ensures Carried(key, lost) == (count + extra / 0x100_0000_0000) % 0x100_0000
  {
    LostNonNegative(LowBytes, key, lost);
    LostNonNegative(Count, key, lost);
    count, extra := Lost(Count, key, lost), Lost(LowBytes, key, lost);
  }

  lemma LiveParts(key: U64, allocs: Allocs) returns (count: nat, bytes: nat)
    requires |allocs| <= ALLOCS_MAX_ENTRIES
    ensures count == Live(Count, key, allocs) < 0x100_0000
    ensures bytes == Live(LowBytes, key, allocs) <= Live(Bytes, key, allocs)
  {
    FewLive(key, allocs);
    LowIsBytes(key, allocs);
    LiveNonNegative(LowBytes, key, allocs);
    count, bytes := Live(Count, key, allocs), Live(LowBytes, key, allocs);
  }

  lemma LostWordVanishes(key: U64, lost: seq<Loss>)
    ensures Wrap64(Lost(Word, key, lost)) == 0 <==> LossesHidden(key, lost) && Carried(key, lost) == 0
  {
    var count, extra := LostParts(key, lost);
    LostWordSplits(key, lost);
    WrapPacked(extra, count);
  }

  // Once the bytes are exact, the number is too unless losses have carried into it.
  lemma NumberExact(g: Ledger, key: U64, number: nat)
    requires |g.maps.allocs| <= ALLOCS_MAX_ENTRIES
    requires number == (Total(Count, key, g) + Total(LowBytes, key, g) / 0x100_0000_0000) % 0x100_0000
    requires Live(Bytes, key, g.maps.allocs) < 0x100_0000_0000 && LossesHidden(key, g.lost)
    ensures number == Live(Count, key, g.maps.allocs) <==> Carried(key, g.lost) == 0
  {
    var count, bytes := LiveParts(key, g.maps.allocs);
    var lost, extra := LostParts(key, g.lost);
    CountShift(number, count, lost, bytes, extra);
  }

  // What the word of a stack shows is what is outstanding there.
  ghost predicate Exact(g: Ledger, key: U64)
    requires key in g.maps.combined
  {
    var d := Decoded(g.maps.combined[key]);
    d.totalSize == Live(Bytes, key, g.maps.allocs) && d.numberOfAllocs == Live(Count, key, g.maps.allocs)
  }

  /** Both fields are exact if and only if less than 2^40 bytes are outstanding and the
      words of the losses at the stack add up to nothing, modulo 2^64. */
  lemma BothExact(g: Ledger, key: U64)
    requires WithinLimits(g.maps) && IndexedAt(g, key) && key in g.maps.combined
    ensures Exact(g, key) <==> Live(Bytes, key, g.maps.allocs) < 0x100_0000_0000 && Wrap64(Lost(Word, key, g.lost)) == 0
  {
    TotalExact(g, key);
    FieldsExact(g, key);
    LostWordVanishes(key, g.lost);
    if Live(Bytes, key, g.maps.allocs) < 0x100_0000_0000 && LossesHidden(key, g.lost) {
      NumberExact(g, key, Decoded(g.maps.combined[key]).numberOfAllocs);
    }
  }

  /** In particular, where nothing was lost, they are exact if and only if less than
      2^40 bytes are outstanding, and so is the byte field alone. */
  lemma ExactWithoutLosses(g: Ledger, key: U64)
    requires WithinLimits(g.maps) && IndexedAt(g, key) && key in g.maps.combined && Lost(Count, key, g.lost) == 0
    ensures Exact(g, key) <==> Live(Bytes, key, g.maps.allocs) < 0x100_0000_0000
    ensures Exact(g, key) <==> Decoded(g.maps.combined[key]).totalSize == Live(Bytes, key, g.maps.allocs)
  {
    NothingLost(key, g.lost);
    TotalExact(g, key);
    BothExact(g, key);
  }

  lemma NothingLost(key: U64, lost: seq<Loss>)
    requires Lost(Count, key, lost) == 0
    ensures LossesHidden(key, lost) && Wrap64(Lost(Word, key, lost)) == 0
  {
    LostWordBounds(key, lost);
    LostWordSplits(key, lost);
    SmallDoesNotWrap(0);
  }

  /** Fewer than 2^23 losses cannot cancel out: then the fields are exact if and only
      if less than 2^40 bytes are outstanding and nothing was lost at the stack. */
  lemma ExactUnlessLost(g: Ledger, key: U64)
    requires WithinLimits(g.maps) && IndexedAt(g, key) && key in g.maps.combined
    requires Lost(Count, key, g.lost) < 0x80_0000
    ensures Exact(g, key) <==> Live(Bytes, key, g.maps.allocs) < 0x100_0000_0000 && Lost(Count, key, g.lost) == 0
  {
    BothExact(g, key);
    LostWordBounds(key, g.lost);
    SmallDoesNotWrap(Lost(Word, key, g.lost));
  }

  // ---------- balanced runs ----------

  // Operation `i` gives the address an entry that it did not have.
  predicate RecordsAt(c: Config, ops: seq<Op>, i: nat, a: U64)
    requires i < |ops|
  {
    a !in StateAt(c, EMPTY, ops, i).maps.allocs && a in StateAt(c, EMPTY, ops, i + 1).maps.allocs
  }

  predicate FreedWithin(ops: seq<Op>, a: U64, from: nat, to: nat)
    requires to <= |ops|
  {
    exists j :: from < j < to && ops[j] == Free(a)
  }

  lemma FreeRemoves(c: Config, g: Ledger, a: U64)
    ensures a !in Step(c, g, Free(a)).maps.allocs
  {}

  lemma FreedWithinStep(ops: seq<Op>, a: U64, from: nat, n: nat)
    requires from < n < |ops| && ops[n] != Free(a) && !FreedWithin(ops, a, from, n)
    ensures !FreedWithin(ops, a, from, n + 1)
  {}

  // A live entry was recorded by some operation, and its address not freed since.
  lemma {:induction false} LiveWasRecorded(c: Config, ops: seq<Op>, n: nat, a: U64)
    requires n <= |ops| && a in StateAt(c, EMPTY, ops, n).maps.allocs
    ensures exists i :: 0 <= i < n && RecordsAt(c, ops, i, a) && !FreedWithin(ops, a, i, n)
    decreases n
  {
    if a in StateAt(c, EMPTY, ops, n - 1).maps.allocs {
      LiveWasRecorded(c, ops, n - 1, a);
      var i :| 0 <= i < n - 1 && RecordsAt(c, ops, i, a) && !FreedWithin(ops, a, i, n - 1);
      FreeRemoves(c, StateAt(c, EMPTY, ops, n - 1), a);
      FreedWithinStep(ops, a, i, n - 1);
    } else {
      assert RecordsAt(c, ops, n - 1, a) && !FreedWithin(ops, a, n - 1, n);
    }
  }

  /** If every recorded address is freed later, nothing is outstanding, and every packed
      word holds its losses alone: exactly 0 for a stack that lost nothing, whatever
      carries happened on the way. */
  lemma BalancedRunEndsAtZero(c: Config, ops: seq<Op>, key: U64)
    requires forall i, a: U64 :: 0 <= i < |ops| && RecordsAt(c, ops, i, a) ==> FreedWithin(ops, a, i, |ops|)
    ensures var g := Run(c, EMPTY, ops);
            && g.maps.allocs == map[]
            && (key in g.maps.combined ==> g.maps.combined[key] == Wrap64(Lost(Word, key, g.lost)))
            && (key in g.maps.combined && Lost(Count, key, g.lost) == 0 ==> g.maps.combined[key] == 0)
  {
    var g := Run(c, EMPTY, ops);
    StateAtIsRun(c, EMPTY, ops, |ops|);
    assert ops[..|ops|] == ops;
    if a :| a in g.maps.allocs {
      LiveWasRecorded(c, ops, |ops|, a);
      assert false;
    }
    OperationLedger(c, ops);
    if key in g.maps.combined {
      OnlyLosses(g, key);
    }
  }

  /** The same for any clean interleaving that comes to rest with nothing outstanding. */
  lemma EmptyAtRest(c: Config, acts: seq<Action>, key: U64)
    requires CleanRun(c, START, acts)
    requires Interleave(c, START, acts).cpus == map[] && Interleave(c, START, acts).g.maps.allocs == map[]
    requires key in Interleave(c, START, acts).g.maps.combined
    ensures var g := Interleave(c, START, acts).g;
            && g.maps.combined[key] == Wrap64(Lost(Word, key, g.lost))
            && (Lost(Count, key, g.lost) == 0 ==> g.maps.combined[key] == 0)
  {
    ConcurrentLedger(c, acts);
    OnlyLosses(Interleave(c, START, acts).g, key);
  }

  lemma OnlyLosses(g: Ledger, key: U64)
    requires IndexedAt(g, key) && key in g.maps.combined && g.maps.allocs == map[]
    ensures g.maps.combined[key] == Wrap64(Lost(Word, key, g.lost))
    ensures Lost(Count, key, g.lost) == 0 ==> g.maps.combined[key] == 0
  {
    LostWordBounds(key, g.lost);
  }
}
