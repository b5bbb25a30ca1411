/** One round of the loop in `Run` of internal/probe/probe.go: select the top stacks,
    drain the heap into descending order, group the allocations by stack. */
module Report {
  import opened Words
  import opened Info
  import opened HeapOrder
  import opened MinHeaps
  import opened Selection

  type Groups = map<U32, seq<AllocRecord>>

  function Decode(entry: (U64, Bits)): Entry {
    GetCombinedAllocInfo(TruncateKey(entry.0), entry.1)
  }

  // The decoded entries with a positive total, in iteration order.
  function Positives(entries: seq<(U64, Bits)>): seq<Entry>
    decreases |entries|
  {
    if entries == [] then []
    else
      var n := |entries| - 1;
      Positives(entries[..n]) + (if Decode(entries[n]).totalSize > 0 then [Decode(entries[n])] else [])
  }

  lemma PositivesSnoc(entries: seq<(U64, Bits)>, i: nat)
    requires i < |entries|
    ensures Positives(entries[..i + 1])
         == Positives(entries[..i]) + (if Decode(entries[i]).totalSize > 0 then [Decode(entries[i])] else [])
  {
    assert entries[..i + 1][..i] == entries[..i];
  }

  // No entry that `x` does not exceed has gone.
  ghost predicate Keeps(before: multiset<Entry>, after: multiset<Entry>, x: Entry) {
    forall y :: y in before && x.totalSize <= y.totalSize ==> after[y] >= before[y]
  }

  method Offer(h: MinHeap, x: Entry, n: nat, ghost offered: multiset<Entry>)
    requires h.Valid() && IsHeap(h.Contents()) && n >= 1
    requires TopN(offered, multiset(h.Contents()), n)
    modifies h, h.data
    ensures h.Valid() && IsHeap(h.Contents()) && (h.data == old(h.data) || fresh(h.data))
    ensures TopN(offered + multiset{x}, multiset(h.Contents()), n)
    // An entry is displaced only by a larger one, so of equal totals the first is kept.
    ensures Keeps(old(multiset(h.Contents())), multiset(h.Contents()), x)
  {
    ghost var kept := multiset(h.Contents());
    assert |kept| == h.len;
    if h.len < n {
      TopNPush(offered, kept, n, x);
      h.Push(x);
    } else {
      RootIsMinimum(h.Contents());
      if x.totalSize > h.data[0].totalSize {
        ghost var least := h.Contents()[0];
        TopNReplace(offered, kept, n, least, x);
        var _ := h.Pop();
        TakenOut(multiset(h.Contents()), least, kept);
        h.Push(x);
      } else {
        TopNSkip(offered, kept, n, h.Contents()[0], x);
      }
    }
  }

  method SelectTop(entries: seq<(U64, Bits)>, n: nat) returns (h: MinHeap)
    requires n >= 1
    ensures fresh(h) && h.Valid() && fresh(h.data) && IsHeap(h.Contents())
    ensures TopN(multiset(Positives(entries)), multiset(h.Contents()), n)
  {
    h := new MinHeap();
    h.Init();
    for i := 0 to |entries|
      invariant h.Valid() && fresh(h.data) && IsHeap(h.Contents())
      invariant TopN(multiset(Positives(entries[..i])), multiset(h.Contents()), n)
    {
      var x := GetCombinedAllocInfo(TruncateKey(entries[i].0), entries[i].1);
      PositivesSnoc(entries, i);
      if x.totalSize > 0 {
        Offer(h, x, n, multiset(Positives(entries[..i])));
      }
    }
    assert entries[..|entries|] == entries;
  }

  // The stacks of the selection.
  function IdsOf(top: seq<Entry>): set<U32> {
    if top == [] then {} else {top[0].stackId} + IdsOf(top[1..])
  }

  // An empty group for each of them.
  function EmptyGroups(top: seq<Entry>): Groups {
    if top == [] then map[] else EmptyGroups(top[1..])[top[0].stackId := []]
  }

  lemma {:induction false} EmptyGroupsAre(top: seq<Entry>)
    ensures EmptyGroups(top).Keys == IdsOf(top)
    ensures forall id :: id in EmptyGroups(top) ==> EmptyGroups(top)[id] == []
  {
    if top == [] {
    } else {
      EmptyGroupsAre(top[1..]);
    }
  }

  lemma {:induction false} IdsMember(s: seq<Entry>, id: U32)
    ensures id in IdsOf(s) <==> exists i :: 0 <= i < |s| && s[i].stackId == id
  {
    if s == [] {
    } else {
      IdsMember(s[1..], id);
      if i :| 0 <= i < |s[1..]| && s[1..][i].stackId == id {
        assert s[i + 1].stackId == id;
      }
      if i :| 0 < i < |s| && s[i].stackId == id {
        assert s[1..][i - 1].stackId == id;
      }
    }
  }

  // The entries of a list, without their order.
  ghost function Bag(s: seq<Entry>): multiset<Entry> {
    if s == [] then multiset{} else multiset{s[0]} + Bag(s[1..])
  }

  lemma {:induction false} BagIsMultiset(s: seq<Entry>)
    ensures Bag(s) == multiset(s)
  {
    if s == [] {
    } else {
      assert s == [s[0]] + s[1..];
      BagIsMultiset(s[1..]);
    }
  }

  // `left` is still in the heap; `done` was taken out, and its stacks have an empty
  // group each.
  ghost predicate Drained(left: multiset<Entry>, done: seq<Entry>, groups: Groups, all: multiset<Entry>) {
    && left + Bag(done) == all
    && Descending(done)
    && NoneBelow(left, done)
    && groups == EmptyGroups(done)
  }

  lemma DrainTurn(before: multiset<Entry>, x: Entry, left: multiset<Entry>, done: seq<Entry>,
                  groups: Groups, all: multiset<Entry>)
    requires Drained(before, done, groups, all)
    requires Least(x, before) && left + multiset{x} == before
    ensures Drained(left, [x] + done, groups[x.stackId := []], all)
  {
    DrainStep(before, x, left, done);
    assert ([x] + done)[1..] == done;
    assert Bag([x] + done) == multiset{x} + Bag(done);
  }

  // Taking the least entry out of the heap, with what is left of it afterwards.
  method TakeOut(h: MinHeap, ghost before: multiset<Entry>) returns (x: Entry, ghost left: multiset<Entry>)
    requires h.Holds(before) && h.len > 0
    modifies h, h.data
    ensures h.Holds(left) && h.data == old(h.data) && h.len == old(h.len) - 1
    ensures Least(x, before) && left + multiset{x} == before
  {
    x := h.Pop();
    left := multiset(h.Contents());
  }

  // `top` holds, from `i` on, the entries taken out so far.
  predicate Filled(top: array<Entry>, i: nat, done: seq<Entry>)
    reads top
  {
    i + |done| == top.Length && forall k :: 0 <= k < |done| ==> top[i + k] == done[k]
  }

  // Placing the entry that was taken out, and giving its stack an empty group.
  method Place(top: array<Entry>, i: nat, x: Entry, groups: Groups,
               ghost before: multiset<Entry>, ghost left: multiset<Entry>, ghost done: seq<Entry>,
               ghost all: multiset<Entry>)
    returns (groups': Groups, ghost done': seq<Entry>)
    requires Filled(top, i + 1, done) && Drained(before, done, groups, all)
    requires Least(x, before) && left + multiset{x} == before
    modifies top
    ensures Filled(top, i, done') && Drained(left, done', groups', all)
  {
    top[i] := x;
    groups' := groups[x.stackId := []];
    done' := [x] + done;
    DrainTurn(before, x, left, done, groups, all);
    FilledInFront(top, i, x, done);
  }

  lemma FilledInFront(top: array<Entry>, i: nat, x: Entry, done: seq<Entry>)
    requires Filled(top, i + 1, done) && top[i] == x
    ensures Filled(top, i, [x] + done)
  {
    forall k | 0 <= k < |done| + 1
      ensures top[i + k] == ([x] + done)[k]
    {
      if k > 0 {
        assert top[i + 1 + (k - 1)] == done[k - 1];
      }
    }
  }

  lemma DrainEnds(top: array<Entry>, left: multiset<Entry>, done: seq<Entry>, groups: Groups, all: multiset<Entry>)
    requires Filled(top, 0, done) && Drained(left, done, groups, all) && left == multiset{}
    ensures multiset(top[..]) == all && Descending(top[..]) && groups == EmptyGroups(top[..])
  {
    forall k | 0 <= k < |done|
      ensures top[k] == done[k]
    {
      assert top[0 + k] == done[k];
    }
    assert top[..] == done;
    BagIsMultiset(done);
  }

  // One turn of the draining loop.
  method TakeAndPlace(h: MinHeap, top: array<Entry>, i: nat, groups: Groups,
                      ghost before: multiset<Entry>, ghost done: seq<Entry>, ghost all: multiset<Entry>)
    returns (groups': Groups, ghost left: multiset<Entry>, ghost done': seq<Entry>)
    requires h.Holds(before) && h.len == i + 1 && top != h.data
    requires Filled(top, i + 1, done) && Drained(before, done, groups, all)
    modifies h, h.data, top
    ensures h.Holds(left) && h.len == i && h.data == old(h.data)
    ensures Filled(top, i, done') && Drained(left, done', groups', all)
  {
    var x;
    x, left := TakeOut(h, before);
    groups', done' := Place(top, i, x, groups, before, left, done, all);
  }

  method Drain(h: MinHeap) returns (top: array<Entry>, groups: Groups)
    requires h.Valid() && IsHeap(h.Contents())
    modifies h, h.data
    ensures fresh(top) && multiset(top[..]) == old(multiset(h.Contents()))
    ensures Descending(top[..]) && groups == EmptyGroups(top[..])
  {
    ghost var all := multiset(h.Contents());
    ghost var left, done: seq<Entry> := all, [];
    top := new Entry[h.len];
    groups := map[];
    var i := top.Length;
    while i > 0
      invariant 0 <= i <= top.Length && h.len == i && h.data == old(h.data)
      invariant h.Holds(left) && Filled(top, i, done)
      invariant Drained(left, done, groups, all)
    {
      i := i - 1;
      groups, left, done := TakeAndPlace(h, top, i, groups, left, done, all);
    }
    DrainEnds(top, left, done, groups, all);
  }

  // The records of one stack, in iteration order.
  function RecordsOf(entries: seq<(U64, AllocInfoRaw)>, id: U32): seq<AllocRecord>
    decreases |entries|
  {
    if entries == [] then []
    else
      var n := |entries| - 1;
      RecordsOf(entries[..n], id)
      + (if entries[n].1.stackId == id then [GetAllocInfo(entries[n].0, entries[n].1)] else [])
  }

  method Group(entries: seq<(U64, AllocInfoRaw)>, groups: Groups) returns (grouped: Groups)
    requires forall id :: id in groups ==> groups[id] == []
    ensures grouped.Keys == groups.Keys
    ensures forall id :: id in grouped ==> grouped[id] == RecordsOf(entries, id)
  {
    grouped := groups;
    for i := 0 to |entries|
      invariant grouped.Keys == groups.Keys
      invariant forall id :: id in grouped ==> grouped[id] == RecordsOf(entries[..i], id)
    {
      var (address, raw) := entries[i];
      assert entries[..i + 1][..i] == entries[..i];
      if raw.stackId in grouped {
        grouped := grouped[raw.stackId := grouped[raw.stackId] + [GetAllocInfo(address, raw)]];
      }
    }
    assert entries[..|entries|] == entries;
  }

  // What a round reports: the top stacks in descending order, each with its records.
  ghost predicate Reports(
    combined: seq<(U64, Bits)>, allocs: seq<(U64, AllocInfoRaw)>, n: nat, top: seq<Entry>, groups: Groups)
  {
    && TopN(multiset(Positives(combined)), multiset(top), n)
    && Descending(top)
    && groups.Keys == IdsOf(top)
    && forall id :: id in groups ==> groups[id] == RecordsOf(allocs, id)
  }

  method Read(combined: seq<(U64, Bits)>, allocs: seq<(U64, AllocInfoRaw)>, n: nat)
    returns (top: array<Entry>, groups: Groups)
    requires n >= 1
    ensures fresh(top) && Reports(combined, allocs, n, top[..], groups)
  {
    var h := SelectTop(combined, n);
    top, groups := Drain(h);
    EmptyGroupsAre(top[..]);
    groups := Group(allocs, groups);
  }
}
