/** The report against the outstanding allocations: both components joined. */
module EndToEnd {
  import opened Words
  import opened Accounting
  import opened Totals
  import opened Sums
  import opened Info
  import opened HeapOrder
  import opened Selection
  import opened Report
  import opened Conservation
  import opened Interleaving
  import opened Ledgers

  // An iteration over a map that stays the same meanwhile: every entry once, in any order.
  ghost predicate Lists<V>(entries: seq<(U64, V)>, m: map<U64, V>) {
    && (forall i, j :: 0 <= i < j < |entries| ==> entries[i].0 != entries[j].0)
    && (forall i :: 0 <= i < |entries| ==> entries[i].0 in m && m[entries[i].0] == entries[i].1)
    && (forall k :: k in m ==> exists i :: 0 <= i < |entries| && entries[i].0 == k)
  }

  function IndexBytes(combined: map<U64, U64>): map<U64, Bits> {
    map k | k in combined :: LittleEndian(combined[k])
  }

  function RawAllocs(allocs: Allocs): map<U64, AllocInfoRaw> {
    map a | a in allocs :: RawOf(allocs[a])
  }

  // The key whose truncation is the id of a report row.
  function KeyOfRow(id: U32): U64 {
    if id < 0x8000_0000 then id else id + 0xFFFF_FFFF_0000_0000
  }

  lemma RowKeys(key: U64)
    requires IsStackKey(key)
    ensures KeyOfRow(TruncateKey(key)) == key
  {
    if key >= 0x8000_0000 {
      assert key == key - 0xFFFF_FFFF_0000_0000 + 0xFFFF_FFFF * 0x1_0000_0000;
      assert TruncateKey(key) == key - 0xFFFF_FFFF_0000_0000;
    }
  }

  // ---------- what the selection is made from ----------

  lemma {:induction false} PositiveOrigin(entries: seq<(U64, Bits)>, x: Entry)
    requires x in Positives(entries)
    ensures x.totalSize > 0 && exists i :: 0 <= i < |entries| && Decode(entries[i]) == x
    decreases |entries|
  {
    var n := |entries| - 1;
    if x in Positives(entries[..n]) {
      PositiveOrigin(entries[..n], x);
      var i :| 0 <= i < n && Decode(entries[..n][i]) == x;
      assert Decode(entries[i]) == x;
    } else {
      assert Decode(entries[n]) == x;
    }
  }

  lemma {:induction false} PositiveListed(entries: seq<(U64, Bits)>, i: nat)
    requires i < |entries| && Decode(entries[i]).totalSize > 0
    ensures Decode(entries[i]) in Positives(entries)
    decreases |entries|
  {
    var n := |entries| - 1;
    if i < n {
      PositiveListed(entries[..n], i);
    }
  }

  // Entries of different stacks decode to rows of different stacks.
  predicate DistinctIds(entries: seq<(U64, Bits)>) {
    forall i, j :: 0 <= i < j < |entries| ==> TruncateKey(entries[i].0) != TruncateKey(entries[j].0)
  }

  lemma {:induction false} PositiveIds(entries: seq<(U64, Bits)>, id: U32)
    requires forall i :: 0 <= i < |entries| ==> TruncateKey(entries[i].0) != id
    ensures forall x :: x in Positives(entries) ==> x.stackId != id
    decreases |entries|
  {
    if entries == [] {
    } else {
      PositiveIds(entries[..|entries| - 1], id);
    }
  }

  lemma {:induction false} PositivesOnce(entries: seq<(U64, Bits)>, x: Entry)
    requires DistinctIds(entries)
    ensures multiset(Positives(entries))[x] <= 1
    decreases |entries|
  {
    if entries == [] {
    } else {
      var n := |entries| - 1;
      PositivesOnce(entries[..n], x);
      PositiveIds(entries[..n], TruncateKey(entries[n].0));
    }
  }

  lemma ListedIdsDistinct(entries: seq<(U64, Bits)>, combined: map<U64, U64>)
    requires Lists(entries, IndexBytes(combined))
    requires forall k :: k in combined ==> IsStackKey(k)
    ensures DistinctIds(entries)
  {
    forall i, j | 0 <= i < j < |entries|
      ensures TruncateKey(entries[i].0) != TruncateKey(entries[j].0)
    {
      StackKeysDistinct(entries[i].0, entries[j].0);
    }
  }

  // ---------- one row ----------

  // A row is the decoded word of a tracked stack.
  lemma RowOrigin(g: Ledger, entries: seq<(U64, Bits)>, n: nat, top: seq<Entry>, i: nat)
    requires WithinLimits(g.maps) && Lists(entries, IndexBytes(g.maps.combined))
    requires TopN(multiset(Positives(entries)), multiset(top), n) && i < |top|
    ensures var key := KeyOfRow(top[i].stackId);
            && key in g.maps.combined
            && top[i] == GetCombinedAllocInfo(TruncateKey(key), LittleEndian(g.maps.combined[key]))
            && top[i].totalSize > 0
  {
    assert top[i] in multiset(top);
    PositiveOrigin(entries, top[i]);
    var j :| 0 <= j < |entries| && Decode(entries[j]) == top[i];
    RowKeys(entries[j].0);
  }

  lemma RowDecodes(id: U32, word: U64)
    ensures GetCombinedAllocInfo(id, LittleEndian(word)).totalSize == Decoded(word).totalSize
    ensures GetCombinedAllocInfo(id, LittleEndian(word)).numberOfAllocs == Decoded(word).numberOfAllocs
  {
    DecodeWord(id, word);
    DecodeWord(0, word);
  }

  // ---------- the groups ----------

  function OfStack(id: U32): AllocInfoRaw -> int {
    (raw: AllocInfoRaw) => if raw.stackId == id then 1 else 0
  }

  lemma ListsPrefix<V>(entries: seq<(U64, V)>, m: map<U64, V>)
    requires Lists(entries, m) && |entries| > 0
    ensures entries[|entries| - 1].0 in m && m[entries[|entries| - 1].0] == entries[|entries| - 1].1
    ensures Lists(entries[..|entries| - 1], m - {entries[|entries| - 1].0})
  {
    var n := |entries| - 1;
    var k := entries[n].0;
    forall a | a in m - {k}
      ensures exists i :: 0 <= i < n && entries[..n][i].0 == a
    {
      var i :| 0 <= i < |entries| && entries[i].0 == a;
      assert entries[..n][i].0 == a;
    }
  }

  function LastRecord(entries: seq<(U64, AllocInfoRaw)>, id: U32): seq<AllocRecord>
    requires |entries| > 0
  {
    var last := entries[|entries| - 1];
    if last.1.stackId == id then [GetAllocInfo(last.0, last.1)] else []
  }

  lemma RecordsSnoc(entries: seq<(U64, AllocInfoRaw)>, id: U32)
    requires |entries| > 0
    ensures RecordsOf(entries, id) == RecordsOf(entries[..|entries| - 1], id) + LastRecord(entries, id)
  {}

  lemma CountStep(entries: seq<(U64, AllocInfoRaw)>, m: map<U64, AllocInfoRaw>, id: U32, k: U64)
    requires |entries| > 0 && entries[|entries| - 1].0 == k && k in m && m[k] == entries[|entries| - 1].1
    requires |RecordsOf(entries[..|entries| - 1], id)| == Sum(m - {k}, OfStack(id))
    ensures |RecordsOf(entries, id)| == Sum(m, OfStack(id))
  {
    RecordsSnoc(entries, id);
    SumRemove(m, OfStack(id), k);
  }

  // As many records as the map has entries of the stack.
  lemma {:induction false} RecordsCount(entries: seq<(U64, AllocInfoRaw)>, m: map<U64, AllocInfoRaw>, id: U32)
    requires Lists(entries, m)
    ensures |RecordsOf(entries, id)| == Sum(m, OfStack(id))
    decreases |entries|
  {
    if entries == [] {
      assert m == map[];
    } else {
      var n := |entries| - 1;
      ListsPrefix(entries, m);
      RecordsCount(entries[..n], m - {entries[n].0}, id);
      CountStep(entries, m, id, entries[n].0);
    }
  }

  function BytesOf(id: U32): AllocInfoRaw -> int {
    (raw: AllocInfoRaw) => if raw.stackId == id then raw.size else 0
  }

  // The sizes that a group lists, added up.
  function TotalOf(records: seq<AllocRecord>): nat {
    if records == [] then 0 else TotalOf(records[..|records| - 1]) + records[|records| - 1].size
  }

  lemma TotalSnoc(records: seq<AllocRecord>, r: AllocRecord)
    ensures TotalOf(records + [r]) == TotalOf(records) + r.size
  {
    assert (records + [r])[..|records|] == records;
  }

  lemma {:induction false} BytesStep(entries: seq<(U64, AllocInfoRaw)>, m: map<U64, AllocInfoRaw>, id: U32, k: U64)
    requires |entries| > 0 && entries[|entries| - 1].0 == k && k in m && m[k] == entries[|entries| - 1].1
    requires TotalOf(RecordsOf(entries[..|entries| - 1], id)) == Sum(m - {k}, BytesOf(id))
    ensures TotalOf(RecordsOf(entries, id)) == Sum(m, BytesOf(id))
  {
    var before, last := RecordsOf(entries[..|entries| - 1], id), LastRecord(entries, id);
    RecordsSnoc(entries, id);
    SumRemove(m, BytesOf(id), k);
    if last == [] {
      assert before + last == before;
    } else {
      TotalSnoc(before, last[0]);
    }
  }

  // And together they have the bytes of these entries.
  lemma {:induction false} RecordsBytes(entries: seq<(U64, AllocInfoRaw)>, m: map<U64, AllocInfoRaw>, id: U32)
    requires Lists(entries, m)
    ensures TotalOf(RecordsOf(entries, id)) == Sum(m, BytesOf(id))
    decreases |entries|
  {
    if entries == [] {
      assert m == map[];
    } else {
      var n := |entries| - 1;
      ListsPrefix(entries, m);
      RecordsBytes(entries[..n], m - {entries[n].0}, id);
      BytesStep(entries, m, id, entries[n].0);
    }
  }

  // A record says of its entry what the map holds: address, size, time and stack.
  predicate RecordOf(m: map<U64, AllocInfoRaw>, id: U32, r: AllocRecord) {
    && r.address in m
    && r.size == m[r.address].size
    && r.timestampNs == m[r.address].timestampNs
    && r.stackId == m[r.address].stackId == id
  }

  lemma RecordRemoved(m: map<U64, AllocInfoRaw>, k: U64, id: U32, r: AllocRecord)
    requires k in m
    ensures RecordOf(m - {k}, id, r) <==> RecordOf(m, id, r) && r.address != k
  {}

  lemma ExactStep(entries: seq<(U64, AllocInfoRaw)>, m: map<U64, AllocInfoRaw>, id: U32, k: U64, r: AllocRecord)
    requires |entries| > 0 && entries[|entries| - 1].0 == k && k in m && m[k] == entries[|entries| - 1].1
    requires multiset(RecordsOf(entries[..|entries| - 1], id))[r] == if RecordOf(m - {k}, id, r) then 1 else 0
    ensures multiset(RecordsOf(entries, id))[r] == if RecordOf(m, id, r) then 1 else 0
  {
    var before, last := RecordsOf(entries[..|entries| - 1], id), LastRecord(entries, id);
    RecordsSnoc(entries, id);
    RecordRemoved(m, k, id, r);
    assert multiset(before + last) == multiset(before) + multiset(last);
    assert multiset(last)[r] == if RecordOf(m, id, r) && r.address == k then 1 else 0;
  }

  // Each record comes from an entry of the stack, and from one only.
  lemma {:induction false} RecordsExactly(
    entries: seq<(U64, AllocInfoRaw)>, m: map<U64, AllocInfoRaw>, id: U32, r: AllocRecord)
    requires Lists(entries, m)
    ensures multiset(RecordsOf(entries, id))[r] == if RecordOf(m, id, r) then 1 else 0
    decreases |entries|
  {
    if entries == [] {
    } else {
      var n := |entries| - 1;
      ListsPrefix(entries, m);
      RecordsExactly(entries[..n], m - {entries[n].0}, id, r);
      ExactStep(entries, m, id, entries[n].0, r);
    }
  }

  lemma GroupCounts(g: Ledger, entries: seq<(U64, AllocInfoRaw)>, key: U64)
    requires Lists(entries, RawAllocs(g.maps.allocs)) && IsStackKey(key)
    ensures |RecordsOf(entries, TruncateKey(key))| == Live(Count, key, g.maps.allocs)
  {
    var raw, id := RawAllocs(g.maps.allocs), TruncateKey(key);
    RecordsCount(entries, raw, id);
    forall a | a in raw
      ensures OfStack(id)(raw[a]) == AtStack(Count, key)(g.maps.allocs[a])
    {
      StackIdentity(key, g.maps.allocs[a].stackId);
    }
    SumSame(raw, OfStack(id), g.maps.allocs, AtStack(Count, key));
  }

  lemma GroupBytes(g: Ledger, entries: seq<(U64, AllocInfoRaw)>, key: U64)
    requires Lists(entries, RawAllocs(g.maps.allocs)) && IsStackKey(key)
    ensures TotalOf(RecordsOf(entries, TruncateKey(key))) == Live(Bytes, key, g.maps.allocs)
  {
    var raw, id := RawAllocs(g.maps.allocs), TruncateKey(key);
    RecordsBytes(entries, raw, id);
    forall a | a in raw
      ensures BytesOf(id)(raw[a]) == AtStack(Bytes, key)(g.maps.allocs[a])
    {
      StackIdentity(key, g.maps.allocs[a].stackId);
    }
    SumSame(raw, BytesOf(id), g.maps.allocs, AtStack(Bytes, key));
  }

  /** A group lists the entries of its stack in the order of the iteration, each with its
      own address, size, time and stack. */
  lemma {:induction false} RecordAt(entries: seq<(U64, AllocInfoRaw)>, id: U32, i: nat)
    requires i < |entries| && entries[i].1.stackId == id
    ensures var records, place := RecordsOf(entries, id), |RecordsOf(entries[..i], id)|;
            && place < |records|
            && records[place].address == entries[i].0
            && records[place].size == entries[i].1.size
            && records[place].timestampNs == entries[i].1.timestampNs
            && records[place].stackId == id
    decreases |entries|
  {
    var n := |entries| - 1;
    RecordsSnoc(entries, id);
    if i == n {
    } else {
      assert entries[..n][..i] == entries[..i];
      RecordAt(entries[..n], id, i);
    }
  }

  /** Grouping is an exact partition: the groups are those of the selected stacks, and
      each holds every entry of `allocs` of its stack exactly once and nothing else. A
      record has the address, the size, the time and the stack of its entry. */
  lemma GroupsPartition(
    combined: seq<(U64, Bits)>, allocs: seq<(U64, AllocInfoRaw)>, n: nat, top: seq<Entry>, groups: Groups,
    g: Ledger, r: AllocRecord, id: U32)
    requires Reports(combined, allocs, n, top, groups)
    requires Lists(allocs, RawAllocs(g.maps.allocs))
    ensures id in groups <==> exists i :: 0 <= i < |top| && top[i].stackId == id
    ensures id in groups ==>
              (multiset(groups[id])[r] == 1 <==>
               && r.address in g.maps.allocs
               && r.size == g.maps.allocs[r.address].size
               && r.timestampNs == g.maps.allocs[r.address].timestampNs
               && r.stackId == id == g.maps.allocs[r.address].stackId % 0x1_0000_0000)
    ensures id in groups ==> multiset(groups[id])[r] <= 1
  {
    IdsMember(top, id);
    RecordsExactly(allocs, RawAllocs(g.maps.allocs), id, r);
  }

  // ---------- the whole report ----------

  // One round of the reader over a snapshot of the maps.
  ghost predicate Snapshot(
    g: Ledger, combined: seq<(U64, Bits)>, allocs: seq<(U64, AllocInfoRaw)>, n: nat, top: seq<Entry>, groups: Groups)
  {
    && WithinLimits(g.maps)
    && Lists(combined, IndexBytes(g.maps.combined)) && Lists(allocs, RawAllocs(g.maps.allocs))
    && n >= 1 && Reports(combined, allocs, n, top, groups)
  }

  // A row says what its group lists: the sum of the sizes and their number.
  predicate RowIsExact(row: Entry, groups: Groups)
    requires row.stackId in groups
  {
    row.totalSize == TotalOf(groups[row.stackId]) && row.numberOfAllocs == |groups[row.stackId]|
  }

  lemma RowShows(
    g: Ledger, combined: seq<(U64, Bits)>, allocs: seq<(U64, AllocInfoRaw)>, n: nat, top: seq<Entry>, groups: Groups,
    i: nat)
    requires Snapshot(g, combined, allocs, n, top, groups) && i < |top|
    ensures var row, key := top[i], KeyOfRow(top[i].stackId);
            && key in g.maps.combined && IsStackKey(key) && TruncateKey(key) == row.stackId
            && row.totalSize == Decoded(g.maps.combined[key]).totalSize > 0
            && row.numberOfAllocs == Decoded(g.maps.combined[key]).numberOfAllocs
  {
    var key := KeyOfRow(top[i].stackId);
    RowOrigin(g, combined, n, top, i);
    RowDecodes(TruncateKey(key), g.maps.combined[key]);
    RowKeys(key);
  }

  lemma RowGroup(
    g: Ledger, combined: seq<(U64, Bits)>, allocs: seq<(U64, AllocInfoRaw)>, n: nat, top: seq<Entry>, groups: Groups,
    i: nat)
    requires Snapshot(g, combined, allocs, n, top, groups) && i < |top|
    ensures top[i].stackId in groups
    ensures |groups[top[i].stackId]| == Live(Count, KeyOfRow(top[i].stackId), g.maps.allocs)
    ensures TotalOf(groups[top[i].stackId]) == Live(Bytes, KeyOfRow(top[i].stackId), g.maps.allocs)
  {
    RowShows(g, combined, allocs, n, top, groups, i);
    IdsMember(top, top[i].stackId);
    GroupCounts(g, allocs, KeyOfRow(top[i].stackId));
    GroupBytes(g, allocs, KeyOfRow(top[i].stackId));
  }

  lemma RowMeans(g: Ledger, key: U64, row: Entry, listed: nat)
    requires WithinLimits(g.maps) && IndexedAt(g, key) && key in g.maps.combined
    requires row.totalSize == Decoded(g.maps.combined[key]).totalSize
    requires row.numberOfAllocs == Decoded(g.maps.combined[key]).numberOfAllocs
    requires listed == Live(Count, key, g.maps.allocs)
    ensures var bytes := Live(Bytes, key, g.maps.allocs);
            && (row.totalSize == bytes <==> bytes < 0x100_0000_0000 && LossesHidden(key, g.lost))
            && (row.totalSize == bytes && row.numberOfAllocs == listed <==>
                bytes < 0x100_0000_0000 && Wrap64(Lost(Word, key, g.lost)) == 0)
            && (bytes < 0x100_0000_0000 && Lost(Count, key, g.lost) == 0 ==>
                  row.totalSize == bytes && row.numberOfAllocs == listed)
  {
    TotalExact(g, key);
    BothExact(g, key);
    if Lost(Count, key, g.lost) == 0 {
      ExactWithoutLosses(g, key);
    }
  }

  /** Each group lists what is outstanding for its stack. A row whose word is settled
      shows the outstanding bytes if and only if these are below 2^40 and the bytes lost
      there are a multiple of 2^40; it is exact, bytes and number, if and only if the
      words of the losses there add up to nothing, as when nothing was lost there. */
  lemma RowsAreExact(
    g: Ledger, combined: seq<(U64, Bits)>, allocs: seq<(U64, AllocInfoRaw)>, n: nat, top: seq<Entry>, groups: Groups,
    i: nat)
    requires Snapshot(g, combined, allocs, n, top, groups) && i < |top|
    requires IndexedAt(g, KeyOfRow(top[i].stackId))
    ensures var row, key := top[i], KeyOfRow(top[i].stackId);
            var bytes := Live(Bytes, key, g.maps.allocs);
            && row.stackId in groups && |groups[row.stackId]| == Live(Count, key, g.maps.allocs)
            && TotalOf(groups[row.stackId]) == bytes
            && (row.totalSize == bytes <==> bytes < 0x100_0000_0000 && LossesHidden(key, g.lost))
            && (RowIsExact(row, groups) <==> bytes < 0x100_0000_0000 && Wrap64(Lost(Word, key, g.lost)) == 0)
            && (bytes < 0x100_0000_0000 && Lost(Count, key, g.lost) == 0 ==> RowIsExact(row, groups))
  {
    var key := KeyOfRow(top[i].stackId);
    RowShows(g, combined, allocs, n, top, groups, i);
    RowGroup(g, combined, allocs, n, top, groups, i);
    RowMeans(g, key, top[i], |groups[top[i].stackId]|);
  }

  /** No stack is reported twice. */
  lemma RowsAreDistinct(
    g: Ledger, combined: seq<(U64, Bits)>, allocs: seq<(U64, AllocInfoRaw)>, n: nat, top: seq<Entry>, groups: Groups,
    i: nat, j: nat)
    requires Snapshot(g, combined, allocs, n, top, groups) && i < j < |top|
    ensures top[i].stackId != top[j].stackId
  {
    RowOrigin(g, combined, n, top, i);
    RowOrigin(g, combined, n, top, j);
    ListedIdsDistinct(combined, g.maps.combined);
    PositivesOnce(combined, top[i]);
    if top[i] == top[j] {
      TwiceInSeq(top, i, j);
    }
  }

  lemma TwiceInSeq(s: seq<Entry>, i: nat, j: nat)
    requires i < j < |s| && s[i] == s[j]
    ensures multiset(s)[s[i]] >= 2
  {
    assert s == s[..i] + [s[i]] + s[i + 1..j] + [s[j]] + s[j + 1..];
  }

  // What the index shows for a stack.
  function Shown(g: Ledger, key: U64): nat
    requires key in g.maps.combined
  {
    Decoded(g.maps.combined[key]).totalSize
  }

  /** The report names the stacks for which the index shows most: no unreported one
      shows more than a reported one, and one that shows anything at all goes
      unreported only when all N rows are taken. */
  lemma MostShownAreReported(
    g: Ledger, combined: seq<(U64, Bits)>, allocs: seq<(U64, AllocInfoRaw)>, n: nat, top: seq<Entry>, groups: Groups,
    key: U64)
    requires Snapshot(g, combined, allocs, n, top, groups)
    requires key in g.maps.combined && TruncateKey(key) !in groups
    ensures forall i :: 0 <= i < |top| ==> Shown(g, key) <= top[i].totalSize
    ensures |top| < n ==> Shown(g, key) == 0
  {
    if Shown(g, key) > 0 {
      UnreportedIsLeftOut(g, combined, top, groups, n, key);
    }
  }

  // The index shows what is outstanding for the stack.
  ghost predicate ShowsLive(g: Ledger, key: U64) {
    Live(Bytes, key, g.maps.allocs) < 0x100_0000_0000 && LossesHidden(key, g.lost)
  }

  /** So it names the worst leaks: of two stacks for which the index shows what is
      outstanding, an unreported one never has more than a reported one. */
  lemma WorstAreReported(
    g: Ledger, combined: seq<(U64, Bits)>, allocs: seq<(U64, AllocInfoRaw)>, n: nat, top: seq<Entry>, groups: Groups,
    key: U64, i: nat)
    requires Snapshot(g, combined, allocs, n, top, groups)
    requires key in g.maps.combined && TruncateKey(key) !in groups
    requires IndexedAt(g, key) && ShowsLive(g, key)
    ensures |top| < n ==> Live(Bytes, key, g.maps.allocs) == 0
    ensures i < |top| && IndexedAt(g, KeyOfRow(top[i].stackId)) && ShowsLive(g, KeyOfRow(top[i].stackId)) ==>
              Live(Bytes, key, g.maps.allocs) <= Live(Bytes, KeyOfRow(top[i].stackId), g.maps.allocs)
  {
    MostShownAreReported(g, combined, allocs, n, top, groups, key);
    TotalExact(g, key);
    if i < |top| && IndexedAt(g, KeyOfRow(top[i].stackId)) {
      RowsAreExact(g, combined, allocs, n, top, groups, i);
    }
  }

  lemma LeftOutIsSmaller(offered: multiset<Entry>, top: seq<Entry>, n: nat, x: Entry)
    requires TopN(offered, multiset(top), n) && x in offered && x !in top
    ensures forall i :: 0 <= i < |top| ==> x.totalSize <= top[i].totalSize
    ensures |top| >= n
  {
    var kept := multiset(top);
    assert x in offered - kept;
    if |kept| == |offered| {
      KeptAll(offered, kept);
    }
    forall i | 0 <= i < |top|
      ensures x.totalSize <= top[i].totalSize
    {
      assert top[i] in kept;
    }
  }

  // The row that an unreported stack would have had.
  lemma UnreportedRow(g: Ledger, combined: seq<(U64, Bits)>, key: U64) returns (x: Entry)
    requires Lists(combined, IndexBytes(g.maps.combined))
    requires key in g.maps.combined && 0 < Shown(g, key)
    ensures x in Positives(combined) && x.stackId == TruncateKey(key) && x.totalSize == Shown(g, key)
  {
    assert key in IndexBytes(g.maps.combined);
    var j :| 0 <= j < |combined| && combined[j].0 == key;
    x := Decode(combined[j]);
    RowDecodes(TruncateKey(key), g.maps.combined[key]);
    PositiveListed(combined, j);
  }

  lemma UnreportedIsLeftOut(g: Ledger, combined: seq<(U64, Bits)>, top: seq<Entry>, groups: Groups, n: nat, key: U64)
    requires Lists(combined, IndexBytes(g.maps.combined))
    requires TopN(multiset(Positives(combined)), multiset(top), n) && groups.Keys == IdsOf(top)
    requires key in g.maps.combined && TruncateKey(key) !in groups && 0 < Shown(g, key)
    ensures forall i :: 0 <= i < |top| ==> Shown(g, key) <= top[i].totalSize
    ensures |top| >= n
  {
    var x := UnreportedRow(g, combined, key);
    IdsMember(top, x.stackId);
    LeftOutIsSmaller(multiset(Positives(combined)), top, n, x);
  }

  /** When nothing is outstanding, only stacks with losses are reported: none at all if
      nothing was lost. */
  lemma EmptyReportsLosses(
    g: Ledger, combined: seq<(U64, Bits)>, allocs: seq<(U64, AllocInfoRaw)>, n: nat, top: seq<Entry>, groups: Groups,
    i: nat)
    requires Snapshot(g, combined, allocs, n, top, groups) && i < |top|
    requires IndexedAt(g, KeyOfRow(top[i].stackId)) && g.maps.allocs == map[]
    ensures Lost(Count, KeyOfRow(top[i].stackId), g.lost) > 0
  {
    var key := KeyOfRow(top[i].stackId);
    RowShows(g, combined, allocs, n, top, groups, i);
    OnlyLosses(g, key);
    LostNonNegative(Count, key, g.lost);
    ZeroShowsNothing();
  }

  /** So after a sequential run in which everything recorded was freed. */
  lemma BalancedRunReportsLosses(
    c: Config, ops: seq<Op>,
    combined: seq<(U64, Bits)>, allocs: seq<(U64, AllocInfoRaw)>, n: nat, top: seq<Entry>, groups: Groups, i: nat)
    requires forall i, a: U64 :: 0 <= i < |ops| && RecordsAt(c, ops, i, a) ==> FreedWithin(ops, a, i, |ops|)
    requires Snapshot(Run(c, EMPTY, ops), combined, allocs, n, top, groups) && i < |top|
    ensures Lost(Count, KeyOfRow(top[i].stackId), Run(c, EMPTY, ops).lost) > 0
  {
    BalancedRunEndsAtZero(c, ops, KeyOfRow(top[i].stackId));
    OperationLedger(c, ops);
    EmptyReportsLosses(Run(c, EMPTY, ops), combined, allocs, n, top, groups, i);
  }

  /** And after a clean interleaving that has come to rest with `allocs` empty. */
  lemma RestReportsLosses(
    c: Config, acts: seq<Action>, x: System,
    combined: seq<(U64, Bits)>, allocs: seq<(U64, AllocInfoRaw)>, n: nat, top: seq<Entry>, groups: Groups, i: nat)
    requires CleanRun(c, START, acts) && x == Interleave(c, START, acts) && x.cpus == map[] && x.g.maps.allocs == map[]
    requires Snapshot(x.g, combined, allocs, n, top, groups) && i < |top|
    ensures Lost(Count, KeyOfRow(top[i].stackId), x.g.lost) > 0
  {
    ConcurrentLedger(c, acts);
    EmptyReportsLosses(x.g, combined, allocs, n, top, groups, i);
  }

  lemma ZeroShowsNothing()
    ensures Decoded(0).totalSize == 0
  {
    DecodeWord(0, 0);
  }

  /** The order in which the kernel lists the index does not change the totals. */
  lemma OrderDoesNotMatter(
    g: Ledger, n: nat,
    combined: seq<(U64, Bits)>, allocs: seq<(U64, AllocInfoRaw)>, top: seq<Entry>, groups: Groups,
    combined': seq<(U64, Bits)>, allocs': seq<(U64, AllocInfoRaw)>, top': seq<Entry>, groups': Groups)
    requires Snapshot(g, combined, allocs, n, top, groups) && Snapshot(g, combined', allocs', n, top', groups')
    ensures |top| == |top'| && forall i :: 0 <= i < |top| ==> top[i].totalSize == top'[i].totalSize
  {
    SameOffer(g, combined, combined');
    TotalsAreDetermined(multiset(Positives(combined)), top, top', n);
  }

  lemma OfferedFrom(g: Ledger, a: seq<(U64, Bits)>, b: seq<(U64, Bits)>, x: Entry)
    requires Lists(a, IndexBytes(g.maps.combined)) && Lists(b, IndexBytes(g.maps.combined))
    requires x in Positives(a)
    ensures x in Positives(b)
  {
    PositiveOrigin(a, x);
    var i :| 0 <= i < |a| && Decode(a[i]) == x;
    var j :| 0 <= j < |b| && b[j].0 == a[i].0;
    assert b[j] == a[i];
    PositiveListed(b, j);
  }

  lemma SameMultiplicity(g: Ledger, a: seq<(U64, Bits)>, b: seq<(U64, Bits)>, x: Entry)
    requires Lists(a, IndexBytes(g.maps.combined)) && Lists(b, IndexBytes(g.maps.combined))
    requires DistinctIds(a) && DistinctIds(b)
    ensures multiset(Positives(a))[x] == multiset(Positives(b))[x]
  {
    PositivesOnce(a, x);
    PositivesOnce(b, x);
    if x in Positives(a) {
      OfferedFrom(g, a, b, x);
    } else if x in Positives(b) {
      OfferedFrom(g, b, a, x);
    }
  }

  lemma SameOffer(g: Ledger, a: seq<(U64, Bits)>, b: seq<(U64, Bits)>)
    requires WithinLimits(g.maps)
    requires Lists(a, IndexBytes(g.maps.combined)) && Lists(b, IndexBytes(g.maps.combined))
    ensures multiset(Positives(a)) == multiset(Positives(b))
  {
    ListedIdsDistinct(a, g.maps.combined);
    ListedIdsDistinct(b, g.maps.combined);
    forall x: Entry
      ensures multiset(Positives(a))[x] == multiset(Positives(b))[x]
    {
      SameMultiplicity(g, a, b, x);
    }
  }

  /** End to end: in any clean run of overlapping programs, hence in any in which no two
      of them work on the same address, and while others may be in flight, a row whose
      stack has nothing pending is exactly what `allocs` holds for it, in bytes and in
      number, if and only if this is less than 2^40 bytes and the losses at the stack
      add up to nothing. */
  lemma ReportIsTrue(
    c: Config, acts: seq<Action>, x: System,
    combined: seq<(U64, Bits)>, allocs: seq<(U64, AllocInfoRaw)>, n: nat, top: seq<Entry>, groups: Groups, i: nat)
    requires CleanRun(c, START, acts) && x == Interleave(c, START, acts)
    requires Lists(combined, IndexBytes(x.g.maps.combined)) && Lists(allocs, RawAllocs(x.g.maps.allocs))
    requires n >= 1 && Reports(combined, allocs, n, top, groups) && i < |top|
    requires NonePending(x, KeyOfRow(top[i].stackId))
    ensures var bytes, key := Live(Bytes, KeyOfRow(top[i].stackId), x.g.maps.allocs), KeyOfRow(top[i].stackId);
            && top[i].stackId in groups && |groups[top[i].stackId]| == Live(Count, key, x.g.maps.allocs)
            && TotalOf(groups[top[i].stackId]) == bytes
            && (RowIsExact(top[i], groups) <==> bytes < 0x100_0000_0000 && Wrap64(Lost(Word, key, x.g.lost)) == 0)
            && (bytes < 0x100_0000_0000 && Lost(Count, key, x.g.lost) == 0 ==> RowIsExact(top[i], groups))
  {
    CleanRunBalances(c, acts);
    assert Balanced(x, KeyOfRow(top[i].stackId));
    SettledStack(x, KeyOfRow(top[i].stackId));
    RowsAreExact(x.g, combined, allocs, n, top, groups, i);
  }
}
