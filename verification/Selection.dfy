/** What a selection of the N largest entries is, and that it fixes the totals it lists. */
module Selection {
  import opened Words
  import opened Info
  import opened HeapOrder

  // `kept` holds N of the offered entries, or all if there are fewer, and no entry
  // left out is larger than one that is kept.
  ghost predicate TopN(offered: multiset<Entry>, kept: multiset<Entry>, n: nat) {
    && kept <= offered
    && |kept| == (if |offered| < n then |offered| else n)
    && forall x, y :: x in kept && y in offered - kept ==> y.totalSize <= x.totalSize
  }

  lemma KeptAll(offered: multiset<Entry>, kept: multiset<Entry>)
    requires kept <= offered && |kept| == |offered|
    ensures kept == offered
  {
    assert offered == kept + (offered - kept);
  }

  lemma TopNPush(offered: multiset<Entry>, kept: multiset<Entry>, n: nat, x: Entry)
    requires TopN(offered, kept, n) && |kept| < n
    ensures TopN(offered + multiset{x}, kept + multiset{x}, n)
  {
    KeptAll(offered, kept);
  }

  lemma TopNSkip(offered: multiset<Entry>, kept: multiset<Entry>, n: nat, least: Entry, x: Entry)
    requires TopN(offered, kept, n) && |kept| == n && Least(least, kept) && x.totalSize <= least.totalSize
    ensures TopN(offered + multiset{x}, kept, n)
  {
    assert offered + multiset{x} - kept == offered - kept + multiset{x};
  }

  lemma TopNReplace(offered: multiset<Entry>, kept: multiset<Entry>, n: nat, least: Entry, x: Entry)
    requires TopN(offered, kept, n) && |kept| == n && Least(least, kept) && least.totalSize < x.totalSize
    ensures TopN(offered + multiset{x}, kept - multiset{least} + multiset{x}, n)
  {
    var out := offered - kept;
    assert offered + multiset{x} - (kept - multiset{least} + multiset{x}) == out + multiset{least};
    forall y | y in out
      ensures y.totalSize <= least.totalSize
    {}
  }

  lemma TakenOut(left: multiset<Entry>, x: Entry, before: multiset<Entry>)
    requires left + multiset{x} == before
    ensures left == before - multiset{x}
  {}

  // ---------- sorted lists of a selection ----------

  // Everything that is left is at least as large as the first entry taken out.
  ghost predicate NoneBelow(left: multiset<Entry>, done: seq<Entry>) {
    done != [] ==> forall x :: x in left ==> x.totalSize >= done[0].totalSize
  }

  // Draining: the least of what is left goes before all that was taken out so far.
  lemma DrainStep(before: multiset<Entry>, x: Entry, left: multiset<Entry>, done: seq<Entry>)
    requires Least(x, before) && left + multiset{x} == before
    requires Descending(done) && NoneBelow(before, done)
    ensures Descending([x] + done)
    ensures NoneBelow(left, [x] + done)
  {
    assert ([x] + done)[1..] == done;
    forall u | u in left
      ensures u in before
    {
      assert (left + multiset{x})[u] > 0;
    }
  }

  predicate Descending(s: seq<Entry>) {
    |s| < 2 || (s[0].totalSize >= s[1].totalSize && Descending(s[1..]))
  }

  lemma {:induction false} DescendingAt(s: seq<Entry>, i: nat, j: nat)
    requires Descending(s) && i <= j < |s|
    ensures s[i].totalSize >= s[j].totalSize
    decreases |s|
  {
    if i < j {
      if i > 0 {
        DescendingAt(s[1..], i - 1, j - 1);
      } else if j > 1 {
        DescendingAt(s[1..], 0, j - 1);
      }
    }
  }

  ghost function CountAtLeast(m: multiset<Entry>, t: nat): nat
    decreases |m|
  {
    if m == multiset{} then 0
    else
      var x :| x in m;
      (if x.totalSize >= t then 1 else 0) + CountAtLeast(m - multiset{x}, t)
  }

  lemma {:induction false} CountRemove(m: multiset<Entry>, t: nat, x: Entry)
    requires x in m
    ensures CountAtLeast(m, t) == (if x.totalSize >= t then 1 else 0) + CountAtLeast(m - multiset{x}, t)
    decreases |m|
  {
    var y :| y in m && CountAtLeast(m, t) == (if y.totalSize >= t then 1 else 0) + CountAtLeast(m - multiset{y}, t);
    if x != y {
      var rest := m - multiset{x} - multiset{y};
      assert rest == m - multiset{y} - multiset{x};
      CountRemove(m - multiset{y}, t, x);
      CountRemove(m - multiset{x}, t, y);
    }
  }

  lemma {:induction false} CountUnion(a: multiset<Entry>, b: multiset<Entry>, t: nat)
    ensures CountAtLeast(a + b, t) == CountAtLeast(a, t) + CountAtLeast(b, t)
    decreases |a|
  {
    if a == multiset{} {
      assert a + b == b;
    } else {
      var x :| x in a;
      CountRemove(a, t, x);
      CountRemove(a + b, t, x);
      assert a + b - multiset{x} == a - multiset{x} + b;
      CountUnion(a - multiset{x}, b, t);
    }
  }

  lemma {:induction false} CountNone(m: multiset<Entry>, t: nat)
    requires forall x :: x in m ==> x.totalSize < t
    ensures CountAtLeast(m, t) == 0
    decreases |m|
  {
    if m == multiset{} {
    } else {
      var x :| x in m;
      CountRemove(m, t, x);
      CountNone(m - multiset{x}, t);
    }
  }

  lemma {:induction false} CountEvery(m: multiset<Entry>, t: nat)
    requires forall x :: x in m ==> x.totalSize >= t
    ensures CountAtLeast(m, t) == |m|
    decreases |m|
  {
    if m == multiset{} {
    } else {
      var x :| x in m;
      CountRemove(m, t, x);
      CountEvery(m - multiset{x}, t);
    }
  }

  lemma {:induction false} CountAtMost(m: multiset<Entry>, t: nat)
    ensures CountAtLeast(m, t) <= |m|
    decreases |m|
  {
    if m == multiset{} {
    } else {
      var x :| x in m;
      CountRemove(m, t, x);
      CountAtMost(m - multiset{x}, t);
    }
  }

  lemma SplitCount(offered: multiset<Entry>, a: seq<Entry>, b: seq<Entry>, t: nat)
    requires multiset(a + b) <= offered
    ensures CountAtLeast(offered, t)
         == CountAtLeast(multiset(a), t) + CountAtLeast(multiset(b), t) + CountAtLeast(offered - multiset(a + b), t)
  {
    var out := offered - multiset(a + b);
    assert multiset(a + b) == multiset(a) + multiset(b);
    CountUnion(multiset(a), multiset(b), t);
    CountUnion(multiset(a + b), out, t);
    assert multiset(a + b) + out == offered;
  }

  lemma ManyAreAsLarge(offered: multiset<Entry>, s: seq<Entry>, i: nat)
    requires Descending(s) && i < |s| && multiset(s) <= offered
    ensures CountAtLeast(offered, s[i].totalSize) >= i + 1
  {
    assert s == s[..i + 1] + s[i + 1..];
    forall x | x in multiset(s[..i + 1])
      ensures x.totalSize >= s[i].totalSize
    {
      var k :| 0 <= k < |s[..i + 1]| && s[..i + 1][k] == x;
      DescendingAt(s, k, i);
    }
    CountEvery(multiset(s[..i + 1]), s[i].totalSize);
    SplitCount(offered, s[..i + 1], s[i + 1..], s[i].totalSize);
  }

  lemma TailIsSmaller(s: seq<Entry>, i: nat, t: nat)
    requires Descending(s) && i < |s| && s[i].totalSize < t
    ensures CountAtLeast(multiset(s[i..]), t) == 0
  {
    forall x | x in multiset(s[i..])
      ensures x.totalSize < t
    {
      var k :| 0 <= k < |s[i..]| && s[i..][k] == x;
      DescendingAt(s, i, i + k);
    }
    CountNone(multiset(s[i..]), t);
  }

  lemma LeftOutAreSmaller(offered: multiset<Entry>, s: seq<Entry>, n: nat, i: nat, t: nat)
    requires i < |s| && TopN(offered, multiset(s), n) && s[i].totalSize < t
    ensures CountAtLeast(offered - multiset(s), t) == 0
  {
    assert s[i] in multiset(s);
    CountNone(offered - multiset(s), t);
  }

  lemma FewAreLarger(offered: multiset<Entry>, s: seq<Entry>, n: nat, i: nat, t: nat)
    requires Descending(s) && i < |s| && TopN(offered, multiset(s), n) && s[i].totalSize < t
    ensures CountAtLeast(offered, t) <= i
  {
    assert s == s[..i] + s[i..];
    CountAtMost(multiset(s[..i]), t);
    TailIsSmaller(s, i, t);
    LeftOutAreSmaller(offered, s, n, i, t);
    SplitCount(offered, s[..i], s[i..], t);
  }

  // Two selections of the same entries: an entry of one is at most as large as the
  // entry at the same place of the other.
  lemma NotLarger(offered: multiset<Entry>, a: seq<Entry>, b: seq<Entry>, n: nat, i: nat)
    requires Descending(a) && Descending(b) && i < |a| == |b|
    requires TopN(offered, multiset(a), n) && TopN(offered, multiset(b), n)
    ensures a[i].totalSize <= b[i].totalSize
  {
    ManyAreAsLarge(offered, a, i);
    if b[i].totalSize < a[i].totalSize {
      FewAreLarger(offered, b, n, i, a[i].totalSize);
    }
  }

  /** Any two descending selections of the same entries list the same totals, though
      ties may be won by different stacks. */
  lemma TotalsAreDetermined(offered: multiset<Entry>, a: seq<Entry>, b: seq<Entry>, n: nat)
    requires Descending(a) && Descending(b)
    requires TopN(offered, multiset(a), n) && TopN(offered, multiset(b), n)
    ensures |a| == |b| && forall i :: 0 <= i < |a| ==> a[i].totalSize == b[i].totalSize
  {
    assert |multiset(a)| == |multiset(b)|;
    forall i | 0 <= i < |a|
      ensures a[i].totalSize == b[i].totalSize
    {
      NotLarger(offered, a, b, n, i);
      NotLarger(offered, b, a, n, i);
    }
  }
}
