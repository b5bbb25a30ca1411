/** Binary heaps laid out in a sequence, ordered by `totalSize`. */
module HeapOrder {
  import opened Info

  type Entry = CombinedAllocInfo

  function Parent(k: nat): nat {
    if k == 0 then 0 else (k - 1) / 2
  }

  predicate Ordered(s: seq<Entry>, k: nat)
    requires k < |s|
  {
    s[Parent(k)].totalSize <= s[k].totalSize
  }

  // The first `n` elements are ordered below every parent from `from` on.
  predicate HeapFrom(s: seq<Entry>, n: nat, from: nat)
    requires n <= |s|
  {
    forall k {:trigger Ordered(s, k)} :: 0 < k < n && from <= Parent(k) ==> Ordered(s, k)
  }

  predicate IsHeap(s: seq<Entry>) {
    HeapFrom(s, |s|, 0)
  }

  function Swapped(s: seq<Entry>, i: nat, j: nat): seq<Entry>
    requires i < |s| && j < |s|
  {
    s[i := s[j]][j := s[i]]
  }

  lemma SwappedMultiset(s: seq<Entry>, i: nat, j: nat)
    requires i < |s| && j < |s|
    ensures multiset(Swapped(s, i, j)) == multiset(s)
  {}

  lemma SwappedTail(s: seq<Entry>, i: nat, j: nat, n: nat)
    requires i < n <= |s| && j < n
    ensures Swapped(s, i, j)[n..] == s[n..]
  {}

  // ---------- moving up ----------

  // A heap, except that the element at `j` may be smaller than its parent.
  predicate HeapButUp(s: seq<Entry>, j: nat)
    requires j < |s|
  {
    && (forall k {:trigger Ordered(s, k)} :: 0 < k < |s| && k != j ==> Ordered(s, k))
    && (forall k :: 0 < k < |s| && Parent(k) == j && j > 0 ==> s[Parent(j)].totalSize <= s[k].totalSize)
  }

  lemma UpStep(s: seq<Entry>, j: nat)
    requires 0 < j < |s| && HeapButUp(s, j) && s[j].totalSize < s[Parent(j)].totalSize
    ensures HeapButUp(Swapped(s, Parent(j), j), Parent(j))
  {
    var i := Parent(j);
    var t := Swapped(s, i, j);
    forall k | 0 < k < |t| && k != i
      ensures Ordered(t, k)
    {
      assert k != j ==> Ordered(s, k);
    }
    forall k | 0 < k < |t| && Parent(k) == i && i > 0
      ensures t[Parent(i)].totalSize <= t[k].totalSize
    {
      assert Ordered(s, i);
      assert k != j ==> Ordered(s, k);
    }
  }

  lemma UpDone(s: seq<Entry>, j: nat)
    requires j < |s| && HeapButUp(s, j) && (j == 0 || Ordered(s, j))
    ensures IsHeap(s)
  {}

  lemma AppendHeap(s: seq<Entry>, x: Entry)
    requires IsHeap(s)
    ensures HeapButUp(s + [x], |s|)
  {
    forall k | 0 < k < |s|
      ensures Ordered(s + [x], k)
    {
      assert Ordered(s, k);
    }
  }

  // ---------- moving down ----------

  // Ordered from `from` on, except that the element at `i` may exceed its children.
  predicate HeapButDown(s: seq<Entry>, n: nat, from: nat, i: nat)
    requires n <= |s|
  {
    && from <= i
    && (forall k {:trigger Ordered(s, k)} :: 0 < k < n && from <= Parent(k) && Parent(k) != i ==> Ordered(s, k))
    && (forall k :: 0 < k < n && Parent(k) == i && from < i ==> s[Parent(i)].totalSize <= s[k].totalSize)
  }

  predicate SmallestChild(s: seq<Entry>, n: nat, i: nat, j: nat)
    requires n <= |s|
  {
    0 < j < n && Parent(j) == i && forall k :: 0 < k < n && Parent(k) == i ==> s[j].totalSize <= s[k].totalSize
  }

  // The smaller of the two children is the smallest child.
  lemma ChildChoice(s: seq<Entry>, n: nat, i: nat, j: nat)
    requires n <= |s| && 2 * i + 1 < n
    requires j == if 2 * i + 2 < n && s[2 * i + 2].totalSize < s[2 * i + 1].totalSize then 2 * i + 2 else 2 * i + 1
    ensures SmallestChild(s, n, i, j)
  {
    forall k | 0 < k < n && Parent(k) == i
      ensures s[j].totalSize <= s[k].totalSize
    {
      assert k == 2 * i + 1 || k == 2 * i + 2;
    }
  }

  lemma DownStep(s: seq<Entry>, n: nat, from: nat, i: nat, j: nat)
    requires n <= |s| && HeapButDown(s, n, from, i) && SmallestChild(s, n, i, j)
    requires from < i ==> from <= Parent(i)
    requires s[j].totalSize < s[i].totalSize
    ensures HeapButDown(Swapped(s, i, j), n, from, j)
  {
    var t := Swapped(s, i, j);
    forall k | 0 < k < n && from <= Parent(k) && Parent(k) != j
      ensures Ordered(t, k)
    {
      if Parent(k) != i && k != i {
        assert Ordered(s, k);
      }
    }
    forall k | 0 < k < n && Parent(k) == j && from < j
      ensures t[Parent(j)].totalSize <= t[k].totalSize
    {
      assert Ordered(s, k);
    }
  }

  lemma DownDone(s: seq<Entry>, n: nat, from: nat, i: nat)
    requires n <= |s| && HeapButDown(s, n, from, i)
    requires forall k :: 0 < k < n && Parent(k) == i ==> Ordered(s, k)
    ensures HeapFrom(s, n, from)
  {}

  lemma DownStops(s: seq<Entry>, n: nat, from: nat, i: nat)
    requires n <= |s| && HeapButDown(s, n, from, i)
    requires 2 * i + 1 >= n || exists j: nat :: SmallestChild(s, n, i, j) && s[i].totalSize <= s[j].totalSize
    ensures HeapFrom(s, n, from)
  {
    if 2 * i + 1 < n {
      var j: nat :| SmallestChild(s, n, i, j) && s[i].totalSize <= s[j].totalSize;
    }
    DownDone(s, n, from, i);
  }

  // ---------- the root ----------

  // With the last element moved to the root, all but the root is still ordered.
  lemma RootReplaced(s: seq<Entry>)
    requires IsHeap(s) && |s| > 0
    ensures HeapFrom(Swapped(s, 0, |s| - 1), |s| - 1, 1)
  {
    forall k | 0 < k < |s| - 1 && 1 <= Parent(k)
      ensures Ordered(Swapped(s, 0, |s| - 1), k)
    {
      assert Ordered(s, k);
    }
  }

  lemma PrefixHeap(s: seq<Entry>, n: nat)
    requires n <= |s| && HeapFrom(s, n, 0)
    ensures IsHeap(s[..n])
  {
    forall k | 0 < k < n
      ensures Ordered(s[..n], k)
    {
      assert Ordered(s, k);
    }
  }

  lemma CutLast(t: seq<Entry>, n: nat)
    requires |t| == n + 1
    ensures multiset(t[..n]) + multiset{t[n]} == multiset(t)
  {
    assert t == t[..n] + [t[n]];
  }

  // What heap.Pop does to the layout: the old root ends up last and is cut off.
  lemma PopResult(s: seq<Entry>, t: seq<Entry>, n: nat)
    requires |s| == |t| == n + 1
    requires multiset(t) == multiset(Swapped(s, 0, n)) && t[n..] == Swapped(s, 0, n)[n..]
    requires HeapFrom(t, n, 0)
    ensures t[n] == s[0]
    ensures multiset(t[..n]) + multiset{s[0]} == multiset(s)
    ensures IsHeap(t[..n])
  {
    assert t[n] == t[n..][0] == Swapped(s, 0, n)[n..][0] == s[0];
    SwappedMultiset(s, 0, n);
    CutLast(t, n);
    PrefixHeap(t, n);
  }

  // The root of a heap is a minimum.
  lemma {:induction false} RootIsLeast(s: seq<Entry>, k: nat)
    requires IsHeap(s) && k < |s|
    ensures s[0].totalSize <= s[k].totalSize
    decreases k
  {
    if k == 0 {
    } else {
      assert Ordered(s, k);
      RootIsLeast(s, Parent(k));
    }
  }

  predicate Least(x: Entry, m: multiset<Entry>) {
    x in m && forall y :: y in m ==> x.totalSize <= y.totalSize
  }

  lemma RootIsMinimum(s: seq<Entry>)
    requires IsHeap(s) && |s| > 0
    ensures Least(s[0], multiset(s))
  {
    forall y | y in multiset(s)
      ensures s[0].totalSize <= y.totalSize
    {
      var k :| 0 <= k < |s| && s[k] == y;
      RootIsLeast(s, k);
    }
  }
}
