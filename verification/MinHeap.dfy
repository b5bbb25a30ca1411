/** The min-heap of internal/probe/probe.go: a slice over a backing array, driven by
    the push, pop and init of Go's container/heap. */
module MinHeaps {
  import opened Info
  import opened HeapOrder

  class MinHeap {
    var data: array<Entry>
    var len: nat

    ghost predicate Valid()
      reads this
    {
      len <= data.Length
    }

    ghost function Contents(): seq<Entry>
      requires Valid()
      reads this, data
    {
      data[..len]
    }

    // A heap that holds exactly the given entries.
    ghost predicate Holds(entries: multiset<Entry>)
      reads this, data
    {
      Valid() && IsHeap(Contents()) && multiset(Contents()) == entries
    }

    constructor ()
      ensures Valid() && Contents() == [] && fresh(data)
    {
      data := new Entry[0];
      len := 0;
    }

    predicate Less(i: nat, j: nat)
      requires Valid() && i < len && j < len
      reads this, data
    {
      data[i].totalSize < data[j].totalSize
    }

    method Swap(i: nat, j: nat)
      requires Valid() && i < len && j < len
      modifies data
      ensures Contents() == Swapped(old(Contents()), i, j)
    {
      data[i], data[j] := data[j], data[i];
    }

    // Push of MinHeap: append, moving to a larger array when the slice is full.
    method Append(x: Entry)
      requires Valid()
      modifies this, data
      ensures Valid() && (data == old(data) || fresh(data))
      ensures Contents() == old(Contents()) + [x]
    {
      if len == data.Length {
        var larger := new Entry[2 * len + 1];
        forall i | 0 <= i < len {
          larger[i] := data[i];
        }
        data := larger;
      }
      data[len] := x;
      len := len + 1;
    }

    // Pop of MinHeap: cut off the last element.
    method RemoveLast() returns (x: Entry)
      requires Valid() && len > 0
      modifies this`len
      ensures Valid() && Contents() == old(Contents())[..old(len) - 1]
      ensures x == old(Contents())[old(len) - 1]
    {
      x := data[len - 1];
      len := len - 1;
    }

    method Up(start: nat)
      requires Valid() && start < len && HeapButUp(Contents(), start)
      modifies data
      ensures IsHeap(Contents()) && multiset(Contents()) == multiset(old(Contents()))
    {
      var j: nat := start;
      while true
        invariant j < len && HeapButUp(Contents(), j)
        invariant multiset(Contents()) == multiset(old(Contents()))
        decreases j
      {
        var i: nat := if j == 0 then 0 else (j - 1) / 2;  // (j - 1) / 2 truncates toward zero
        if i == j || !Less(j, i) {
          break;
        }
        UpStep(Contents(), j);
        SwappedMultiset(Contents(), i, j);
        Swap(i, j);
        j := i;
      }
      UpDone(Contents(), j);
    }

    method Down(start: nat, n: nat) returns (moved: bool)
      requires Valid() && n <= len && HeapFrom(Contents(), n, start + 1)
      modifies data
      ensures HeapFrom(Contents(), n, start)
      ensures multiset(Contents()) == multiset(old(Contents()))
      ensures Contents()[n..] == old(Contents())[n..]
      ensures !moved ==> Contents() == old(Contents())
    {
      var i: nat := start;
      while true
        invariant start <= i && (start < i ==> start <= Parent(i))
        invariant HeapButDown(Contents(), n, start, i)
        invariant multiset(Contents()) == multiset(old(Contents()))
        invariant Contents()[n..] == old(Contents())[n..]
        invariant i == start ==> Contents() == old(Contents())
        decreases n - i
      {
        ghost var s := Contents();
        var left := 2 * i + 1;
        if left >= n {
          break;
        }
        var j := left;
        var right := left + 1;
        if right < n && Less(right, left) {
          j := right;
        }
        ChildChoice(s, n, i, j);
        if !Less(j, i) {
          break;
        }
        DownStep(s, n, start, i, j);
        SwappedMultiset(s, i, j);
        SwappedTail(s, i, j, n);
        Swap(i, j);
        i := j;
      }
      DownStops(Contents(), n, start, i);
      return i > start;
    }

    // heap.Init
    method Init()
      requires Valid()
      modifies data
      ensures IsHeap(Contents()) && multiset(Contents()) == multiset(old(Contents()))
    {
      var i: nat := len / 2;
      while i > 0
        invariant i <= len / 2
        invariant HeapFrom(Contents(), len, i)
        invariant multiset(Contents()) == multiset(old(Contents()))
      {
        i := i - 1;
        var _ := Down(i, len);
      }
    }

    // heap.Push
    method Push(x: Entry)
      requires Valid() && IsHeap(Contents())
      modifies this, data
      ensures Valid() && (data == old(data) || fresh(data))
      ensures IsHeap(Contents()) && multiset(Contents()) == multiset(old(Contents())) + multiset{x}
      ensures len == old(len) + 1
    {
      AppendHeap(Contents(), x);
      Append(x);
      assert multiset(Contents()) == multiset(old(Contents())) + multiset{x};
      Up(len - 1);
    }

    // heap.Pop
    method Pop() returns (x: Entry)
      requires Valid() && IsHeap(Contents()) && len > 0
      modifies this, data
      ensures Valid() && data == old(data)
      ensures IsHeap(Contents()) && multiset(Contents()) + multiset{x} == multiset(old(Contents()))
      ensures x == old(Contents())[0] && Least(x, multiset(old(Contents())))
      ensures len == old(len) - 1
    {
      ghost var before := Contents();
      var n := len - 1;
      ghost var swapped := Swapped(before, 0, n);
      RootReplaced(before);
      Swap(0, n);
      assert Contents() == swapped;
      var _ := Down(0, n);
      ghost var after := Contents();
      assert multiset(after) == multiset(swapped) && after[n..] == swapped[n..];
      x := RemoveLast();
      assert Contents() == after[..n] && x == after[n];
      PopResult(before, after, n);
      RootIsMinimum(before);
    }
  }
}
