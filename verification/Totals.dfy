/** What the entries of `allocs`, and the losses, amount to for one stack. */
module Totals {
  import opened Words
  import opened Accounting
  import opened Sums

  // The packed increment of an allocation, its low 40 bits, its size, or just one.
  datatype Quantity = Word | LowBytes | Bytes | Count

  function Measure(q: Quantity, size: U64): nat {
    match q
    case Word => Increment(size)
    case LowBytes => size % 0x100_0000_0000
    case Bytes => size
    case Count => 1
  }

  function KeyOf(info: AllocInfo): U64 {
    StackKey(info.stackId)
  }

  // What one entry contributes to a stack.
  function Share(q: Quantity, key: U64, info: AllocInfo): int {
    if KeyOf(info) == key then Measure(q, info.size) else 0
  }

  function AtStack(q: Quantity, key: U64): AllocInfo -> int {
    (info: AllocInfo) => Share(q, key, info)
  }

  ghost function Live(q: Quantity, key: U64, allocs: Allocs): int {
    Sum(allocs, AtStack(q, key))
  }

  function Lost(q: Quantity, key: U64, lost: seq<Loss>): int {
    if lost == [] then 0
    else Lost(q, key, lost[..|lost| - 1]) + Share(q, key, lost[|lost| - 1].info)
  }

  lemma LostSnoc(q: Quantity, key: U64, lost: seq<Loss>, loss: Loss)
    ensures Lost(q, key, lost + [loss]) == Lost(q, key, lost) + Share(q, key, loss.info)
  {
    assert (lost + [loss])[..|lost|] == lost;
  }

  // A loss at a stack weighs at least as much there as nothing at all.
  lemma {:induction false} LostNonNegative(q: Quantity, key: U64, lost: seq<Loss>)
    ensures forall i :: 0 <= i < |lost| ==> 0 <= Share(q, key, lost[i].info) <= Lost(q, key, lost)
    ensures Lost(q, key, lost) >= 0
    decreases |lost|
  {
    if lost == [] {
    } else {
      LostNonNegative(q, key, lost[..|lost| - 1]);
    }
  }

  lemma LiveNonNegative(q: Quantity, key: U64, allocs: Allocs)
    ensures forall a :: a in allocs ==> 0 <= Share(q, key, allocs[a]) <= Live(q, key, allocs)
    ensures Live(q, key, allocs) >= 0
  {
    SumNonNegative(allocs, AtStack(q, key));
  }

  // The packed words add up field by field: the byte fields below, the counts above.
  lemma LiveWordSplits(key: U64, allocs: Allocs)
    ensures Live(Word, key, allocs) == Live(LowBytes, key, allocs) + 0x100_0000_0000 * Live(Count, key, allocs)
  {
    SumLinear(allocs, AtStack(Word, key), AtStack(LowBytes, key), AtStack(Count, key), 0x100_0000_0000);
  }

  lemma {:induction false} LostWordSplits(key: U64, lost: seq<Loss>)
    ensures Lost(Word, key, lost) == Lost(LowBytes, key, lost) + 0x100_0000_0000 * Lost(Count, key, lost)
    decreases |lost|
  {
    if lost == [] {
    } else {
      LostWordSplits(key, lost[..|lost| - 1]);
    }
  }
}
