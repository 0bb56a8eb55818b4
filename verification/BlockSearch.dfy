/** Binary search for a block of a given epoch. */
module BlockSearch {
  import opened Prelude

  const HALF_LIMIT: nat := 0x8000_0000

  /** `epochs[n - 1]` is the epoch of block `n`; later blocks never have an earlier epoch. */
  ghost predicate NonDecreasing(epochs: seq<nat>) {
    forall i, j :: 0 <= i < j < |epochs| ==> epochs[i] <= epochs[j]
  }

  function EpochOf(epochs: seq<nat>, block: nat): nat
    requires 1 <= block <= |epochs|
  {
    epochs[block - 1]
  }

  /** Whether the search, continued on `left` to `right`, adds two numbers to 2^32 or more. */
  function Overflows(epochs: seq<nat>, epoch: nat, left: nat, right: nat): bool
    requires 1 <= left && right <= |epochs|
    decreases right + 1 - left
  {
    if left > right then false
    else if left + right >= U32_LIMIT then true
    else
      var middle := (left + right) / 2;
      if EpochOf(epochs, middle) < epoch then Overflows(epochs, epoch, middle + 1, right)
      else if EpochOf(epochs, middle) > epoch then Overflows(epochs, epoch, left, middle - 1)
      else false
  }

  predicate SearchOverflows(epochs: seq<nat>, epoch: nat) {
    Overflows(epochs, epoch, 1, |epochs|)
  }

  datatype SearchResult = Found(block: nat) | NotFound | ArithmeticOverflow

  /** No block outside `left` to `right` is of the epoch, if epochs never decrease. */
  ghost predicate Excluded(epochs: seq<nat>, epoch: nat, left: nat, right: nat) {
    NonDecreasing(epochs) ==> forall i :: 0 <= i < |epochs| && epochs[i] == epoch ==> left <= i + 1 <= right
  }

  lemma ExcludesThrough(epochs: seq<nat>, epoch: nat, left: nat, middle: nat, right: nat)
    requires Excluded(epochs, epoch, left, right) && left <= middle <= right
    requires 1 <= middle <= |epochs| && EpochOf(epochs, middle) != epoch
    ensures if EpochOf(epochs, middle) < epoch then Excluded(epochs, epoch, middle + 1, right)
            else Excluded(epochs, epoch, left, middle - 1)
  {
    if NonDecreasing(epochs) {
      forall i | 0 <= i < |epochs| && epochs[i] == epoch
        ensures if epochs[middle - 1] < epoch then middle <= i else i + 1 <= middle - 1
      {
        if i < middle - 1 {
          assert epochs[i] <= epochs[middle - 1];
        } else if middle - 1 < i {
          assert epochs[middle - 1] <= epochs[i];
        }
      }
    }
  }

  /** Finds some block of the epoch among blocks 1 to the best one. On epochs that never decrease a block is found if
      and only if there is one, unless a 32-bit addition overflows. */
  method FindAnyBlockInEpoch(epochs: seq<nat>, epoch: nat) returns (r: SearchResult)
    ensures r.ArithmeticOverflow? <==> SearchOverflows(epochs, epoch)
    ensures r.Found? ==> 1 <= r.block <= |epochs| && EpochOf(epochs, r.block) == epoch
    ensures NonDecreasing(epochs) && !r.ArithmeticOverflow? ==> (r.Found? <==> epoch in epochs)
  {
    var left, right := 1, |epochs|;
    while left <= right
      invariant 1 <= left <= |epochs| + 1 && 0 <= right <= |epochs|
      invariant Overflows(epochs, epoch, left, right) == SearchOverflows(epochs, epoch)
      invariant Excluded(epochs, epoch, left, right)
      decreases right + 1 - left
    {
      if left + right >= U32_LIMIT {
        return ArithmeticOverflow;
      }
      var middle := (left + right) / 2;
      assert left <= middle <= right && middle + 1 < U32_LIMIT;
      var blockEpoch := EpochOf(epochs, middle);
      if blockEpoch == epoch {
        return Found(middle);
      }
      ExcludesThrough(epochs, epoch, left, middle, right);
      if blockEpoch < epoch {
        left := middle + 1;
      } else {
        right := middle - 1;
      }
    }
    return NotFound;
  }

  lemma {:induction false} NoOverflowBelowHalf(epochs: seq<nat>, epoch: nat, left: nat, right: nat)
    requires 1 <= left && right <= |epochs| < HALF_LIMIT
    ensures !Overflows(epochs, epoch, left, right)
    decreases right + 1 - left
  {
    if left <= right {
      var middle := (left + right) / 2;
      if EpochOf(epochs, middle) < epoch {
        NoOverflowBelowHalf(epochs, epoch, middle + 1, right);
      } else if EpochOf(epochs, middle) > epoch {
        NoOverflowBelowHalf(epochs, epoch, left, middle - 1);
      }
    }
  }

  /** A search for an epoch after the best block's walks right up to the best block itself. */
  lemma {:induction false} WalksToBestBlock(epochs: seq<nat>, epoch: nat, left: nat)
    requires 1 <= left <= |epochs| && |epochs| >= HALF_LIMIT
    requires forall i :: 0 <= i < |epochs| ==> epochs[i] < epoch
    ensures Overflows(epochs, epoch, left, |epochs|)
    decreases |epochs| - left
  {
    var right := |epochs|;
    if left + right < U32_LIMIT {
      WalksToBestBlock(epochs, epoch, (left + right) / 2 + 1);
    }
  }

  /** On a chain of any given height, no search overflows if and only if the height is below 2^31. */
  lemma NoOverflowIffBelowHalf(epochs: seq<nat>)
    requires NonDecreasing(epochs)
    ensures (forall epoch: nat :: !SearchOverflows(epochs, epoch)) <==> |epochs| < HALF_LIMIT
  {
    if |epochs| < HALF_LIMIT {
      forall epoch: nat ensures !SearchOverflows(epochs, epoch) {
        NoOverflowBelowHalf(epochs, epoch, 1, |epochs|);
      }
    } else {
      var after := epochs[|epochs| - 1] + 1;
      WalksToBestBlock(epochs, after, 1);
      assert SearchOverflows(epochs, after);
    }
  }
}
