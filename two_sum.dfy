/**
  The reference Two Sum solution: one pass over nums with a value -> index
  map of the elements already seen. At index i it looks up target - nums[i];
  a hit returns [map[diff], i], a miss records nums[i] -> i (overwriting an
  earlier index of the same value). The whole list without a hit returns [].
*/
module TwoSum {
  import opened Wrappers

  /** nums[j] + nums[i] == target for two indices j < i. */
  predicate IsPair(nums: seq<int>, target: int, j: int, i: int) {
    0 <= j < i < |nums| && nums[j] + nums[i] == target
  }

  /** The largest index k < i with nums[k] == v: what the map holds for v
      when the loop reaches i. */
  function LastIndexBefore(nums: seq<int>, v: int, i: nat): Option<int>
    requires i <= |nums|
  {
    if i == 0 then None
    else if nums[i - 1] == v then Some(i - 1)
    else LastIndexBefore(nums, v, i - 1)
  }

  lemma {:induction false} LastIndexBeforeSpec(nums: seq<int>, v: int, i: nat)
    requires i <= |nums|
    ensures LastIndexBefore(nums, v, i).None? <==> forall k :: 0 <= k < i ==> nums[k] != v
    ensures LastIndexBefore(nums, v, i).Some? ==>
      var j := LastIndexBefore(nums, v, i).value;
      0 <= j < i && nums[j] == v && forall k :: j < k < i ==> nums[k] != v
  {
    if i > 0 && nums[i - 1] != v {
      LastIndexBeforeSpec(nums, v, i - 1);
    }
  }

  /** The answer the loop gives when it starts at index i with the map of the
      first i elements: the first i' >= i with a matching earlier element,
      paired with the last such element. */
  function FirstPairFrom(nums: seq<int>, target: int, i: nat): seq<int>
    requires i <= |nums|
    decreases |nums| - i
  {
    if i == |nums| then []
    else match LastIndexBefore(nums, target - nums[i], i)
      case Some(j) => [j, i]
      case None => FirstPairFrom(nums, target, i + 1)
  }

  /** The value twoSum returns. */
  function FirstPair(nums: seq<int>, target: int): seq<int>
  {
    FirstPairFrom(nums, target, 0)
  }

  lemma {:induction false} FirstPairFromSpec(nums: seq<int>, target: int, i: nat)
    requires i <= |nums|
    ensures var r := FirstPairFrom(nums, target, i);
      && (r == [] <==> forall q, p :: i <= q < |nums| && 0 <= p < q ==> nums[p] + nums[q] != target)
      && (r != [] ==>
            && |r| == 2 && i <= r[1] && IsPair(nums, target, r[0], r[1])
            && (forall q, p :: i <= q < r[1] && 0 <= p < q ==> nums[p] + nums[q] != target)
            && (forall p :: r[0] < p < r[1] ==> nums[p] + nums[r[1]] != target))
    decreases |nums| - i
  {
    if i < |nums| {
      LastIndexBeforeSpec(nums, target - nums[i], i);
      if LastIndexBefore(nums, target - nums[i], i).None? {
        FirstPairFromSpec(nums, target, i + 1);
      }
    }
  }

  /** What the reference solution promises: a returned pair [j, i] is sound
      (j < i, both in range, nums[j] + nums[i] == target); [] is returned
      exactly when no such pair exists; i is the smallest index with a
      matching earlier element; j is the last matching index before i. */
  lemma FirstPairSpec(nums: seq<int>, target: int)
    ensures var r := FirstPair(nums, target);
      && (r == [] <==> forall j, i :: 0 <= j < i < |nums| ==> nums[j] + nums[i] != target)
      && (r != [] ==>
            && |r| == 2 && IsPair(nums, target, r[0], r[1])
            && (forall i, j :: 0 <= j < i < r[1] ==> nums[j] + nums[i] != target)
            && (forall j :: r[0] < j < r[1] ==> nums[j] + nums[r[1]] != target))
  {
    FirstPairFromSpec(nums, target, 0);
  }

  /** Solution.twoSum: the single pass with prev_map. nums is a value and is
      not changed. */
  method TwoSum(nums: seq<int>, target: int) returns (r: seq<int>)
    ensures r == FirstPair(nums, target)
    ensures r == [] <==> forall j, i :: 0 <= j < i < |nums| ==> nums[j] + nums[i] != target
    ensures r != [] ==> |r| == 2 && IsPair(nums, target, r[0], r[1])
  {
    var prevMap: map<int, int> := map[];
    var i := 0;
    while i < |nums|
      invariant 0 <= i <= |nums|
      invariant forall v :: v in prevMap <==> LastIndexBefore(nums, v, i).Some?
      invariant forall v :: v in prevMap ==> LastIndexBefore(nums, v, i) == Some(prevMap[v])
      invariant FirstPairFrom(nums, target, i) == FirstPair(nums, target)
    {
      var n := nums[i];
      var diff := target - n;
      if diff in prevMap {
        r := [prevMap[diff], i];
        FirstPairSpec(nums, target);
        return;
      }
      prevMap := prevMap[n := i];
      i := i + 1;
    }
    r := [];
    FirstPairSpec(nums, target);
  }
}
