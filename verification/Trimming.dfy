/** Outlier rejection: drop the values farthest from the value at index `len / 2` of the sorted list. */
module Trimming {
  import opened Results
  import opened Sorting
  import opened Combiners

  datatype Item = Item(index: nat, value: int)

  function Distance(v: int, median: int): nat {
    if v < median then median - v else v - median
  }

  predicate IntLeq(a: int, b: int) {
    a <= b
  }

  predicate ValueLeq(a: Item, b: Item) {
    a.value <= b.value
  }

  /** Distance descending, then value ascending, then index ascending. */
  predicate RejectLeq(median: int, a: Item, b: Item) {
    var da, db := Distance(a.value, median), Distance(b.value, median);
    da > db || (da == db && (a.value < b.value || (a.value == b.value && a.index <= b.index)))
  }

  function RejectOrder(median: int): (Item, Item) -> bool {
    (a, b) => RejectLeq(median, a, b)
  }

  function Enumerate(values: seq<int>): (r: seq<Item>)
    ensures |r| == |values|
    ensures forall i :: 0 <= i < |r| ==> r[i] == Item(i, values[i])
  {
    seq(|values|, i requires 0 <= i < |values| => Item(i, values[i]))
  }

  function Values(items: seq<Item>): (r: seq<int>)
    ensures |r| == |items|
    ensures forall i :: 0 <= i < |r| ==> r[i] == items[i].value
  {
    seq(|items|, i requires 0 <= i < |items| => items[i].value)
  }

  /** The value the rejection measures from: index `len / 2` after sorting. */
  function Median(values: seq<int>): int
    requires values != []
  {
    Sort(Enumerate(values), ValueLeq)[|values| / 2].value
  }

  function RejectionList(values: seq<int>): (r: seq<Item>)
    requires values != []
    ensures |r| == |values|
    ensures multiset(r) == multiset(Enumerate(values))
  {
    Sort(Sort(Enumerate(values), ValueLeq), RejectOrder(Median(values)))
  }

  /** The positions the rejection drops. */
  function Rejected(values: seq<int>, count: nat): set<nat>
    requires count < |values|
  {
    set i | 0 <= i < count :: RejectionList(values)[i].index
  }

  function Filter(items: seq<Item>, dropped: set<nat>): seq<Item> {
    if items == [] then []
    else if items[0].index in dropped then Filter(items[1..], dropped)
    else [items[0]] + Filter(items[1..], dropped)
  }

  function Retained(values: seq<int>, count: int): Result<seq<int>, CombinerError> {
    if values == [] then Err(EmptyBranches)
    else if count < 0 then Err(NegativeTrimCount)
    else if count >= |values| then Err(TrimCountTooLarge)
    else Ok(Values(Filter(Enumerate(values), Rejected(values, count))))
  }

  function TrimmedMean(values: seq<int>, count: int): Result<nat, CombinerError> {
    var retained :- Retained(values, count);
    if !AllInBps(retained) then Err(ValueOutOfRange) else Mean(retained)
  }

  function TrimCount(branchCount: nat, trimBps: int): Result<nat, CombinerError> {
    if trimBps < 0 || trimBps >= BPS_SCALE then Err(ValueOutOfRange)
    else Ok(branchCount * trimBps / BPS_SCALE)
  }

  lemma PartBelowWhole(n: int, part: int, whole: int)
    requires n > 0 && part < whole
    ensures n * part < n * whole
  {
    MulMonotone(part + 1, whole, n);
    assert (part + 1) * n == n * part + n && whole * n == n * whole;
  }

  /** The trim count the parameters ask for always leaves a branch. */
  lemma TrimCountLeavesABranch(branchCount: nat, trimBps: int)
    requires branchCount > 0 && TrimCount(branchCount, trimBps).Ok?
    ensures TrimCount(branchCount, trimBps).value < branchCount
  {
    PartBelowWhole(branchCount, trimBps, BPS_SCALE);
  }

  // ----- the reference: peel the farther end of the sorted list

  /** What is left of a sorted list after dropping, `count` times, whichever end is farther from
      `median`; the lower end on a tie. */
  function Block(sorted: seq<int>, median: int, count: nat): (r: seq<int>)
    requires count <= |sorted|
    ensures |r| == |sorted| - count
    decreases count
  {
    if count == 0 then sorted
    else
      var last := |sorted| - 1;
      if Distance(sorted[0], median) >= Distance(sorted[last], median)
      then Block(sorted[1..], median, count - 1)
      else Block(sorted[..last], median, count - 1)
  }

  /** Where the block starts in the sorted list. */
  function BlockStart(sorted: seq<int>, median: int, count: nat): (lo: nat)
    requires count <= |sorted|
    ensures lo <= count
    decreases count
  {
    if count == 0 then 0
    else
      var last := |sorted| - 1;
      if Distance(sorted[0], median) >= Distance(sorted[last], median)
      then 1 + BlockStart(sorted[1..], median, count - 1)
      else BlockStart(sorted[..last], median, count - 1)
  }

  lemma SliceOfTail(s: seq<int>, lo: nat, size: nat)
    requires 1 + lo + size <= |s|
    ensures s[1..][lo..lo + size] == s[1 + lo..1 + lo + size]
  {
  }

  lemma SliceOfInit(s: seq<int>, lo: nat, size: nat)
    requires lo + size < |s|
    ensures s[..|s| - 1][lo..lo + size] == s[lo..lo + size]
  {
  }

  lemma {:induction false} BlockIsContiguous(sorted: seq<int>, median: int, count: nat)
    requires count <= |sorted|
    ensures var lo := BlockStart(sorted, median, count);
            Block(sorted, median, count) == sorted[lo..lo + |sorted| - count]
    decreases count
  {
    hide Distance;
    if count == 0 {
      assert sorted[0..|sorted|] == sorted;
    } else if Distance(sorted[0], median) >= Distance(sorted[|sorted| - 1], median) {
      BlockIsContiguous(sorted[1..], median, count - 1);
      SliceOfTail(sorted, BlockStart(sorted[1..], median, count - 1), |sorted| - count);
    } else {
      var init := sorted[..|sorted| - 1];
      BlockIsContiguous(init, median, count - 1);
      SliceOfInit(sorted, BlockStart(init, median, count - 1), |sorted| - count);
    }
  }

  lemma BlockIsSorted(sorted: seq<int>, median: int, count: nat)
    requires count <= |sorted| && Sorted(sorted, IntLeq)
    ensures Sorted(Block(sorted, median, count), IntLeq)
    ensures forall v :: v in Block(sorted, median, count) ==> v in sorted
  {
    BlockIsContiguous(sorted, median, count);
    hide Block, BlockStart;
  }

  lemma {:induction false} BlockKeepsMedian(sorted: seq<int>, median: int, count: nat)
    requires count < |sorted| && median in sorted
    ensures median in Block(sorted, median, count)
    decreases count
  {
    if count != 0 {
      var last := |sorted| - 1;
      var i :| 0 <= i < |sorted| && sorted[i] == median;
      if Distance(sorted[0], median) >= Distance(sorted[last], median) {
        assert sorted[1..][if i > 0 then i - 1 else last - 1] == median;
        BlockKeepsMedian(sorted[1..], median, count - 1);
      } else {
        assert sorted[..last][i] == median;
        BlockKeepsMedian(sorted[..last], median, count - 1);
      }
    }
  }

  // ----- the rejection order peels the same ends

  lemma ValuesWithout(items: seq<Item>, j: nat)
    requires j < |items|
    ensures multiset(Values(items)) == multiset(Values(Without(items, j))) + multiset{items[j].value}
  {
    var values := Values(items);
    assert Values(Without(items, j)) == Without(values, j);
    assert values[j] in multiset(values);
  }

  lemma {:induction false} ValuesOfPermutation(a: seq<Item>, b: seq<Item>)
    requires multiset(a) == multiset(b)
    ensures multiset(Values(a)) == multiset(Values(b))
    decreases |a|
  {
    if a == [] {
      assert |multiset(b)| == 0;
    } else {
      assert a[0] in multiset(b);
      var j :| 0 <= j < |b| && b[j] == a[0];
      ValuesOfPermutation(Without(a, 0), Without(b, j));
      ValuesWithout(a, 0);
      ValuesWithout(b, j);
    }
  }

  lemma SortsAreOrders(median: int)
    ensures TotalOrder(IntLeq)
    ensures TotalPreorder(ValueLeq)
    ensures TotalOrder(RejectOrder(median))
  {
    var le := RejectOrder(median);
    forall x: Item, y: Item | le(x, y) && le(y, x) ensures x == y {
      assert x.value == y.value && x.index == y.index;
    }
  }

  /** The first item to be rejected is an end of the sorted list. */
  lemma FirstRejectedIsAnEnd(items: seq<Item>, sorted: seq<int>, median: int)
    requires items != [] && Sorted(items, RejectOrder(median)) && Sorted(sorted, IntLeq)
    requires multiset(Values(items)) == multiset(sorted)
    ensures |sorted| == |items|
    ensures items[0].value
         == if Distance(sorted[0], median) >= Distance(sorted[|sorted| - 1], median)
            then sorted[0] else sorted[|sorted| - 1]
  {
    assert |multiset(sorted)| == |sorted| && |multiset(Values(items))| == |items|;
    var last := |sorted| - 1;
    var first := items[0].value;
    assert forall j :: 0 <= j < |items| ==> RejectLeq(median, items[0], items[j]);
    assert forall j :: 0 <= j < |sorted| ==> sorted[0] <= sorted[j] <= sorted[last];
    hide Sorted;
    assert first in multiset(sorted) by { assert Values(items)[0] == first; }
    assert sorted[0] in multiset(Values(items)) && sorted[last] in multiset(Values(items));
    var i :| 0 <= i < |items| && Values(items)[i] == sorted[0];
    var j :| 0 <= j < |items| && Values(items)[j] == sorted[last];
    assert RejectLeq(median, items[0], items[i]) && RejectLeq(median, items[0], items[j]);
    var k :| 0 <= k < |sorted| && sorted[k] == first;
    assert sorted[0] <= first <= sorted[last];
  }

  /** Rejecting the first item peels the farther end off the sorted list. */
  lemma PeelOne(items: seq<Item>, sorted: seq<int>, median: int)
    requires items != [] && Sorted(items, RejectOrder(median)) && Sorted(sorted, IntLeq)
    requires multiset(Values(items)) == multiset(sorted)
    ensures |sorted| == |items| && Sorted(items[1..], RejectOrder(median))
    ensures var rest := Block(sorted, median, 1); Sorted(rest, IntLeq) && multiset(Values(items[1..])) == multiset(rest)
  {
    FirstRejectedIsAnEnd(items, sorted, median);
    SortedTail(items, RejectOrder(median));
    SortedTail(sorted, IntLeq);
    SortedInit(sorted, IntLeq);
    hide Sorted, Values;
    if items[0].value == sorted[0] {
      PeelLow(items, sorted);
    }
    if items[0].value == sorted[|sorted| - 1] {
      PeelHigh(items, sorted);
    }
  }

  lemma BlockOne(sorted: seq<int>, median: int, count: nat)
    requires 0 < count <= |sorted|
    ensures |Block(sorted, median, 1)| == |sorted| - 1
    ensures Block(sorted, median, count) == Block(Block(sorted, median, 1), median, count - 1)
  {
  }

  lemma {:induction false} RejectionPeelsEnds(items: seq<Item>, sorted: seq<int>, median: int, count: nat)
    requires Sorted(items, RejectOrder(median)) && Sorted(sorted, IntLeq)
    requires multiset(Values(items)) == multiset(sorted)
    requires count <= |items|
    ensures |sorted| == |items|
    ensures multiset(Values(items[count..])) == multiset(Block(sorted, median, count))
    decreases count
  {
    hide Sorted;
    if count == 0 {
      assert |multiset(sorted)| == |sorted| && |multiset(Values(items))| == |items|;
      assert items[0..] == items;
    } else {
      PeelOne(items, sorted, median);
      BlockOne(sorted, median, count);
      hide Block, Values;
      RejectionPeelsEnds(items[1..], Block(sorted, median, 1), median, count - 1);
      assert items[1..][count - 1..] == items[count..];
    }
  }

  lemma PeelLow(items: seq<Item>, sorted: seq<int>)
    requires items != [] && sorted != [] && items[0].value == sorted[0]
    requires multiset(Values(items)) == multiset(sorted)
    ensures multiset(Values(items[1..])) == multiset(sorted[1..])
  {
    ValuesWithout(items, 0);
    assert items[1..] == Without(items, 0);
    WithoutRestores(sorted, 0);
    assert sorted[1..] == Without(sorted, 0);
  }

  lemma PeelHigh(items: seq<Item>, sorted: seq<int>)
    requires items != [] && sorted != [] && items[0].value == sorted[|sorted| - 1]
    requires multiset(Values(items)) == multiset(sorted)
    ensures multiset(Values(items[1..])) == multiset(sorted[..|sorted| - 1])
  {
    ValuesWithout(items, 0);
    assert items[1..] == Without(items, 0);
    WithoutRestores(sorted, |sorted| - 1);
    assert sorted[..|sorted| - 1] == Without(sorted, |sorted| - 1);
  }

  // ----- filtering by position

  lemma {:induction false} FilterCounts(items: seq<Item>, dropped: set<nat>, x: Item)
    ensures multiset(Filter(items, dropped))[x] == if x.index in dropped then 0 else multiset(items)[x]
  {
    if items != [] {
      FilterCounts(items[1..], dropped, x);
      assert items == [items[0]] + items[1..];
    }
  }

  lemma FilterOfPermutation(a: seq<Item>, b: seq<Item>, dropped: set<nat>)
    requires multiset(a) == multiset(b)
    ensures multiset(Filter(a, dropped)) == multiset(Filter(b, dropped))
  {
    forall x: Item ensures multiset(Filter(a, dropped))[x] == multiset(Filter(b, dropped))[x] {
      FilterCounts(a, dropped, x);
      FilterCounts(b, dropped, x);
    }
  }

  lemma {:induction false} FilterDropsPrefix(items: seq<Item>, dropped: set<nat>, count: nat)
    requires count <= |items|
    requires forall i :: 0 <= i < count ==> items[i].index in dropped
    requires forall i :: count <= i < |items| ==> items[i].index !in dropped
    ensures Filter(items, dropped) == items[count..]
  {
    if items != [] {
      FilterDropsPrefix(items[1..], dropped, if count > 0 then count - 1 else 0);
    }
  }

  lemma RejectionIndicesDistinct(values: seq<int>, i: nat, j: nat)
    requires i < j < |values|
    ensures RejectionList(values)[i].index != RejectionList(values)[j].index
    ensures RejectionList(values)[i].index < |values|
    ensures values[RejectionList(values)[i].index] == RejectionList(values)[i].value
  {
    var items := RejectionList(values);
    var all := Enumerate(values);
    assert items[i] in multiset(all) && items[j] in multiset(all);
    if items[i].index == items[j].index {
      assert items[i] == items[j];
      var p := items[i].index;
      CountDistinct(all, p);
      TwiceCounts(items, i, j);
    }
  }

  lemma CountDistinct(items: seq<Item>, p: nat)
    requires p < |items| && forall k :: 0 <= k < |items| ==> items[k].index == k
    ensures multiset(items)[items[p]] == 1
  {
    var rest := Without(items, p);
    assert items[p] !in rest;
    assert items[p] !in multiset(rest) && items[p] in multiset(items);
  }

  lemma TwiceCounts<T>(s: seq<T>, i: nat, j: nat)
    requires i < j < |s| && s[i] == s[j]
    ensures multiset(s)[s[i]] >= 2
  {
    assert Without(s, j)[i] == s[i];
  }

  // ----- main results

  lemma ValuesKeepSorted(items: seq<Item>)
    requires Sorted(items, ValueLeq)
    ensures Sorted(Values(items), IntLeq)
  {
    forall i, j | 0 <= i < j < |items| ensures IntLeq(Values(items)[i], Values(items)[j]) {
      assert ValueLeq(items[i], items[j]);
    }
  }

  /** The value rejection measures from is the middle of the sorted input. */
  lemma MedianIsMiddle(values: seq<int>)
    requires values != []
    ensures Median(values) == Sort(values, IntLeq)[|values| / 2]
    ensures Median(values) in values
  {
    SortsAreOrders(0);
    SortSorts(values, IntLeq);
    SortSorts(Enumerate(values), ValueLeq);
    var items := Sort(Enumerate(values), ValueLeq);
    ValuesKeepSorted(items);
    hide Sorted, Sort;
    ValuesOfPermutation(items, Enumerate(values));
    assert Values(Enumerate(values)) == values;
    SortedUnique(Values(items), Sort(values, IntLeq), IntLeq);
    assert Values(items)[|values| / 2] in multiset(values);
  }

  lemma RejectionListFacts(values: seq<int>)
    requires values != []
    ensures Sorted(RejectionList(values), RejectOrder(Median(values)))
    ensures multiset(Values(RejectionList(values))) == multiset(values)
  {
    SortsAreOrders(Median(values));
    SortSorts(Sort(Enumerate(values), ValueLeq), RejectOrder(Median(values)));
    ValuesOfPermutation(RejectionList(values), Enumerate(values));
    assert Values(Enumerate(values)) == values;
  }

  lemma RetainedMultiset(values: seq<int>, count: nat)
    requires count < |values|
    ensures Retained(values, count).Ok?
    ensures multiset(Retained(values, count).value)
         == multiset(Block(Sort(values, IntLeq), Median(values), count))
  {
    var items, dropped := RejectionList(values), Rejected(values, count);
    forall i | count <= i < |items| ensures items[i].index !in dropped {
      forall j | 0 <= j < count ensures items[j].index != items[i].index {
        RejectionIndicesDistinct(values, j, i);
      }
    }
    FilterDropsPrefix(items, dropped, count);
    FilterOfPermutation(items, Enumerate(values), dropped);
    ValuesOfPermutation(items[count..], Filter(Enumerate(values), dropped));
    RejectionListFacts(values);
    SortsAreOrders(Median(values));
    SortSorts(values, IntLeq);
    RejectionPeelsEnds(items, Sort(values, IntLeq), Median(values), count);
  }

  lemma SortedIs(s: seq<int>, block: seq<int>)
    requires Sorted(block, IntLeq) && multiset(s) == multiset(block)
    ensures Sort(s, IntLeq) == block && |s| == |block|
    ensures forall x :: x in block ==> x in s
  {
    hide Sorted, Sort;
    SortsAreOrders(0);
    SortSorts(s, IntLeq);
    assert |multiset(s)| == |s| && |multiset(block)| == |block|;
    SortedUnique(Sort(s, IntLeq), block, IntLeq);
    forall x | x in block ensures x in s {
      assert x in multiset(block);
    }
  }

  /** Trimming keeps `n - count` values; sorted, they are one contiguous block of the sorted input,
      the one left by peeling the farther end `count` times, and the median value is still in it. */
  lemma RetainedIsBlock(values: seq<int>, count: nat)
    requires count < |values|
    ensures Retained(values, count).Ok?
    ensures var kept, sorted := Retained(values, count).value, Sort(values, IntLeq);
            var lo := BlockStart(sorted, Median(values), count);
            && |kept| == |values| - count
            && Sort(kept, IntLeq) == Block(sorted, Median(values), count) == sorted[lo..lo + |values| - count]
            && Median(values) in kept
  {
    hide Sorted, Sort, Block, BlockStart, Retained, Median;
    RetainedMultiset(values, count);
    var kept, sorted := Retained(values, count).value, Sort(values, IntLeq);
    SortsAreOrders(0);
    SortSorts(values, IntLeq);
    MedianIsMiddle(values);
    BlockIsContiguous(sorted, Median(values), count);
    BlockKeepsMedian(sorted, Median(values), count);
    BlockIsSorted(sorted, Median(values), count);
    SortedIs(kept, Block(sorted, Median(values), count));
  }

  /** Exactly `count` positions are rejected, and none of them is nearer than a position kept. */
  lemma RejectedAreFarthest(values: seq<int>, count: nat)
    requires count < |values|
    ensures |Rejected(values, count)| == count
    ensures forall i :: i in Rejected(values, count) ==> i < |values|
    ensures forall i, j :: i in Rejected(values, count) && 0 <= j < |values| && j !in Rejected(values, count) ==>
              Distance(values[i], Median(values)) >= Distance(values[j], Median(values))
  {
    var items := RejectionList(values);
    RejectionListFacts(values);
    RejectedCount(values, count);
    forall i | i in Rejected(values, count) ensures i < |values| {
      var p :| 0 <= p < count && items[p].index == i;
      RejectionIndicesDistinct(values, p, |values| - 1);
    }
    forall i, j | i in Rejected(values, count) && 0 <= j < |values| && j !in Rejected(values, count)
      ensures i < |values| && Distance(values[i], Median(values)) >= Distance(values[j], Median(values))
    {
      var p :| 0 <= p < count && items[p].index == i;
      RejectionIndicesDistinct(values, p, |values| - 1);
      assert Enumerate(values)[j] in multiset(items);
      var q :| 0 <= q < |items| && items[q] == Item(j, values[j]);
      assert p < q;
      assert RejectLeq(Median(values), items[p], items[q]);
    }
  }

  /** A rejected position against one that is kept: the rejected value is farther from the median; as far, but
      smaller; or the same, and stands earlier. */
  predicate RejectedFirst(values: seq<int>, median: int, i: nat, j: nat)
    requires i < |values| && j < |values|
  {
    var di, dj := Distance(values[i], median), Distance(values[j], median);
    di > dj || (di == dj && (values[i] < values[j] || (values[i] == values[j] && i < j)))
  }

  /** Which positions are rejected, ties included: there is one set of `count` positions that come first. */
  lemma RejectedComeFirst(values: seq<int>, count: nat)
    requires count < |values|
    ensures forall i :: i in Rejected(values, count) ==> i < |values|
    ensures forall i, j :: i in Rejected(values, count) && 0 <= j < |values| && j !in Rejected(values, count) ==>
              RejectedFirst(values, Median(values), i, j)
  {
    var items := RejectionList(values);
    RejectionListFacts(values);
    RejectedAreFarthest(values, count);
    forall i, j | i in Rejected(values, count) && 0 <= j < |values| && j !in Rejected(values, count)
      ensures RejectedFirst(values, Median(values), i, j)
    {
      var p :| 0 <= p < count && items[p].index == i;
      RejectionIndicesDistinct(values, p, |values| - 1);
      assert Enumerate(values)[j] in multiset(items);
      var q :| 0 <= q < |items| && items[q] == Item(j, values[j]);
      assert p < q && i != j;
      assert RejectLeq(Median(values), items[p], items[q]);
    }
  }

  /** The items kept, as increasing positions in the list. */
  ghost predicate KeptAt(items: seq<Item>, dropped: set<nat>, kept: seq<Item>, at: seq<nat>) {
    && |at| == |kept| && (forall k, l :: 0 <= k < l < |at| ==> at[k] < at[l])
    && (forall k :: 0 <= k < |at| ==> at[k] < |items| && kept[k] == items[at[k]])
    && (forall i: nat :: i < |items| ==> (i in at <==> items[i].index !in dropped))
  }

  lemma FilterLast(items: seq<Item>, dropped: set<nat>)
    requires items != []
    ensures var n := |items| - 1;
            Filter(items, dropped) == Filter(items[..n], dropped) + if items[n].index in dropped then [] else [items[n]]
  {
    if |items| > 1 {
      FilterLast(items[1..], dropped);
      assert items[1..][..|items| - 2] == items[..|items| - 1][1..];
    }
  }

  lemma {:induction false} FilterKeeps(items: seq<Item>, dropped: set<nat>) returns (at: seq<nat>)
    ensures KeptAt(items, dropped, Filter(items, dropped), at)
    decreases |items|
  {
    at := [];
    if items != [] {
      var n := |items| - 1;
      FilterLast(items, dropped);
      hide Filter;
      var before := FilterKeeps(items[..n], dropped);
      at := before + if items[n].index in dropped then [] else [n];
      assert forall i :: 0 <= i < n ==> items[..n][i] == items[i];
    }
  }

  /** What is kept, position by position: the values at the positions not rejected, in order. */
  lemma RetainedPositions(values: seq<int>, count: nat) returns (at: seq<nat>)
    requires count < |values|
    ensures Retained(values, count).Ok? && |at| == |Retained(values, count).value|
    ensures forall k, l :: 0 <= k < l < |at| ==> at[k] < at[l]
    ensures forall k :: 0 <= k < |at| ==> at[k] < |values| && Retained(values, count).value[k] == values[at[k]]
    ensures forall i: nat :: i < |values| ==> (i in at <==> i !in Rejected(values, count))
  {
    hide Rejected, Filter;
    at := FilterKeeps(Enumerate(values), Rejected(values, count));
  }

  /** Trimming on any list: which fault it reports, and that there is no other. */
  lemma TrimmedMeanVerdict(values: seq<int>, count: int)
    ensures TrimmedMean(values, count).Err? ==>
              TrimmedMean(values, count).error
              == if values == [] then EmptyBranches
                 else if count < 0 then NegativeTrimCount
                 else if count >= |values| then TrimCountTooLarge
                 else ValueOutOfRange
    ensures TrimmedMean(values, count).Ok? <==>
              && values != [] && 0 <= count < |values|
              && forall v :: v in Retained(values, count).value ==> 0 <= v <= 10_000
  {
    if values != [] && 0 <= count < |values| {
      MeanOfRetained(values, count);
    }
    hide Filter, Rejected, Mean;
  }

  lemma KeepsSome(values: seq<int>, count: nat)
    requires count < |values|
    ensures Retained(values, count).Ok? && Retained(values, count).value != []
  {
    hide Retained, Sorted, Sort, Block, BlockStart, Median;
    RetainedIsBlock(values, count);
  }

  lemma MeanOfRetained(values: seq<int>, count: nat)
    requires count < |values|
    ensures Retained(values, count).Ok?
    ensures TrimmedMean(values, count).Ok? <==> forall v :: v in Retained(values, count).value ==> 0 <= v <= 10_000
    ensures TrimmedMean(values, count).Err? ==> TrimmedMean(values, count).error == ValueOutOfRange
  {
    KeepsSome(values, count);
    hide Retained, Mean;
    var kept := Retained(values, count).value;
    if AllInBps(kept) {
      forall v | v in kept ensures 0 <= v <= 10_000 {
        assert InBps(v);
      }
      assert BoundedBy(kept, 0, BPS_SCALE);
      MeanIsNearest(kept, 0, BPS_SCALE);
    } else {
      var i :| 0 <= i < |kept| && !InBps(kept[i]);
      assert kept[i] in kept;
    }
  }

  lemma {:induction false} RejectedCount(values: seq<int>, count: nat)
    requires count < |values|
    ensures |Rejected(values, count)| == count
  {
    hide Sorted, Sort;
    if count > 0 {
      RejectedCount(values, count - 1);
      var items := RejectionList(values);
      forall i | 0 <= i < count - 1 ensures items[i].index != items[count - 1].index {
        RejectionIndicesDistinct(values, i, count - 1);
      }
      assert Rejected(values, count) == Rejected(values, count - 1) + {items[count - 1].index};
    }
  }

  /** `a` is what is left of `b` after deleting some of its elements. */
  predicate Subsequence(a: seq<int>, b: seq<int>) {
    if a == [] then true
    else b != [] && (if a[0] == b[0] && Subsequence(a[1..], b[1..]) then true else Subsequence(a, b[1..]))
  }

  lemma {:induction false} FilterKeepsOrder(items: seq<Item>, dropped: set<nat>)
    ensures Subsequence(Values(Filter(items, dropped)), Values(items))
  {
    if items != [] {
      FilterKeepsOrder(items[1..], dropped);
      assert Values(items)[1..] == Values(items[1..]);
      var kept := Values(Filter(items, dropped));
      if items[0].index !in dropped {
        assert kept[1..] == Values(Filter(items[1..], dropped));
      }
    }
  }

  /** Retained values keep their original order. */
  lemma RetainedKeepsOrder(values: seq<int>, count: nat)
    requires count < |values|
    ensures Retained(values, count).Ok? && Subsequence(Retained(values, count).value, values)
  {
    FilterKeepsOrder(Enumerate(values), Rejected(values, count));
    assert Values(Enumerate(values)) == values;
  }

  lemma {:induction false} SumOfPermutation(a: seq<int>, b: seq<int>)
    requires multiset(a) == multiset(b)
    ensures Sum(a) == Sum(b)
  {
    if a == [] {
      assert |multiset(b)| == 0;
    } else {
      assert a[0] in multiset(b);
      var j :| 0 <= j < |b| && b[j] == a[0];
      assert a[1..] == Without(a, 0);
      SumOfPermutation(a[1..], Without(b, j));
      assert b == b[..j] + ([b[j]] + b[j + 1..]);
      SumSplit(b[..j], [b[j]] + b[j + 1..]);
      SumSplit(b[..j], b[j + 1..]);
      assert ([b[j]] + b[j + 1..])[1..] == b[j + 1..];
    }
  }

  lemma AllInBpsOfPermutation(a: seq<int>, b: seq<int>)
    requires multiset(a) == multiset(b) && AllInBps(a)
    ensures AllInBps(b)
  {
    forall i | 0 <= i < |b| ensures InBps(b[i]) {
      assert b[i] in multiset(a);
    }
  }

  /** The retained multiset, hence the trimmed mean, depends only on the multiset of inputs. */
  lemma TrimmedMeanOfPermutation(a: seq<int>, b: seq<int>, count: nat)
    requires multiset(a) == multiset(b) && count < |a|
    ensures count < |b|
    ensures Retained(a, count).Ok? && Retained(b, count).Ok?
    ensures multiset(Retained(a, count).value) == multiset(Retained(b, count).value)
    ensures TrimmedMean(a, count) == TrimmedMean(b, count)
  {
    hide Sorted, Sort;
    assert |multiset(a)| == |a| && |multiset(b)| == |b|;
    SortsAreOrders(0);
    SortOfPermutation(a, b, IntLeq);
    MedianIsMiddle(a);
    MedianIsMiddle(b);
    RetainedMultiset(a, count);
    RetainedMultiset(b, count);
    var x, y := Retained(a, count).value, Retained(b, count).value;
    assert |multiset(x)| == |x| && |multiset(y)| == |y|;
    SumOfPermutation(x, y);
    if AllInBps(x) {
      AllInBpsOfPermutation(x, y);
    } else if AllInBps(y) {
      AllInBpsOfPermutation(y, x);
    }
  }

  /** Over basis-point values the trimmed mean succeeds, is the nearest integer to the mean of the
      retained values, and stays within any bounds on the input. */
  lemma TrimmedMeanInRange(values: seq<int>, count: nat, lo: int, hi: int)
    requires count < |values| && 0 <= lo <= hi <= BPS_SCALE && BoundedBy(values, lo, hi)
    ensures TrimmedMean(values, count).Ok?
    ensures var kept := Retained(values, count).value;
            NearestTiesUp(Sum(kept), |kept|, TrimmedMean(values, count).value)
    ensures lo <= TrimmedMean(values, count).value <= hi
  {
    hide Sorted, Sort, Retained, Mean, Block, Median;
    RetainedIsBlock(values, count);
    var kept, sorted := Retained(values, count).value, Sort(values, IntLeq);
    RetainedMultiset(values, count);
    SortsAreOrders(0);
    SortSorts(values, IntLeq);
    BlockIsSorted(sorted, Median(values), count);
    forall v | v in kept ensures lo <= v <= hi && InBps(v) {
      assert v in multiset(Block(sorted, Median(values), count));
      assert v in multiset(sorted) && v in values;
    }
    assert AllInBps(kept);
    MeanIsNearest(kept, lo, hi);
  }
}
