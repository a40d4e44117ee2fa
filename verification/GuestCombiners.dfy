/** The guest's combiners in fixed-width integers, each proved to compute what the unbounded one
    does.  Every conversion and operation on a newtype is checked for overflow. */
module GuestCombiners {
  import opened Results
  import opened ByteStrings
  import opened Sorting
  import opened Combiners
  import opened Trimming

  newtype u32 = x: int | 0 <= x < 0x1_0000_0000
  newtype u64 = x: int | 0 <= x < 0x1_0000_0000_0000_0000
  newtype u128 = x: int | 0 <= x < 0x1_0000_0000_0000_0000_0000_0000_0000_0000
  newtype i64 = x: int | -0x8000_0000_0000_0000 <= x < 0x8000_0000_0000_0000
  newtype i128 = x: int | -0x8000_0000_0000_0000_0000_0000_0000_0000 <= x < 0x8000_0000_0000_0000_0000_0000_0000_0000

  /** Slice lengths fit the guest's 32-bit `usize`. */
  const USIZE_LIMIT := U32_LIMIT

  datatype WeightedValue = WeightedValue(value: i64, weight: u64)

  datatype CategoricalVote = CategoricalVote(category: u32, weight: u64)

  function WeightedView(branches: seq<WeightedValue>): (r: seq<Weighted>)
    ensures |r| == |branches|
    ensures forall i :: 0 <= i < |r| ==> r[i] == Weighted(branches[i].value as int, branches[i].weight as int)
  {
    seq(|branches|, i requires 0 <= i < |branches| => Weighted(branches[i].value as int, branches[i].weight as int))
  }

  function VoteView(votes: seq<CategoricalVote>): (r: seq<Vote>)
    ensures |r| == |votes|
    ensures forall i :: 0 <= i < |r| ==> r[i] == Vote(votes[i].category as int, votes[i].weight as int)
  {
    seq(|votes|, i requires 0 <= i < |votes| => Vote(votes[i].category as int, votes[i].weight as int))
  }

  function IntView(values: seq<i64>): (r: seq<int>)
    ensures |r| == |values|
    ensures forall i :: 0 <= i < |r| ==> r[i] == values[i] as int
  {
    seq(|values|, i requires 0 <= i < |values| => values[i] as int)
  }

  /** The result read as an unbounded integer. */
  function Widen(r: Result<u32, CombinerError>): Result<nat, CombinerError> {
    match r
    case Ok(v) => Ok(v as int)
    case Err(e) => Err(e)
  }

  function CheckedAddU128(a: u128, b: u128): Result<u128, CombinerError> {
    if a as int + b as int < 0x1_0000_0000_0000_0000_0000_0000_0000_0000 then Ok(a + b) else Err(Overflow)
  }

  function CheckedAddI128(a: i128, b: i128): Result<i128, CombinerError> {
    if -0x8000_0000_0000_0000_0000_0000_0000_0000 <= a as int + b as int < 0x8000_0000_0000_0000_0000_0000_0000_0000
    then Ok(a + b) else Err(Overflow)
  }

  const I128_LIMIT := 0x8000_0000_0000_0000_0000_0000_0000_0000

  /** Called where its two intermediate results fit an i128; arguments it refuses first may be anything. */
  method GuestRoundHalfUp(numerator: i128, denominator: i128) returns (r: Result<u32, CombinerError>)
    requires denominator > 0 && numerator >= 0 ==>
               numerator as int * 2 + denominator as int < I128_LIMIT && denominator as int * 2 < I128_LIMIT
    ensures Widen(r) == RoundHalfUp(numerator as int, denominator as int)
  {
    if denominator <= 0 {
      return Err(ZeroWeight);
    }
    if numerator < 0 {
      return Err(ValueOutOfRange);
    }
    var rounded := (numerator * 2 + denominator) / (denominator * 2);
    if rounded < 0 || rounded > BPS_SCALE as i128 {
      return Err(ResultOutOfRange);
    }
    r := Ok(rounded as u32);
  }

  lemma ProductFits(v: int, w: int)
    requires InBps(v) && 0 <= w < U64_LIMIT
    ensures 0 <= v * w <= BPS_SCALE * U64_LIMIT
  {
    MulMonotone(0, v, if w > 0 then w else 1);
    MulMonotone(v, BPS_SCALE, if w > 0 then w else 1);
  }

  method GuestWeightedMeanBps(branches: seq<WeightedValue>) returns (r: Result<u32, CombinerError>)
    requires |branches| < USIZE_LIMIT
    ensures Widen(r) == WeightedMean(WeightedView(branches))
  {
    if branches == [] {
      return Err(EmptyBranches);
    }
    ghost var view := WeightedView(branches);
    var totalWeight: u128 := 0;
    var weightedSum: i128 := 0;
    var i := 0;
    while i < |branches|
      invariant 0 <= i <= |branches|
      invariant forall j :: 0 <= j < i ==> InBps(view[j].value)
      invariant totalWeight as int == TotalWeight(view[..i]) <= i * U64_LIMIT
      invariant weightedSum as int == WeightedSum(view[..i])
      invariant 0 <= weightedSum as int <= i * (BPS_SCALE * U64_LIMIT)
    {
      var branch := branches[i];
      if !(0 <= branch.value <= BPS_SCALE as i64) {
        assert ValuesOf(view)[i] == view[i].value;
        return Err(ValueOutOfRange);
      }
      ProductFits(branch.value as int, branch.weight as int);
      WeightSumsStep(view, i);
      var total := CheckedAddU128(totalWeight, branch.weight as u128);
      if total.Err? {
        return Err(Overflow);
      }
      totalWeight := total.value;
      var sum := CheckedAddI128(weightedSum, branch.value as i128 * branch.weight as i128);
      if sum.Err? {
        return Err(Overflow);
      }
      weightedSum := sum.value;
      i := i + 1;
    }
    assert view[..i] == view;
    assert AllInBps(ValuesOf(view));
    if totalWeight == 0 {
      return Err(ZeroWeight);
    }
    r := GuestRoundHalfUp(weightedSum, totalWeight as i128);
  }

  method GuestTrimCountFromBps(branchCount: nat, trimBps: u32) returns (r: Result<nat, CombinerError>)
    requires branchCount < USIZE_LIMIT
    ensures r == TrimCount(branchCount, trimBps as int)
    ensures r.Ok? ==> r.value < USIZE_LIMIT
  {
    if trimBps >= BPS_SCALE as u32 {
      return Err(ValueOutOfRange);
    }
    MulMonotone(branchCount, USIZE_LIMIT, if trimBps > 0 then trimBps as int else 1);
    assert branchCount * trimBps as int <= branchCount * BPS_SCALE;
    r := Ok((branchCount as u128 * trimBps as u128 / BPS_SCALE as u128) as int);
  }

  lemma {:induction false} FilterSplit(a: seq<Item>, b: seq<Item>, dropped: set<nat>)
    ensures Filter(a + b, dropped) == Filter(a, dropped) + Filter(b, dropped)
  {
    if a == [] {
      assert a + b == b;
    } else {
      assert (a + b)[1..] == a[1..] + b;
      FilterSplit(a[1..], b, dropped);
    }
  }

  lemma FilterStep(items: seq<Item>, i: nat, dropped: set<nat>)
    requires i < |items|
    ensures Filter(items[..i + 1], dropped)
         == Filter(items[..i], dropped) + if items[i].index in dropped then [] else [items[i]]
  {
    assert items[..i + 1] == items[..i] + [items[i]];
    FilterSplit(items[..i], [items[i]], dropped);
    assert [items[i]][1..] == [];
  }

  lemma RejectedStep(values: seq<int>, n: nat)
    requires n + 1 < |values|
    ensures RejectionList(values)[n].index < |values|
    ensures Rejected(values, n + 1) == Rejected(values, n) + {RejectionList(values)[n].index}
  {
    hide RejectionList, Sort;
    var items := RejectionList(values);
    assert items[n] in multiset(items);
    var k :| 0 <= k < |values| && Enumerate(values)[k] == items[n];
    hide Enumerate;
    forall x: nat ensures x in Rejected(values, n + 1) <==> x in Rejected(values, n) + {items[n].index} {
      if x in Rejected(values, n + 1) {
        var i :| 0 <= i < n + 1 && items[i].index == x;
      }
    }
  }

  /** Clears the flag of each rejected position in a boolean vector. */
  method MarkKept(values: seq<i64>, outlierCount: nat) returns (keep: array<bool>)
    requires outlierCount < |values|
    ensures fresh(keep) && keep.Length == |values|
    ensures forall i :: 0 <= i < |values| ==> keep[i] == (i !in Rejected(IntView(values), outlierCount))
  {
    ghost var view := IntView(values);
    var indexed := Sort(Enumerate(IntView(values)), ValueLeq);
    var median := indexed[|indexed| / 2].value;
    indexed := Sort(indexed, RejectOrder(median));
    assert indexed == RejectionList(view);
    keep := new bool[|values|](i => true);
    var n := 0;
    hide Sort, RejectionList, Median, Rejected;
    while n < outlierCount
      invariant 0 <= n <= outlierCount
      invariant forall i :: 0 <= i < |values| ==> keep[i] == (i !in Rejected(view, n))
    {
      RejectedStep(view, n);
      keep[indexed[n].index] := false;
      n := n + 1;
    }
  }

  lemma KeptStep(items: seq<Item>, i: nat, dropped: set<nat>, kept: seq<int>)
    requires i < |items| && kept == Values(Filter(items[..i], dropped))
    ensures items[i].index in dropped ==> kept == Values(Filter(items[..i + 1], dropped))
    ensures items[i].index !in dropped ==> kept + [items[i].value] == Values(Filter(items[..i + 1], dropped))
  {
    FilterStep(items, i, dropped);
    hide Filter;
    assert Filter(items[..i], dropped) + [] == Filter(items[..i], dropped);
  }

  lemma IntViewAppend(kept: seq<i64>, v: i64)
    ensures IntView(kept + [v]) == IntView(kept) + [v as int]
  {
  }

  method CollectMarked(values: seq<i64>, keep: array<bool>, ghost dropped: set<nat>) returns (kept: seq<i64>)
    requires keep.Length == |values|
    requires forall i :: 0 <= i < |values| ==> keep[i] == (i !in dropped)
    ensures IntView(kept) == Values(Filter(Enumerate(IntView(values)), dropped))
    ensures |kept| <= |values|
  {
    ghost var all := Enumerate(IntView(values));
    kept := [];
    assert all[..0] == [] && Values(Filter(all[..0], dropped)) == [];
    hide Filter;
    for i := 0 to |values|
      invariant |kept| <= i
      invariant IntView(kept) == Values(Filter(all[..i], dropped))
    {
      KeptStep(all, i, dropped, IntView(kept));
      if keep[i] {
        IntViewAppend(kept, values[i]);
        kept := kept + [values[i]];
      }
    }
    assert all[..|values|] == all;
  }

  /** The retained values, in their original order. */
  method GuestRetainedValues(values: seq<i64>, outlierCount: nat) returns (r: Result<seq<i64>, CombinerError>)
    ensures r.Err? ==> Retained(IntView(values), outlierCount) == Err(r.error)
    ensures r.Ok? ==> Retained(IntView(values), outlierCount) == Ok(IntView(r.value))
    ensures r.Ok? ==> |r.value| <= |values|
  {
    if values == [] {
      return Err(EmptyBranches);
    }
    if outlierCount >= |values| {
      return Err(TrimCountTooLarge);
    }
    hide Rejected, Filter;
    var keep := MarkKept(values, outlierCount);
    var kept := CollectMarked(values, keep, Rejected(IntView(values), outlierCount));
    r := Ok(kept);
  }

  lemma SumStep(values: seq<int>, i: nat)
    requires i < |values|
    ensures Sum(values[..i + 1]) == Sum(values[..i]) + values[i]
  {
    assert values[..i + 1] == values[..i] + [values[i]];
    SumSplit(values[..i], [values[i]]);
    assert [values[i]][1..] == [];
  }

  method GuestSum(retained: seq<i64>) returns (r: Result<i128, CombinerError>)
    requires |retained| < USIZE_LIMIT
    ensures r == Err(ValueOutOfRange) <==> !AllInBps(IntView(retained))
    ensures AllInBps(IntView(retained)) ==>
              r.Ok? && r.value as int == Sum(IntView(retained)) && 0 <= r.value as int <= |retained| * BPS_SCALE
  {
    ghost var view := IntView(retained);
    var sum: i128 := 0;
    var i := 0;
    while i < |retained|
      invariant 0 <= i <= |retained|
      invariant forall j :: 0 <= j < i ==> InBps(view[j])
      invariant sum as int == Sum(view[..i])
      invariant 0 <= sum as int <= i * BPS_SCALE
    {
      if !(0 <= retained[i] <= BPS_SCALE as i64) {
        assert !InBps(view[i]);
        return Err(ValueOutOfRange);
      }
      SumStep(view, i);
      sum := sum + retained[i] as i128;
      i := i + 1;
    }
    assert view[..i] == view;
    r := Ok(sum);
  }

  method GuestTrimmedMeanBps(values: seq<i64>, outlierCount: nat) returns (r: Result<u32, CombinerError>)
    requires |values| < USIZE_LIMIT
    ensures Widen(r) == TrimmedMean(IntView(values), outlierCount)
  {
    hide Retained, Sum, AllInBps, RoundHalfUp;
    var kept := GuestRetainedValues(values, outlierCount);
    if kept.Err? {
      return Err(kept.error);
    }
    var sum := GuestSum(kept.value);
    if sum.Err? {
      return Err(sum.error);
    }
    r := GuestRoundHalfUp(sum.value, |kept.value| as i128);
  }

  datatype Total = Total(category: u32, total: u128)

  function TallyView(totals: seq<Total>): (r: Tally)
    ensures |r| == |totals|
    ensures forall i :: 0 <= i < |r| ==> r[i] == Vote(totals[i].category as int, totals[i].total as int)
  {
    seq(|totals|, i requires 0 <= i < |totals| => Vote(totals[i].category as int, totals[i].total as int))
  }

  /** One vote of the linear-search tally. */
  method GuestAddVote(totals: seq<Total>, vote: CategoricalVote, ghost bound: nat) returns (next: seq<Total>)
    requires bound < USIZE_LIMIT * U64_LIMIT
    requires forall j :: 0 <= j < |totals| ==> totals[j].total as int <= bound
    ensures TallyView(next) == AddVote(TallyView(totals), Vote(vote.category as int, vote.weight as int))
    ensures forall j :: 0 <= j < |next| ==> next[j].total as int <= bound + U64_LIMIT
  {
    if vote.weight == 0 {
      return totals;
    }
    var k := 0;
    while k < |totals| && totals[k].category != vote.category
      invariant 0 <= k <= |totals|
      invariant forall j :: 0 <= j < k ==> totals[j].category != vote.category
    {
      k := k + 1;
    }
    FindIsFirst(TallyView(totals), vote.category as int, k);
    if k < |totals| {
      next := totals[k := Total(vote.category, totals[k].total + vote.weight as u128)];
    } else {
      next := totals + [Total(vote.category, vote.weight as u128)];
    }
  }

  lemma TallyStep(votes: seq<Vote>, i: nat)
    requires i < |votes|
    ensures TallyVotes(votes[..i + 1]) == AddVote(TallyVotes(votes[..i]), votes[i])
  {
    assert votes[..i + 1][..i] == votes[..i];
  }

  method GuestMajorityVote(votes: seq<CategoricalVote>) returns (r: Result<u32, CombinerError>)
    requires |votes| < USIZE_LIMIT
    ensures Widen(r) == MajorityResult(VoteView(votes))
  {
    if votes == [] {
      return Err(EmptyBranches);
    }
    ghost var view := VoteView(votes);
    var totals: seq<Total> := [];
    var i := 0;
    while i < |votes|
      invariant 0 <= i <= |votes|
      invariant TallyView(totals) == TallyVotes(view[..i])
      invariant forall j :: 0 <= j < |totals| ==> totals[j].total as int <= i * U64_LIMIT
    {
      TallyStep(view, i);
      totals := GuestAddVote(totals, votes[i], i * U64_LIMIT);
      i := i + 1;
    }
    assert view[..i] == view;
    if totals == [] {
      return Err(ZeroWeight);
    }
    var winner := Sort(TallyView(totals), TallyLeq)[0];
    assert winner in multiset(TallyView(totals));
    r := Ok(winner.category as u32);
  }

  lemma {:induction false} FindIsFirst(tally: Tally, category: nat, k: nat)
    requires k <= |tally|
    requires forall j :: 0 <= j < k ==> tally[j].category != category
    requires k < |tally| ==> tally[k].category == category
    ensures Find(tally, category) == k
  {
    if k > 0 {
      FindIsFirst(tally[1..], category, k - 1);
    }
  }
}
