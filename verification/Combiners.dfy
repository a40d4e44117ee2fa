/** The three combiners in unbounded integers, as `aggregate.py` computes them. */
module Combiners {
  import opened Results
  import opened Sorting

  const BPS_SCALE := 10_000

  datatype CombinerError =
    | EmptyBranches
    | ZeroWeight
    | NegativeTrimCount
    | TrimCountTooLarge
    | UnknownCombiner
    | ValueOutOfRange
    | ResultOutOfRange
    | Overflow

  datatype Weighted = Weighted(value: int, weight: nat)

  datatype Vote = Vote(category: nat, weight: nat)

  predicate InBps(v: int) {
    0 <= v <= BPS_SCALE
  }

  // ----- rounding

  function RoundHalfUp(numerator: int, denominator: int): Result<nat, CombinerError> {
    if denominator <= 0 then Err(ZeroWeight)
    else if numerator < 0 then Err(ValueOutOfRange)
    else
      var value := (numerator * 2 + denominator) / (denominator * 2);
      if value < 0 || value > BPS_SCALE then Err(ResultOutOfRange) else Ok(value)
  }

  /** `r` is the integer nearest to `numerator / denominator`, a tie going up. */
  ghost predicate NearestTiesUp(numerator: int, denominator: int, r: int) {
    (2 * r - 1) * denominator <= 2 * numerator < (2 * r + 1) * denominator
  }

  lemma MulMonotone(a: int, b: int, d: int)
    requires d > 0
    ensures a <= b ==> a * d <= b * d
  {
    if a <= b {
      assert 0 <= (b - a) * d == b * d - a * d;
    }
  }

  lemma NearestTiesUpUnique(numerator: int, denominator: int, r: int, q: int)
    requires denominator > 0
    requires NearestTiesUp(numerator, denominator, r) && NearestTiesUp(numerator, denominator, q)
    ensures r == q
  {
    MulMonotone(2 * r + 1, 2 * q - 1, denominator);
    MulMonotone(2 * q + 1, 2 * r - 1, denominator);
  }

  lemma DivisionBrackets(n: int, d: int)
    requires d > 0
    ensures (n / d) * d <= n < (n / d) * d + d
  {
  }

  lemma RoundedIsNearest(numerator: int, denominator: int)
    requires denominator > 0
    ensures NearestTiesUp(numerator, denominator, (numerator * 2 + denominator) / (denominator * 2))
  {
    var value := (numerator * 2 + denominator) / (denominator * 2);
    DivisionBrackets(numerator * 2 + denominator, denominator * 2);
    assert value * (denominator * 2) == (2 * value) * denominator;
    assert (2 * value - 1) * denominator == (2 * value) * denominator - denominator;
    assert (2 * value + 1) * denominator == (2 * value) * denominator + denominator;
  }

  lemma NearestStaysBetween(numerator: int, denominator: int, lo: int, hi: int, r: int)
    requires denominator > 0 && lo * denominator <= numerator <= hi * denominator
    requires NearestTiesUp(numerator, denominator, r)
    ensures lo <= r <= hi
  {
    MulMonotone(2 * r + 1, 2 * lo - 1, denominator);
    MulMonotone(2 * hi + 1, 2 * r - 1, denominator);
    assert (2 * lo - 1) * denominator == 2 * (lo * denominator) - denominator;
    assert (2 * hi + 1) * denominator == 2 * (hi * denominator) + denominator;
  }

  /** For a quotient between two basis-point bounds, rounding succeeds, is the nearest integer and
      stays between the bounds: neither range error can come out of an average. */
  lemma RoundHalfUpIsNearest(numerator: int, denominator: int, lo: int, hi: int)
    requires denominator > 0
    requires 0 <= lo <= hi <= BPS_SCALE
    requires lo * denominator <= numerator <= hi * denominator
    ensures RoundHalfUp(numerator, denominator).Ok?
    ensures NearestTiesUp(numerator, denominator, RoundHalfUp(numerator, denominator).value)
    ensures lo <= RoundHalfUp(numerator, denominator).value <= hi
  {
    MulMonotone(0, lo, denominator);
    RoundedIsNearest(numerator, denominator);
    NearestStaysBetween(numerator, denominator, lo, hi, (numerator * 2 + denominator) / (denominator * 2));
    hide NearestTiesUp;
  }

  /** Rounding on any input: it gives the nearest integer with ties up when that is a basis-point value, and
      otherwise says whether the divisor, the dividend or the result is at fault. */
  lemma RoundHalfUpExactly(numerator: int, denominator: int)
    ensures forall r: nat :: RoundHalfUp(numerator, denominator) == Ok(r)
              <==> denominator > 0 && numerator >= 0 && r <= 10_000 && NearestTiesUp(numerator, denominator, r)
    ensures RoundHalfUp(numerator, denominator).Err? ==>
              RoundHalfUp(numerator, denominator).error
              == if denominator <= 0 then ZeroWeight else if numerator < 0 then ValueOutOfRange else ResultOutOfRange
  {
    if denominator > 0 && numerator >= 0 {
      RoundedIsNearest(numerator, denominator);
      forall r: nat | NearestTiesUp(numerator, denominator, r) ensures r == (numerator * 2 + denominator) / (denominator * 2) {
        NearestTiesUpUnique(numerator, denominator, r, (numerator * 2 + denominator) / (denominator * 2));
      }
      NearestIsNatural(numerator, denominator, (numerator * 2 + denominator) / (denominator * 2));
    }
    hide NearestTiesUp;
  }

  lemma NearestIsNatural(numerator: int, denominator: int, r: int)
    requires denominator > 0 && numerator >= 0 && NearestTiesUp(numerator, denominator, r)
    ensures r >= 0
  {
    MulMonotone(2 * r + 1, -1, denominator);
  }

  // ----- weighted mean

  function TotalWeight(values: seq<Weighted>): nat {
    if values == [] then 0 else values[0].weight + TotalWeight(values[1..])
  }

  function WeightedSum(values: seq<Weighted>): int {
    if values == [] then 0 else values[0].value * values[0].weight + WeightedSum(values[1..])
  }

  predicate AllInBps(values: seq<int>) {
    forall i :: 0 <= i < |values| ==> InBps(values[i])
  }

  function ValuesOf(values: seq<Weighted>): (r: seq<int>)
    ensures |r| == |values|
    ensures forall i :: 0 <= i < |r| ==> r[i] == values[i].value
  {
    seq(|values|, i requires 0 <= i < |values| => values[i].value)
  }

  function WeightedMean(values: seq<Weighted>): Result<nat, CombinerError> {
    if values == [] then Err(EmptyBranches)
    else if !AllInBps(ValuesOf(values)) then Err(ValueOutOfRange)
    else RoundHalfUp(WeightedSum(values), TotalWeight(values))
  }

  lemma {:induction false} WeightSumsSplit(a: seq<Weighted>, b: seq<Weighted>)
    ensures TotalWeight(a + b) == TotalWeight(a) + TotalWeight(b)
    ensures WeightedSum(a + b) == WeightedSum(a) + WeightedSum(b)
  {
    if a == [] {
      assert a + b == b;
    } else {
      assert (a + b)[1..] == a[1..] + b;
      WeightSumsSplit(a[1..], b);
    }
  }

  lemma WeightSumsStep(values: seq<Weighted>, i: nat)
    requires i < |values|
    ensures TotalWeight(values[..i + 1]) == TotalWeight(values[..i]) + values[i].weight
    ensures WeightedSum(values[..i + 1]) == WeightedSum(values[..i]) + values[i].value * values[i].weight
  {
    assert values[..i + 1] == values[..i] + [values[i]];
    WeightSumsSplit(values[..i], [values[i]]);
    assert [values[i]][1..] == [];
  }

  method WeightedMeanBps(values: seq<Weighted>) returns (r: Result<nat, CombinerError>)
    ensures r == WeightedMean(values)
  {
    if values == [] {
      return Err(EmptyBranches);
    }
    var totalWeight: nat := 0;
    var weightedSum := 0;
    var i := 0;
    while i < |values|
      invariant 0 <= i <= |values|
      invariant AllInBps(ValuesOf(values[..i]))
      invariant totalWeight == TotalWeight(values[..i])
      invariant weightedSum == WeightedSum(values[..i])
    {
      if !InBps(values[i].value) {
        assert ValuesOf(values)[i] == values[i].value;
        return Err(ValueOutOfRange);
      }
      WeightSumsStep(values, i);
      totalWeight := totalWeight + values[i].weight;
      weightedSum := weightedSum + values[i].value * values[i].weight;
      i := i + 1;
      assert forall j :: 0 <= j < i ==> ValuesOf(values[..i])[j] == values[j].value;
    }
    assert values[..i] == values;
    r := RoundHalfUp(weightedSum, totalWeight);
  }

  /** The weighted mean on any list: which fault it reports, and that there is no other. */
  lemma WeightedMeanVerdict(values: seq<Weighted>)
    ensures WeightedMean(values)
            == if values == [] then Err(EmptyBranches)
               else if exists i :: 0 <= i < |values| && !(0 <= values[i].value <= 10_000) then Err(ValueOutOfRange)
               else if forall i :: 0 <= i < |values| ==> values[i].weight == 0 then Err(ZeroWeight)
               else RoundHalfUp(WeightedSum(values), TotalWeight(values))
    ensures WeightedMean(values).Err? ==> WeightedMean(values).error in {EmptyBranches, ValueOutOfRange, ZeroWeight}
  {
    NoWeight(values);
    if AllInBps(ValuesOf(values)) {
      assert forall i :: 0 <= i < |values| ==> InBps(ValuesOf(values)[i]);
      if values != [] && TotalWeight(values) > 0 {
        assert BoundedBy(ValuesOf(values), 0, BPS_SCALE);
        WeightedMeanIsMeanOfRepeated(values, 0, BPS_SCALE);
      }
    }
  }

  lemma {:induction false} NoWeight(values: seq<Weighted>)
    ensures TotalWeight(values) == 0 <==> forall i :: 0 <= i < |values| ==> values[i].weight == 0
  {
    if values != [] {
      NoWeight(values[1..]);
      assert forall i :: 0 < i < |values| ==> values[i] == values[1..][i - 1];
    }
  }

  /** Each value written out as many times as it weighs. */
  function Repeated(values: seq<Weighted>): (r: seq<int>)
  {
    if values == [] then []
    else seq(values[0].weight, i => values[0].value) + Repeated(values[1..])
  }

  function Sum(values: seq<int>): int {
    if values == [] then 0 else values[0] + Sum(values[1..])
  }

  lemma {:induction false} SumSplit(a: seq<int>, b: seq<int>)
    ensures Sum(a + b) == Sum(a) + Sum(b)
  {
    if a == [] {
      assert a + b == b;
    } else {
      assert (a + b)[1..] == a[1..] + b;
      SumSplit(a[1..], b);
    }
  }

  lemma {:induction false} SumOfConstant(n: nat, v: int)
    ensures Sum(seq(n, i => v)) == v * n
  {
    if n > 0 {
      assert seq(n, i => v)[1..] == seq(n - 1, i => v);
      SumOfConstant(n - 1, v);
      assert v * n == v * (n - 1) + v;
    }
  }

  lemma {:induction false} RepeatedCountsWeights(values: seq<Weighted>)
    ensures |Repeated(values)| == TotalWeight(values)
    ensures Sum(Repeated(values)) == WeightedSum(values)
    ensures forall v :: v in Repeated(values) ==> v in ValuesOf(values)
  {
    if values != [] {
      RepeatedCountsWeights(values[1..]);
      SumOfConstant(values[0].weight, values[0].value);
      SumSplit(seq(values[0].weight, i => values[0].value), Repeated(values[1..]));
      assert ValuesOf(values)[0] == values[0].value;
      assert ValuesOf(values)[1..] == ValuesOf(values[1..]);
    }
  }

  /** The plain mean of a list, rounded the same way. */
  function Mean(values: seq<int>): Result<nat, CombinerError> {
    RoundHalfUp(Sum(values), |values|)
  }

  ghost predicate BoundedBy(values: seq<int>, lo: int, hi: int) {
    forall v :: v in values ==> lo <= v <= hi
  }

  lemma MulSuccessor(x: int, n: nat)
    ensures x * (n + 1) == x * n + x
  {
  }

  lemma {:induction false} SumBetween(values: seq<int>, lo: int, hi: int)
    requires BoundedBy(values, lo, hi)
    ensures lo * |values| <= Sum(values) <= hi * |values|
  {
    if values != [] {
      var rest := values[1..];
      assert values[0] in values;
      assert forall v :: v in rest ==> v in values;
      SumBetween(rest, lo, hi);
      MulSuccessor(lo, |rest|);
      MulSuccessor(hi, |rest|);
    }
  }

  /** A mean of basis-point values is a basis-point value between any bounds on them. */
  lemma MeanIsNearest(values: seq<int>, lo: int, hi: int)
    requires values != [] && 0 <= lo <= hi <= BPS_SCALE && BoundedBy(values, lo, hi)
    ensures Mean(values).Ok?
    ensures NearestTiesUp(Sum(values), |values|, Mean(values).value)
    ensures lo <= Mean(values).value <= hi
  {
    SumBetween(values, lo, hi);
    RoundHalfUpIsNearest(Sum(values), |values|, lo, hi);
  }

  /** The weighted mean is the mean of the repeated list, hence nearest, ties up, and between the
      smallest and the largest value that carries weight. */
  lemma WeightedMeanIsMeanOfRepeated(values: seq<Weighted>, lo: int, hi: int)
    requires values != [] && AllInBps(ValuesOf(values))
    requires 0 <= lo <= hi <= BPS_SCALE && BoundedBy(ValuesOf(values), lo, hi)
    ensures WeightedMean(values) == Mean(Repeated(values))
    ensures TotalWeight(values) == 0 ==> WeightedMean(values) == Err(ZeroWeight)
    ensures TotalWeight(values) > 0 ==>
              && WeightedMean(values).Ok?
              && NearestTiesUp(WeightedSum(values), TotalWeight(values), WeightedMean(values).value)
              && lo <= WeightedMean(values).value <= hi
  {
    RepeatedCountsWeights(values);
    if TotalWeight(values) > 0 {
      assert Repeated(values) != [];
      MeanIsNearest(Repeated(values), lo, hi);
    }
  }

  // ----- majority vote

  function WeightFor(votes: seq<Vote>, category: nat): nat {
    if votes == [] then 0
    else (if votes[0].category == category then votes[0].weight else 0) + WeightFor(votes[1..], category)
  }

  /** The category with the greatest total, the smallest such category on a tie. */
  ghost predicate IsPlurality(votes: seq<Vote>, winner: nat) {
    && WeightFor(votes, winner) > 0
    && forall c: nat ::
         && WeightFor(votes, c) <= WeightFor(votes, winner)
         && (c < winner ==> WeightFor(votes, c) < WeightFor(votes, winner))
  }

  lemma PluralityUnique(votes: seq<Vote>, a: nat, b: nat)
    requires IsPlurality(votes, a) && IsPlurality(votes, b)
    ensures a == b
  {
    assert WeightFor(votes, a) == WeightFor(votes, b);
  }

  lemma {:induction false} WeightForSplit(a: seq<Vote>, b: seq<Vote>, c: nat)
    ensures WeightFor(a + b, c) == WeightFor(a, c) + WeightFor(b, c)
  {
    if a == [] {
      assert a + b == b;
    } else {
      assert (a + b)[1..] == a[1..] + b;
      WeightForSplit(a[1..], b, c);
    }
  }

  lemma WeightForStep(votes: seq<Vote>, i: nat, c: nat)
    requires i < |votes|
    ensures WeightFor(votes[..i + 1], c)
         == WeightFor(votes[..i], c) + if votes[i].category == c then votes[i].weight else 0
  {
    assert votes[..i + 1] == votes[..i] + [votes[i]];
    WeightForSplit(votes[..i], [votes[i]], c);
    assert [votes[i]][1..] == [];
  }

  lemma WeightForWithout(votes: seq<Vote>, j: nat, c: nat)
    requires j < |votes|
    ensures WeightFor(votes, c) == WeightFor(Without(votes, j), c) + if votes[j].category == c then votes[j].weight else 0
  {
    WeightForStep(votes, j, c);
    WeightForSplit(votes[..j + 1], votes[j + 1..], c);
    WeightForSplit(votes[..j], votes[j + 1..], c);
    assert votes == votes[..j + 1] + votes[j + 1..];
  }

  lemma {:induction false} WeightForPermutation(a: seq<Vote>, b: seq<Vote>, c: nat)
    requires multiset(a) == multiset(b)
    ensures WeightFor(a, c) == WeightFor(b, c)
  {
    if a == [] {
      assert |multiset(b)| == 0;
    } else {
      assert a[0] in multiset(b);
      var j :| 0 <= j < |b| && b[j] == a[0];
      WeightForWithout(a, 0, c);
      WeightForWithout(b, j, c);
      hide WeightFor;
      WeightForPermutation(Without(a, 0), Without(b, j), c);
    }
  }

  /** Totals per category in the order the categories were first seen. */
  type Tally = seq<Vote>

  ghost predicate TallyOf(tally: Tally, votes: seq<Vote>) {
    && (forall i, j :: 0 <= i < j < |tally| ==> tally[i].category != tally[j].category)
    && (forall i :: 0 <= i < |tally| ==> tally[i].weight > 0 && tally[i].weight == WeightFor(votes, tally[i].category))
    && (forall c: nat :: WeightFor(votes, c) > 0 ==> exists i :: 0 <= i < |tally| && tally[i].category == c)
  }

  /** Order of `sorted(..., key=(-total, category))` and of the guest's `sort_by`. */
  predicate TallyLeq(a: Vote, b: Vote) {
    a.weight > b.weight || (a.weight == b.weight && a.category <= b.category)
  }

  lemma SortedTallyHeadWins(tally: Tally, votes: seq<Vote>)
    requires tally != [] && TallyOf(tally, votes)
    ensures IsPlurality(votes, Sort(tally, TallyLeq)[0].category)
  {
    var sorted := Sort(tally, TallyLeq);
    SortSorts(tally, TallyLeq);
    assert sorted[0] in multiset(tally);
    var top := sorted[0];
    forall c: nat
      ensures WeightFor(votes, c) <= WeightFor(votes, top.category)
      ensures c < top.category ==> WeightFor(votes, c) < WeightFor(votes, top.category)
    {
      if WeightFor(votes, c) > 0 {
        var i :| 0 <= i < |tally| && tally[i].category == c;
        assert tally[i] in multiset(sorted);
        var j :| 0 <= j < |sorted| && sorted[j] == tally[i];
        assert j == 0 || TallyLeq(sorted[0], sorted[j]);
      }
    }
  }

  /** The position of a category in the tally, or its length. */
  function Find(tally: Tally, category: nat): (k: nat)
    ensures k <= |tally|
    ensures k < |tally| ==> tally[k].category == category
    ensures forall i :: 0 <= i < k ==> tally[i].category != category
  {
    if tally == [] || tally[0].category == category then 0
    else 1 + Find(tally[1..], category)
  }

  /** One vote added: a weightless vote is skipped, a new category goes last. */
  function AddVote(tally: Tally, vote: Vote): Tally {
    var k := Find(tally, vote.category);
    if vote.weight == 0 then tally
    else if k < |tally| then tally[k := Vote(vote.category, tally[k].weight + vote.weight)]
    else tally + [vote]
  }

  function TallyVotes(votes: seq<Vote>): Tally {
    if votes == [] then []
    else AddVote(TallyVotes(votes[..|votes| - 1]), votes[|votes| - 1])
  }

  function MajorityResult(votes: seq<Vote>): Result<nat, CombinerError> {
    if votes == [] then Err(EmptyBranches)
    else
      var tally := TallyVotes(votes);
      if tally == [] then Err(ZeroWeight) else Ok(Sort(tally, TallyLeq)[0].category)
  }

  lemma {:induction false} TallyVotesIsTally(votes: seq<Vote>)
    ensures TallyOf(TallyVotes(votes), votes)
  {
    if votes != [] {
      var n := |votes| - 1;
      var before, vote := votes[..n], votes[n];
      TallyVotesIsTally(before);
      assert votes[..n + 1] == votes;
      forall c: nat
        ensures WeightFor(votes, c) == WeightFor(before, c) + if vote.category == c then vote.weight else 0
      {
        WeightForStep(votes, n, c);
      }
      AddVoteKeepsTally(TallyVotes(before), before, vote, votes);
    }
  }

  lemma AddVoteKeepsTally(tally: Tally, before: seq<Vote>, vote: Vote, after: seq<Vote>)
    requires TallyOf(tally, before)
    requires forall c: nat :: WeightFor(after, c) == WeightFor(before, c) + if vote.category == c then vote.weight else 0
    ensures TallyOf(AddVote(tally, vote), after)
  {
    var k := Find(tally, vote.category);
    if vote.weight != 0 && k < |tally| {
      RaiseKeepsTally(tally, before, vote, after, k);
    } else if vote.weight != 0 {
      AppendKeepsTally(tally, before, vote, after);
    }
  }

  lemma RaiseKeepsTally(tally: Tally, before: seq<Vote>, vote: Vote, after: seq<Vote>, k: nat)
    requires TallyOf(tally, before) && k < |tally| && tally[k].category == vote.category
    requires forall c: nat :: WeightFor(after, c) == WeightFor(before, c) + if vote.category == c then vote.weight else 0
    ensures TallyOf(tally[k := Vote(vote.category, tally[k].weight + vote.weight)], after)
  {
    var next := tally[k := Vote(vote.category, tally[k].weight + vote.weight)];
    assert forall i :: 0 <= i < |tally| ==> next[i].category == tally[i].category;
    forall c: nat | WeightFor(after, c) > 0 ensures exists i :: 0 <= i < |next| && next[i].category == c {
      if c == vote.category {
        assert next[k].category == c;
      } else {
        var i :| 0 <= i < |tally| && tally[i].category == c;
        assert next[i].category == c;
      }
    }
  }

  lemma AppendKeepsTally(tally: Tally, before: seq<Vote>, vote: Vote, after: seq<Vote>)
    requires TallyOf(tally, before) && vote.weight > 0
    requires forall i :: 0 <= i < |tally| ==> tally[i].category != vote.category
    requires forall c: nat :: WeightFor(after, c) == WeightFor(before, c) + if vote.category == c then vote.weight else 0
    ensures TallyOf(tally + [vote], after)
  {
    var next := tally + [vote];
    assert next[|tally|] == vote;
    assert WeightFor(before, vote.category) == 0;
    forall c: nat | WeightFor(after, c) > 0 ensures exists i :: 0 <= i < |next| && next[i].category == c {
      if c == vote.category {
        assert next[|tally|].category == c;
      } else {
        var i :| 0 <= i < |tally| && tally[i].category == c;
        assert next[i].category == c;
      }
    }
  }

  /** The vote has a winner exactly when some vote weighs something, and the winner is the plurality. */
  lemma MajorityResultIsPlurality(votes: seq<Vote>)
    ensures forall w: nat :: MajorityResult(votes) == Ok(w) <==> IsPlurality(votes, w)
    ensures MajorityResult(votes) == Err(EmptyBranches) <==> votes == []
    ensures MajorityResult(votes) == Err(ZeroWeight) <==> votes != [] && forall c: nat :: WeightFor(votes, c) == 0
  {
    TallyVotesIsTally(votes);
    var tally := TallyVotes(votes);
    if tally != [] {
      SortedTallyHeadWins(tally, votes);
      assert WeightFor(votes, tally[0].category) > 0;
      forall w: nat | IsPlurality(votes, w) ensures MajorityResult(votes) == Ok(w) {
        PluralityUnique(votes, w, MajorityResult(votes).value);
      }
    }
  }

  /** The order of the votes does not matter. */
  lemma MajorityResultOfPermutation(a: seq<Vote>, b: seq<Vote>)
    requires multiset(a) == multiset(b)
    ensures MajorityResult(a) == MajorityResult(b)
  {
    assert |multiset(a)| == |a| && |multiset(b)| == |b|;
    forall c: nat ensures WeightFor(a, c) == WeightFor(b, c) {
      WeightForPermutation(a, b, c);
    }
    MajorityResultIsPlurality(a);
    MajorityResultIsPlurality(b);
    assert forall w: nat :: IsPlurality(a, w) <==> IsPlurality(b, w);
    assert MajorityResult(a).Ok? ==> IsPlurality(a, MajorityResult(a).value);
    assert MajorityResult(b).Ok? ==> IsPlurality(b, MajorityResult(b).value);
  }

  lemma DictionaryIsTally(totals: map<nat, nat>, order: seq<nat>, items: Tally, votes: seq<Vote>)
    requires order != [] && forall c :: c in totals <==> c in order
    requires forall a, b :: 0 <= a < b < |order| ==> order[a] != order[b]
    requires forall c: nat :: c in totals ==> totals[c] == WeightFor(votes, c) && totals[c] > 0
    requires forall c: nat :: c !in totals ==> WeightFor(votes, c) == 0
    requires |items| == |order| && forall j :: 0 <= j < |order| ==> items[j] == Vote(order[j], totals[order[j]])
    ensures items != [] && TallyOf(items, votes)
  {
    forall c: nat | WeightFor(votes, c) > 0 ensures exists j :: 0 <= j < |items| && items[j].category == c {
      var j :| 0 <= j < |order| && order[j] == c;
      assert items[j].category == c;
    }
  }

  /** The dictionary form of `aggregate.py`: `order` is the insertion order Python's dict keeps. */
  method MajorityVote(votes: seq<Vote>) returns (r: Result<nat, CombinerError>)
    ensures r == MajorityResult(votes)
  {
    if votes == [] {
      return Err(EmptyBranches);
    }
    var totals: map<nat, nat> := map[];
    var order: seq<nat> := [];
    var i := 0;
    while i < |votes|
      invariant 0 <= i <= |votes|
      invariant forall c :: c in totals <==> c in order
      invariant forall a, b :: 0 <= a < b < |order| ==> order[a] != order[b]
      invariant forall c: nat :: c in totals ==> totals[c] == WeightFor(votes[..i], c) && totals[c] > 0
      invariant forall c: nat :: c !in totals ==> WeightFor(votes[..i], c) == 0
    {
      var vote := votes[i];
      forall c: nat
        ensures WeightFor(votes[..i + 1], c)
             == WeightFor(votes[..i], c) + if vote.category == c then vote.weight else 0
      {
        WeightForStep(votes, i, c);
      }
      if vote.weight != 0 {
        var seen := if vote.category in totals then totals[vote.category] else 0;
        if vote.category !in totals {
          order := order + [vote.category];
        }
        totals := totals[vote.category := seen + vote.weight];
      }
      i := i + 1;
    }
    assert votes[..i] == votes;
    if order == [] {
      MajorityResultIsPlurality(votes);
      return Err(ZeroWeight);
    }
    var items := seq(|order|, j requires 0 <= j < |order| => Vote(order[j], totals[order[j]]));
    DictionaryIsTally(totals, order, items, votes);
    hide WeightFor, TallyOf;
    SortedTallyHeadWins(items, votes);
    r := Ok(Sort(items, TallyLeq)[0].category);
    MajorityResultIsPlurality(votes);
  }
}
