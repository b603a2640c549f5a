/** The gas estimate: the median of recent priority fees, and a maximum fee with room for the base fee to
    rise. */
module Fees {
  import opened Common

  // ---- The median -------------------------------------------------------------------------------

  function Insert(x: int, sorted: seq<int>): seq<int> {
    if sorted == [] || x <= sorted[0] then [x] + sorted else [sorted[0]] + Insert(x, sorted[1..])
  }

  function Sort(values: seq<int>): seq<int> {
    if values == [] then [] else Insert(values[0], Sort(values[1..]))
  }

  function Middle(sorted: seq<int>): int
    requires sorted != []
  {
    var mid := |sorted| / 2;
    if |sorted| % 2 == 0 then (sorted[mid - 1] + sorted[mid]) / 2 else sorted[mid]
  }

  function Median(values: seq<int>): int
    requires values != []
  {
    SortLength(values);
    Middle(Sort(values))
  }

  ghost predicate Ascending(s: seq<int>) {
    forall i, j :: 0 <= i < j < |s| ==> s[i] <= s[j]
  }

  predicate Within(x: int, low: int, high: int) {
    low <= x <= high
  }

  function CountWithin(s: seq<int>, low: int, high: int): nat {
    if s == [] then 0 else (if Within(s[0], low, high) then 1 else 0) + CountWithin(s[1..], low, high)
  }

  lemma {:induction false} InsertAdds(x: int, sorted: seq<int>)
    ensures multiset(Insert(x, sorted)) == multiset(sorted) + multiset{x}
  {
    if sorted != [] && x > sorted[0] {
      InsertAdds(x, sorted[1..]);
      assert sorted == [sorted[0]] + sorted[1..];
    }
  }

  ghost predicate NoneBelow(s: seq<int>, low: int) {
    forall i :: 0 <= i < |s| ==> low <= s[i]
  }

  lemma {:induction false} InsertNoneBelow(x: int, sorted: seq<int>, low: int)
    requires low <= x && NoneBelow(sorted, low)
    ensures NoneBelow(Insert(x, sorted), low)
  {
    if sorted != [] && x > sorted[0] {
      InsertNoneBelow(x, sorted[1..], low);
    }
  }

  lemma PrependAscending(x: int, rest: seq<int>)
    requires Ascending(rest) && NoneBelow(rest, x)
    ensures Ascending([x] + rest)
  {
  }

  lemma {:induction false} InsertKeepsOrder(x: int, sorted: seq<int>)
    requires Ascending(sorted)
    ensures Ascending(Insert(x, sorted))
  {
    if sorted == [] || x <= sorted[0] {
      PrependAscending(x, sorted);
    } else {
      InsertKeepsOrder(x, sorted[1..]);
      InsertNoneBelow(x, sorted[1..], sorted[0]);
      PrependAscending(sorted[0], Insert(x, sorted[1..]));
    }
  }

  lemma {:induction false} InsertCounts(x: int, sorted: seq<int>, low: int, high: int)
    ensures CountWithin(Insert(x, sorted), low, high)
            == CountWithin(sorted, low, high) + if Within(x, low, high) then 1 else 0
  {
    if sorted != [] && x > sorted[0] {
      InsertCounts(x, sorted[1..], low, high);
    }
  }

  lemma {:induction false} SortLength(values: seq<int>)
    ensures |Sort(values)| == |values|
  {
    SortSorts(values, 0, 0);
    assert |multiset(Sort(values))| == |multiset(values)|;
  }

  /** Sorting puts the same values in order. */
  lemma {:induction false} SortSorts(values: seq<int>, low: int, high: int)
    ensures Ascending(Sort(values)) && multiset(Sort(values)) == multiset(values)
    ensures CountWithin(Sort(values), low, high) == CountWithin(values, low, high)
  {
    if values != [] {
      SortSorts(values[1..], low, high);
      InsertAdds(values[0], Sort(values[1..]));
      InsertKeepsOrder(values[0], Sort(values[1..]));
      InsertCounts(values[0], Sort(values[1..]), low, high);
      assert values == [values[0]] + values[1..];
    }
  }

  lemma {:induction false} CountOfPrefixOutside(s: seq<int>, n: nat, low: int, high: int)
    requires n <= |s| && forall i :: 0 <= i < n ==> !Within(s[i], low, high)
    ensures CountWithin(s, low, high) <= |s| - n
  {
    if s != [] {
      CountOfPrefixOutside(s[1..], if n > 0 then n - 1 else 0, low, high);
    }
  }

  lemma {:induction false} CountOfSuffixOutside(s: seq<int>, n: nat, low: int, high: int)
    requires n <= |s| && forall i :: n <= i < |s| ==> !Within(s[i], low, high)
    ensures CountWithin(s, low, high) <= n
  {
    if s != [] {
      CountOfSuffixOutside(s[1..], if n > 0 then n - 1 else 0, low, high);
    }
  }

  /** In an ascending list the k-th value lies in every range that holds enough of the list. */
  lemma OrderStatistic(s: seq<int>, k: nat, low: int, high: int)
    requires Ascending(s) && k < |s|
    ensures CountWithin(s, low, high) > |s| - 1 - k ==> low <= s[k]
    ensures CountWithin(s, low, high) > k ==> s[k] <= high
  {
    if s[k] < low {
      CountOfPrefixOutside(s, k + 1, low, high);
    }
    if high < s[k] {
      CountOfSuffixOutside(s, k, low, high);
    }
  }

  lemma MiddleLiesWithMajority(s: seq<int>, low: int, high: int)
    requires Ascending(s) && s != [] && 2 * CountWithin(s, low, high) > |s|
    ensures Within(Middle(s), low, high)
  {
    var mid := |s| / 2;
    OrderStatistic(s, mid, low, high);
    if |s| % 2 == 0 {
      OrderStatistic(s, mid - 1, low, high);
      assert s[mid - 1] <= s[mid];
    }
  }

  /** The median lies in every range that holds more than half of the values. */
  lemma MedianLiesWithMajority(values: seq<int>, low: int, high: int)
    requires 2 * CountWithin(values, low, high) > |values|
    ensures values != [] && Within(Median(values), low, high)
  {
    SortSorts(values, low, high);
    SortLength(values);
    if values != [] {
      MiddleLiesWithMajority(Sort(values), low, high);
    }
  }

  // ---- The median, told from any ordering -------------------------------------------------------

  lemma FirstIsLeast(s: seq<int>, t: seq<int>)
    requires Ascending(s) && Ascending(t) && multiset(s) == multiset(t) && s != [] && t != []
    ensures s[0] <= t[0]
  {
    assert t[0] in multiset(s);
    var i :| 0 <= i < |s| && s[i] == t[0];
  }

  /** There is only one way to put values in order. */
  lemma {:induction false} OneOrder(s: seq<int>, t: seq<int>)
    requires Ascending(s) && Ascending(t) && multiset(s) == multiset(t)
    ensures s == t
  {
    assert |multiset(s)| == |multiset(t)|;
    if s != [] {
      FirstIsLeast(s, t);
      FirstIsLeast(t, s);
      assert s == [s[0]] + s[1..] && t == [t[0]] + t[1..];
      assert multiset(s[1..]) == multiset(s) - multiset{s[0]};
      assert multiset(t[1..]) == multiset(t) - multiset{t[0]};
      OneOrder(s[1..], t[1..]);
    }
  }

  /** `m` is the middle of `s`, or half of the two middle values together, rounded down. */
  predicate IsMiddle(m: int, s: seq<int>)
    requires s != []
  {
    if |s| % 2 == 1 then m == s[|s| / 2]
    else 2 * m <= s[|s| / 2 - 1] + s[|s| / 2] <= 2 * m + 1
  }

  /** The median is the middle of the values, however they are put in order. */
  lemma MedianIsMiddle(values: seq<int>, s: seq<int>)
    requires values != [] && Ascending(s) && multiset(s) == multiset(values)
    ensures s != [] && IsMiddle(Median(values), s)
  {
    SortSorts(values, 0, 0);
    OneOrder(s, Sort(values));
    SortLength(values);
  }

  function Negated(s: seq<int>): seq<int> {
    if s == [] then [] else [-s[0]] + Negated(s[1..])
  }

  /** The values negated, in the opposite order. */
  function Reflected(s: seq<int>): seq<int> {
    if s == [] then [] else Reflected(s[1..]) + [-s[0]]
  }

  lemma {:induction false} CountIsMultiplicity(s: seq<int>, x: int)
    ensures multiset(s)[x] == CountWithin(s, x, x)
  {
    if s != [] {
      CountIsMultiplicity(s[1..], x);
      assert s == [s[0]] + s[1..];
    }
  }

  lemma {:induction false} NegatedCounts(s: seq<int>, x: int)
    ensures CountWithin(Negated(s), x, x) == CountWithin(s, -x, -x)
  {
    if s != [] {
      NegatedCounts(s[1..], x);
      assert ([-s[0]] + Negated(s[1..]))[1..] == Negated(s[1..]);
    }
  }

  lemma NegatedMultiplicity(s: seq<int>, x: int, y: int)
    requires y == -x
    ensures multiset(Negated(s))[x] == multiset(s)[y]
  {
    NegatedCounts(s, x);
    CountIsMultiplicity(s, y);
    CountIsMultiplicity(Negated(s), x);
  }

  lemma NegatedSameAt(s: seq<int>, t: seq<int>, x: int)
    requires multiset(s) == multiset(t)
    ensures multiset(Negated(s))[x] == multiset(Negated(t))[x]
  {
    var y := -x;
    NegatedMultiplicity(s, x, y);
    NegatedMultiplicity(t, x, y);
  }

  lemma NegatedSame(s: seq<int>, t: seq<int>)
    requires multiset(s) == multiset(t)
    ensures multiset(Negated(s)) == multiset(Negated(t))
  {
    forall x: int ensures multiset(Negated(s))[x] == multiset(Negated(t))[x] {
      NegatedSameAt(s, t, x);
    }
  }

  lemma {:induction false} ReflectedIsNegated(s: seq<int>)
    ensures multiset(Reflected(s)) == multiset(Negated(s))
  {
    if s != [] {
      ReflectedIsNegated(s[1..]);
    }
  }

  lemma {:induction false} ReflectedAt(s: seq<int>, i: nat)
    ensures |Reflected(s)| == |s|
    ensures i < |s| ==> Reflected(s)[i] == -s[|s| - 1 - i]
  {
    if s != [] {
      ReflectedAt(s[1..], i);
    }
  }

  lemma ReflectedAscends(s: seq<int>)
    requires Ascending(s)
    ensures Ascending(Reflected(s))
    ensures |Reflected(s)| == |s| && forall i :: 0 <= i < |s| ==> Reflected(s)[i] == -s[|s| - 1 - i]
  {
    ReflectedAt(s, 0);
    forall i | 0 <= i < |s| ensures Reflected(s)[i] == -s[|s| - 1 - i] {
      ReflectedAt(s, i);
    }
  }

  lemma {:induction false} NegatedLength(s: seq<int>)
    ensures |Negated(s)| == |s|
  {
    if s != [] {
      NegatedLength(s[1..]);
    }
  }

  /** Turning all values round turns the median round, but for the rounding. */
  lemma MedianReflects(values: seq<int>)
    requires values != []
    ensures Negated(values) != []
    ensures -1 <= Median(values) + Median(Negated(values)) <= 0
  {
    var s := Sort(values);
    SortSorts(values, 0, 0);
    SortLength(values);
    NegatedLength(values);
    NegatedSame(s, values);
    ReflectedIsNegated(s);
    ReflectedAscends(s);
    MedianIsMiddle(values, s);
    MedianIsMiddle(Negated(values), Reflected(s));
    MiddlesReflect(s, Reflected(s), Median(values), Median(Negated(values)));
  }

  lemma MiddlesReflect(s: seq<int>, t: seq<int>, m: int, n: int)
    requires s != [] && |t| == |s| && forall i :: 0 <= i < |s| ==> t[i] == -s[|s| - 1 - i]
    requires IsMiddle(m, s) && IsMiddle(n, t)
    ensures -1 <= m + n <= 0
  {
  }

  // ---- The estimate -----------------------------------------------------------------------------

  datatype FeeHistory = FeeHistory(baseFees: seq<nat>, rewards: seq<seq<nat>>)

  datatype GasEstimate = GasEstimate(maxFee: int, priorityFee: int, costWei: int)

  const DEFAULT_PRIORITY_FEE: nat := 1_500_000_000

  function PriorityFees(rewards: seq<seq<nat>>): seq<int> {
    if rewards == [] then []
    else (if rewards[0] == [] then [] else [rewards[0][0]]) + PriorityFees(rewards[1..])
  }

  /** None for a history without a base fee. */
  function Estimate(history: FeeHistory, gasLimit: nat): Option<GasEstimate> {
    if history.baseFees == [] then None
    else
      var nextBaseFee := history.baseFees[|history.baseFees| - 1];
      var fees := PriorityFees(history.rewards);
      var priorityFee := if fees == [] then DEFAULT_PRIORITY_FEE else Median(fees);
      var maxFee := nextBaseFee * 2 + priorityFee;
      Some(GasEstimate(maxFee, priorityFee, maxFee * gasLimit))
  }

  lemma {:induction false} PriorityFeesSkipEmpty(before: seq<seq<nat>>, after: seq<seq<nat>>)
    ensures PriorityFees(before + [[]] + after) == PriorityFees(before + after)
  {
    if before == [] {
      assert ([] + [[]] + after)[1..] == after && [] + after == after;
      assert before + [[]] + after == [[]] + after && before + after == after;
    } else {
      assert (before + [[]] + after)[1..] == before[1..] + [[]] + after;
      assert (before + after)[1..] == before[1..] + after;
      PriorityFeesSkipEmpty(before[1..], after);
    }
  }

  lemma {:induction false} PriorityFeesAreFirsts(rewards: seq<seq<nat>>)
    requires forall i :: 0 <= i < |rewards| ==> rewards[i] != []
    ensures |PriorityFees(rewards)| == |rewards|
    ensures forall i :: 0 <= i < |rewards| ==> PriorityFees(rewards)[i] == rewards[i][0]
  {
    if rewards != [] {
      PriorityFeesAreFirsts(rewards[1..]);
    }
  }

  /** What an estimate says: the priority fee is the middle of the blocks' first rewards, or 1.5 gwei when
      there are none; the maximum fee leaves room for exactly twice the next base fee beside it; and the
      cost is the maximum fee for every unit of gas. */
  lemma EstimateSays(history: FeeHistory, gasLimit: nat, s: seq<int>)
    requires history.baseFees != [] && Ascending(s) && multiset(s) == multiset(PriorityFees(history.rewards))
    ensures
      var e := Estimate(history, gasLimit).value;
      && (if s == [] then e.priorityFee == 1_500_000_000 else IsMiddle(e.priorityFee, s))
      && e.maxFee - e.priorityFee == history.baseFees[|history.baseFees| - 1] * 2
      && e.costWei == e.maxFee * gasLimit
  {
    var fees := PriorityFees(history.rewards);
    assert |multiset(s)| == |multiset(fees)|;
    if fees != [] {
      MedianIsMiddle(fees, s);
    }
  }

  // ---- The base fee, by the Specification section of EIP-1559 -----------------------------------

  const ELASTICITY_MULTIPLIER: nat := 2
  const BASE_FEE_MAX_CHANGE_DENOMINATOR: nat := 8
  const MIN_GAS_LIMIT: nat := 5000

  datatype Block = Block(gasLimit: nat, gasUsed: nat)

  predicate ValidBlock(b: Block) {
    MIN_GAS_LIMIT <= b.gasLimit && b.gasUsed <= b.gasLimit
  }

  function BaseFeeAfter(baseFee: nat, b: Block): nat
    requires ValidBlock(b)
  {
    var target := b.gasLimit / ELASTICITY_MULTIPLIER;
    if b.gasUsed == target then baseFee
    else if b.gasUsed > target then
      baseFee + Max(baseFee * (b.gasUsed - target) / target / BASE_FEE_MAX_CHANGE_DENOMINATOR, 1)
    else
      FallIsBounded(baseFee, target - b.gasUsed, target);
      baseFee - baseFee * (target - b.gasUsed) / target / BASE_FEE_MAX_CHANGE_DENOMINATOR
  }

  ghost predicate ValidBlocks(blocks: seq<Block>) {
    forall i :: 0 <= i < |blocks| ==> ValidBlock(blocks[i])
  }

  function BaseFeeAfterAll(baseFee: nat, blocks: seq<Block>): nat
    requires ValidBlocks(blocks)
  {
    if blocks == [] then baseFee
    else BaseFeeAfter(BaseFeeAfterAll(baseFee, blocks[..|blocks| - 1]), blocks[|blocks| - 1])
  }

  lemma TimesIsMonotonic(a: int, b: int, t: nat)
    requires a <= b
    ensures a * t <= b * t
  {
  }

  lemma RoundedDownTwice(amount: nat, target: nat)
    requires target > 0
    ensures amount / target >= 0
    ensures (8 * (amount / target / 8)) * target <= amount
  {
    TimesIsMonotonic(8 * (amount / target / 8), amount / target, target);
  }

  /** The rise for a block that used `over` more gas than its target. */
  lemma {:induction false} RiseIsBounded(baseFee: nat, over: nat, target: nat)
    requires target >= 2500 && over <= target + 1
    ensures
      var rise := baseFee * over / target / 8;
      7 * rise <= baseFee && (baseFee < 15 ==> rise <= 1)
  {
    var amount := baseFee * over;
    TimesIsMonotonic(over, target + 1, baseFee);
    assert amount <= baseFee * target + baseFee;
    RoundedDownTwice(amount, target);
    BoundRise(baseFee, amount / target / 8, target);
  }

  lemma BoundRise(baseFee: nat, rise: nat, target: nat)
    requires target >= 2500 && (8 * rise) * target <= baseFee * target + baseFee
    ensures 7 * rise <= baseFee && (baseFee < 15 ==> rise <= 1)
  {
    var excess := 8 * rise - baseFee;
    assert excess * target <= baseFee;
    if 7 * rise > baseFee {
      TimesIsMonotonic(rise + 1, excess, target);
      TimesIsMonotonic(2500, target, rise + 1);
    }
    if baseFee < 15 && rise >= 2 {
      TimesIsMonotonic(1, excess, target);
      TimesIsMonotonic(2, excess, target);
    }
  }

  lemma FallIsBounded(baseFee: nat, under: nat, target: nat)
    requires under <= target && target > 0
    ensures 0 <= baseFee * under / target / 8 <= baseFee
  {
    var amount := baseFee * under;
    TimesIsMonotonic(under, target, baseFee);
    RoundedDownTwice(amount, target);
    var fall := amount / target / 8;
    if fall > baseFee {
      TimesIsMonotonic(baseFee + 1, 8 * fall, target);
    }
  }

  /** One block raises the base fee by at most a seventh, or by one. */
  lemma {:induction false} BlockRaisesBy(baseFee: nat, b: Block)
    requires ValidBlock(b)
    ensures 7 * BaseFeeAfter(baseFee, b) <= Max(8 * baseFee, 7 * baseFee + 7)
    ensures baseFee < 15 ==> BaseFeeAfter(baseFee, b) <= baseFee + 1
  {
    var target := b.gasLimit / 2;
    if b.gasUsed > target {
      RiseIsBounded(baseFee, b.gasUsed - target, target);
    } else if b.gasUsed < target {
      FallIsBounded(baseFee, target - b.gasUsed, target);
    }
  }

  lemma {:induction false} LowFeesRiseByOne(baseFee: nat, blocks: seq<Block>)
    requires ValidBlocks(blocks) && baseFee + |blocks| <= 15
    ensures BaseFeeAfterAll(baseFee, blocks) <= baseFee + |blocks|
  {
    if blocks != [] {
      var before := blocks[..|blocks| - 1];
      LowFeesRiseByOne(baseFee, before);
      BlockRaisesBy(BaseFeeAfterAll(baseFee, before), blocks[|blocks| - 1]);
    }
  }

  /** What adding a seventh `n` times makes of a base fee. */
  function Sevenths(baseFee: nat, n: nat): (r: nat)
    ensures r >= baseFee
  {
    if n == 0 then baseFee else Sevenths(baseFee, n - 1) * 8 / 7
  }

  lemma {:induction false} FeesRiseBySevenths(baseFee: nat, blocks: seq<Block>)
    requires ValidBlocks(blocks) && baseFee >= 7
    ensures BaseFeeAfterAll(baseFee, blocks) <= Sevenths(baseFee, |blocks|)
  {
    if blocks != [] {
      var before := blocks[..|blocks| - 1];
      FeesRiseBySevenths(baseFee, before);
      BlockRaisesBy(BaseFeeAfterAll(baseFee, before), blocks[|blocks| - 1]);
    }
  }

  lemma {:induction false} SeventhsGrow(baseFee: nat, m: nat, n: nat)
    requires m <= n
    ensures Sevenths(baseFee, m) <= Sevenths(baseFee, n)
  {
    if m < n {
      SeventhsGrow(baseFee, m, n - 1);
    }
  }

  lemma SeventhsStep(baseFee: nat, n: nat)
    ensures 7 * Sevenths(baseFee, n + 1) <= 8 * Sevenths(baseFee, n)
  {
  }

  lemma FiveSevenths(baseFee: nat, n: nat)
    ensures Sevenths(baseFee, n + 5) <= 2 * Sevenths(baseFee, n)
  {
    SeventhsStep(baseFee, n);
    SeventhsStep(baseFee, n + 1);
    SeventhsStep(baseFee, n + 2);
    SeventhsStep(baseFee, n + 3);
    SeventhsStep(baseFee, n + 4);
  }

  /** Five blocks at most double a base fee of at least five. */
  lemma {:induction false} FiveBlocksAtMostDouble(baseFee: nat, blocks: seq<Block>)
    requires ValidBlocks(blocks) && |blocks| <= 5 && baseFee >= 5
    ensures BaseFeeAfterAll(baseFee, blocks) <= 2 * baseFee
  {
    if baseFee < 8 {
      LowFeesRiseByOne(baseFee, blocks);
    } else {
      FeesRiseBySevenths(baseFee, blocks);
      SeventhsGrow(baseFee, |blocks|, 5);
      FiveSevenths(baseFee, 0);
    }
  }

  function FullBlocks(n: nat): (blocks: seq<Block>)
    ensures |blocks| == n && ValidBlocks(blocks)
  {
    seq(n, _ => Block(30_000_000, 30_000_000))
  }

  /** The base fee after full blocks only: each adds an eighth, and at least one wei. */
  function FullFee(baseFee: nat, n: nat): (fee: nat)
    ensures fee >= baseFee + n
  {
    if n == 0 then baseFee
    else
      var before := FullFee(baseFee, n - 1);
      before + Max(before / 8, 1)
  }

  lemma FullBlockRaises(baseFee: nat)
    ensures BaseFeeAfter(baseFee, Block(30_000_000, 30_000_000)) == baseFee + Max(baseFee / 8, 1)
  {
    assert baseFee * 15_000_000 / 15_000_000 == baseFee;
  }

  /** An empty block lowers the base fee by an eighth, and a block filled to its target leaves it. */
  lemma EmptyBlockLowers(baseFee: nat)
    ensures BaseFeeAfter(baseFee, Block(30_000_000, 0)) == baseFee - baseFee / 8
    ensures BaseFeeAfter(baseFee, Block(30_000_000, 15_000_000)) == baseFee
  {
    assert baseFee * 15_000_000 / 15_000_000 == baseFee;
  }

  lemma {:induction false} FullBlocksRaise(baseFee: nat, n: nat)
    ensures BaseFeeAfterAll(baseFee, FullBlocks(n)) == FullFee(baseFee, n)
  {
    if n > 0 {
      assert FullBlocks(n)[..n - 1] == FullBlocks(n - 1);
      FullBlocksRaise(baseFee, n - 1);
      FullBlockRaises(FullFee(baseFee, n - 1));
    }
  }

  // ---- The headroom -----------------------------------------------------------------------------

  /** What a block's proposer earns per gas: the priority fee as far as the maximum fee leaves room. */
  function PaidPriority(e: GasEstimate, baseFee: nat): int {
    Min(e.priorityFee, e.maxFee - baseFee)
  }

  ghost predicate PaysFullPriorityForFiveBlocks(e: GasEstimate, nextBaseFee: nat) {
    forall blocks :: ValidBlocks(blocks) && |blocks| <= 5 ==>
      PaidPriority(e, BaseFeeAfterAll(nextBaseFee, blocks)) == e.priorityFee
  }

  /** The estimate pays its full priority fee through any five further blocks exactly when the next base
      fee is at least five wei. */
  lemma HeadroomExactlyWhen(history: FeeHistory, gasLimit: nat)
    requires history.baseFees != []
    ensures
      var next := history.baseFees[|history.baseFees| - 1];
      PaysFullPriorityForFiveBlocks(Estimate(history, gasLimit).value, next) <==> next >= 5
  {
    var next := history.baseFees[|history.baseFees| - 1];
    var e := Estimate(history, gasLimit).value;
    if next >= 5 {
      forall blocks | ValidBlocks(blocks) && |blocks| <= 5
        ensures PaidPriority(e, BaseFeeAfterAll(next, blocks)) == e.priorityFee
      {
        FiveBlocksAtMostDouble(next, blocks);
      }
    } else {
      FullBlocksRaise(next, 5);
      assert PaidPriority(e, BaseFeeAfterAll(next, FullBlocks(5))) < e.priorityFee;
    }
  }

  /** Six full blocks use the headroom up for these base fees: five is the most that can be promised. */
  lemma SixBlocksCanExceed(k: nat) returns (blocks: seq<Block>)
    requires k > 0
    ensures ValidBlocks(blocks) && |blocks| == 6
    ensures BaseFeeAfterAll(262_144 * k, blocks) == 531_441 * k > 2 * (262_144 * k)
  {
    blocks := FullBlocks(6);
    FullBlocksRaise(262_144 * k, |blocks|);
    SixMoreFullBlocks(262_144 * k, 0, k);
  }

  /** Six full blocks in a row, each adding exactly an eighth. */
  lemma SixMoreFullBlocks(baseFee: nat, n: nat, k: nat)
    requires k > 0 && FullFee(baseFee, n) == 262_144 * k
    ensures FullFee(baseFee, n + 6) == 531_441 * k
  {
    assert FullFee(baseFee, n + 1) == 294_912 * k;
    assert FullFee(baseFee, n + 2) == 331_776 * k;
    assert FullFee(baseFee, n + 3) == 373_248 * k;
    assert FullFee(baseFee, n + 4) == 419_904 * k;
    assert FullFee(baseFee, n + 5) == 472_392 * k;
  }

  /** The priority fee lies in every range in which more than half of the sampled blocks paid. */
  lemma PriorityFollowsMajority(history: FeeHistory, gasLimit: nat, low: int, high: int)
    requires history.baseFees != []
    requires var fees := PriorityFees(history.rewards); 2 * CountWithin(fees, low, high) > |fees|
    ensures Within(Estimate(history, gasLimit).value.priorityFee, low, high)
  {
    MedianLiesWithMajority(PriorityFees(history.rewards), low, high);
  }
}
