/** The arithmetic of the displays: the ball colour band, the first-set
    summary of `analyzeNumbers`, and the combination analysis of the
    premium view (sum, odd/even, low/high, consecutive pairs). */
module Analysis {
  import opened Wrappers
  import opened Seqs
  import opened Draws

  /** `getBallRangeClass`: bands 1..10, 11..20, 21..30, 31..40 and 41 up
      get classes `range-1` ... `range-5`. */
  function BallRange(num: int): (band: nat)
    ensures 1 <= band <= 5
    ensures band < 5 ==> num <= 10 * band
    ensures band > 1 ==> 10 * (band - 1) < num
  {
    if num <= 10 then 1
    else if num <= 20 then 2
    else if num <= 30 then 3
    else if num <= 40 then 4
    else 5
  }

  /** Higher numbers never get a lower band. */
  lemma BallRangeMonotonic(a: int, b: int)
    requires a <= b
    ensures BallRange(a) <= BallRange(b)
  {
  }

  /** `n % 2 === 1` in JavaScript, whose remainder takes the sign of the
      dividend, so no negative number passes. */
  predicate IsOdd(n: int) {
    n >= 0 && n % 2 == 1
  }

  /** How many elements are odd, as the odd filter of the analysis counts them. */
  function OddCount(ns: seq<int>): nat {
    if ns == [] then 0 else (if IsOdd(ns[0]) then 1 else 0) + OddCount(ns[1..])
  }

  /** The number of even elements (a reference count for `6 - oddCount`). */
  function EvenCount(ns: seq<int>): nat {
    if ns == [] then 0 else (if ns[0] % 2 == 0 then 1 else 0) + EvenCount(ns[1..])
  }

  /** How many elements are low, that is at most 22. */
  function LowCount(ns: seq<int>): nat {
    if ns == [] then 0 else (if ns[0] <= 22 then 1 else 0) + LowCount(ns[1..])
  }

  /** The number of elements above 22 (a reference count for `6 - lowCount`). */
  function HighCount(ns: seq<int>): nat {
    if ns == [] then 0 else (if ns[0] > 22 then 1 else 0) + HighCount(ns[1..])
  }

  /** The sum of the elements; the source folds from the left, and since
      addition is associative folding from the front gives the same value. */
  function Sum(ns: seq<int>): int {
    if ns == [] then 0 else ns[0] + Sum(ns[1..])
  }

  /** For non-negative numbers every element is odd or even, so the odd and
      even counts add up to the length. */
  lemma {:induction false} OddEvenSplit(ns: seq<int>)
    requires forall i :: 0 <= i < |ns| ==> ns[i] >= 0
    ensures OddCount(ns) + EvenCount(ns) == |ns|
  {
    if ns != [] {
      OddEvenSplit(ns[1..]);
    }
  }

  lemma {:induction false} LowHighSplit(ns: seq<int>)
    ensures LowCount(ns) + HighCount(ns) == |ns|
  {
    if ns != [] {
      LowHighSplit(ns[1..]);
    }
  }

  /** The sum of a Lotto result lies between 1+2+...+6 = 21 and
      40+41+...+45 = 255. */
  lemma SumBounds(ns: seq<int>)
    requires IsLottoNumbers(ns)
    ensures 21 <= Sum(ns) <= 255
  {
    assert ns[6..] == [];
    SumFront(ns, 5);
    SumFront(ns, 4);
    SumFront(ns, 3);
    SumFront(ns, 2);
    SumFront(ns, 1);
    SumFront(ns, 0);
    assert ns[0..] == ns;
    assert ns[0] >= 1 && ns[5] <= 45;
    assert ns[0] < ns[1] < ns[2] < ns[3] < ns[4] < ns[5];
  }

  lemma SumFront(ns: seq<int>, k: nat)
    requires k < |ns|
    ensures Sum(ns[k..]) == ns[k] + Sum(ns[k + 1..])
  {
    assert ns[k..][1..] == ns[k + 1..];
  }

  /** In a Lotto result the first number is the smallest and the last the
      largest. */
  lemma FirstIsMinLastIsMax(ns: seq<int>)
    requires IsLottoNumbers(ns)
    ensures forall i :: 0 <= i < |ns| ==> ns[0] <= ns[i] <= ns[5]
  {
  }

  /** What `analyzeNumbers` displays about the first set of a batch. */
  datatype NumberAnalysis = NumberAnalysis(oddCount: int, evenCount: int, sum: int, min: int, max: int)

  /** `analyzeNumbers(results)`: nothing (the '-' placeholders) unless the
      first result is a Lotto result; otherwise the odd:even ratio, the sum
      and the range `numbers[0]~numbers[length-1]` of that first set. */
  function AnalyzeNumbers(results: seq<LotteryResult>): (a: Option<NumberAnalysis>)
    requires results != [] ==> WellFormed(results[0])
    ensures a.None? <==> results == [] || !results[0].LottoResult?
    ensures a.Some? ==> var ns := results[0].numbers;
      && a.value.oddCount + a.value.evenCount == 6
      && a.value.evenCount == EvenCount(ns)
      && a.value.sum == Sum(ns)
      && 21 <= a.value.sum <= 255
      && a.value.min in ns && a.value.max in ns
      && (forall i :: 0 <= i < |ns| ==> a.value.min <= ns[i] <= a.value.max)
  {
    if results == [] || !results[0].LottoResult? then None
    else
      var ns := results[0].numbers;
      var oddCount := OddCount(ns);
      OddEvenSplit(ns);
      SumBounds(ns);
      FirstIsMinLastIsMax(ns);
      Some(NumberAnalysis(oddCount, 6 - oddCount, Sum(ns), ns[0], ns[|ns| - 1]))
  }

  /** The adjacent pairs `numbers[i]`, `numbers[i + 1]` that differ by
      exactly 1, in order of `i`. */
  function AdjacentPairs(ns: seq<int>): seq<(int, int)>
    decreases |ns|
  {
    if |ns| < 2 then []
    else
      var last := |ns| - 1;
      AdjacentPairs(ns[..last]) + (if ns[last] - ns[last - 1] == 1 then [(ns[last - 1], ns[last])] else [])
  }

  /** Positions `i`, `i + 1` of `ns` hold the pair `p`, whose parts differ
      by exactly 1. */
  predicate PairAt(ns: seq<int>, i: int, p: (int, int)) {
    0 <= i < |ns| - 1 && ns[i] == p.0 && ns[i + 1] == p.1 && p.1 - p.0 == 1
  }

  /** A pair is listed exactly when it sits at some adjacent positions and
      differs by one. */
  lemma {:induction false} AdjacentPairsMembers(ns: seq<int>, p: (int, int))
    ensures p in AdjacentPairs(ns) <==> exists i :: PairAt(ns, i, p)
    decreases |ns|
  {
    if |ns| >= 2 {
      var last := |ns| - 1;
      var init := ns[..last];
      AdjacentPairsMembers(init, p);
      var tail := if ns[last] - ns[last - 1] == 1 then [(ns[last - 1], ns[last])] else [];
      assert AdjacentPairs(ns) == AdjacentPairs(init) + tail;
      assert p in tail <==> PairAt(ns, last - 1, p);
      forall i | PairAt(init, i, p) ensures PairAt(ns, i, p) {
      }
      forall i | PairAt(ns, i, p) && i < last - 1 ensures PairAt(init, i, p) {
      }
    }
  }

  /** On an ascending list the pairs come out in increasing order, so the
      membership above fixes the whole list. */
  lemma {:induction false} AdjacentPairsOrdered(ns: seq<int>)
    requires StrictlyAscending(ns)
    ensures forall a, b :: 0 <= a < b < |AdjacentPairs(ns)| ==>
      AdjacentPairs(ns)[a].0 < AdjacentPairs(ns)[b].0
    ensures forall a :: 0 <= a < |AdjacentPairs(ns)| ==> AdjacentPairs(ns)[a].1 == AdjacentPairs(ns)[a].0 + 1
    decreases |ns|
  {
    if |ns| >= 2 {
      var last := |ns| - 1;
      var init := ns[..last];
      AdjacentPairsOrdered(init);
      var ps := AdjacentPairs(init);
      forall a | 0 <= a < |ps| ensures ps[a].0 < ns[last - 1] {
        AdjacentPairsMembers(init, ps[a]);
      }
    }
  }

  /** The consecutive-pair scan of `showPremiumContent`: walk the adjacent
      positions from the left and record each pair whose second element is
      one more than the first. The source formats each pair as the text "a-b". */
  method ConsecutivePairs(numbers: seq<int>) returns (pairs: seq<(int, int)>)
    ensures pairs == AdjacentPairs(numbers)
  {
    pairs := [];
    if |numbers| < 2 {
      return;
    }
    var i := 0;
    while i < |numbers| - 1
      invariant 0 <= i <= |numbers| - 1
      invariant pairs == AdjacentPairs(numbers[..i + 1])
    {
      assert numbers[..i + 2][..i + 1] == numbers[..i + 1];
      if numbers[i + 1] - numbers[i] == 1 {
        pairs := pairs + [(numbers[i], numbers[i + 1])];
      }
      i := i + 1;
    }
    assert numbers[..|numbers|] == numbers;
  }

  /** What the premium view shows for the first result of the batch. */
  datatype PremiumReport =
    | LottoReport(
        sum: int, oddCount: int, evenCount: int, lowCount: int, highCount: int,
        consecutivePairs: seq<(int, int)>,
        sumInRange: bool,    // 100 <= sum <= 175: "appropriate range"
        balanced: bool)      // 2 <= oddCount <= 4: "balanced ratio"
    | PensionReport(group: int, numbers: seq<int>)

  /** `showPremiumContent`, without the advertisement delay and the markup:
      nothing for an empty batch; for a Lotto result its combination
      analysis; for a pension result its group and digits. */
  method PremiumContent(results: seq<LotteryResult>) returns (report: Option<PremiumReport>)
    requires results != [] ==> WellFormed(results[0])
    ensures report.None? <==> results == []
    ensures results != [] && results[0].PensionResult? ==>
      report == Some(PensionReport(results[0].data.group, results[0].data.numbers))
    ensures results != [] && results[0].LottoResult? ==>
      var ns := results[0].numbers;
      && report.Some? && report.value.LottoReport?
      && report.value.oddCount + report.value.evenCount == 6
      && report.value.evenCount == EvenCount(ns)
      && report.value.lowCount + report.value.highCount == 6
      && report.value.highCount == HighCount(ns)
      && report.value.sum == Sum(ns)
      && 21 <= report.value.sum <= 255
      && report.value.sumInRange == (100 <= report.value.sum <= 175)
      && report.value.balanced == (2 <= report.value.oddCount <= 4)
      && (forall p :: p in report.value.consecutivePairs <==> exists i :: PairAt(ns, i, p))
      && (forall a, b :: 0 <= a < b < |report.value.consecutivePairs| ==>
           report.value.consecutivePairs[a].0 < report.value.consecutivePairs[b].0)
  {
    if results == [] {
      return None;
    }
    match results[0]
    case PensionResult(d, _) =>
      report := Some(PensionReport(d.group, d.numbers));
    case LottoResult(ns, _) =>
      var sum := Sum(ns);
      var oddCount: int := OddCount(ns);
      var lowCount: int := LowCount(ns);
      var highCount := 6 - lowCount;
      var pairs := ConsecutivePairs(ns);
      OddEvenSplit(ns);
      LowHighSplit(ns);
      SumBounds(ns);
      AdjacentPairsOrdered(ns);
      forall p ensures p in pairs <==> exists i :: PairAt(ns, i, p) {
        AdjacentPairsMembers(ns, p);
      }
      report := Some(LottoReport(sum, oddCount, 6 - oddCount, lowCount, highCount, pairs,
        100 <= sum <= 175, 2 <= oddCount <= 4));
  }

  /** The worked example: 1..6 has three odd numbers and sum 21, and the
      analysis of a batch led by it shows 3:3, 21 and the range 1~6. */
  lemma AnalysisOfOneToSix(t: int)
    ensures OddCount([1, 2, 3, 4, 5, 6]) == 3
    ensures Sum([1, 2, 3, 4, 5, 6]) == 21
    ensures AnalyzeNumbers([LottoResult([1, 2, 3, 4, 5, 6], t)]) == Some(NumberAnalysis(3, 3, 21, 1, 6))
  {
    var s := [1, 2, 3, 4, 5, 6];
    assert s[1..] == [2, 3, 4, 5, 6];
    assert s[1..][1..] == [3, 4, 5, 6];
    assert s[1..][1..][1..] == [4, 5, 6];
    assert s[1..][1..][1..][1..] == [5, 6];
    assert s[1..][1..][1..][1..][1..] == [6];
  }

  /** The worked example continued: 1..6 has five consecutive pairs. */
  lemma PairsOfOneToSix()
    ensures AdjacentPairs([1, 2, 3, 4, 5, 6]) == [(1, 2), (2, 3), (3, 4), (4, 5), (5, 6)]
  {
    assert AdjacentPairs([1, 2]) == [(1, 2)] by {
      assert [1, 2][..1] == [1];
    }
    assert AdjacentPairs([1, 2, 3]) == [(1, 2), (2, 3)] by {
      assert [1, 2, 3][..2] == [1, 2];
    }
    assert AdjacentPairs([1, 2, 3, 4]) == [(1, 2), (2, 3), (3, 4)] by {
      assert [1, 2, 3, 4][..3] == [1, 2, 3];
    }
    assert AdjacentPairs([1, 2, 3, 4, 5]) == [(1, 2), (2, 3), (3, 4), (4, 5)] by {
      assert [1, 2, 3, 4, 5][..4] == [1, 2, 3, 4];
    }
    assert [1, 2, 3, 4, 5, 6][..5] == [1, 2, 3, 4, 5];
  }
}
