/** Number generation. Each `Math.random()` draw is an arbitrary choice
    (`:|`) within the range the source's `Math.floor(Math.random() * k) + c`
    can produce; every proof below holds for every sequence of draws. */
module Generator {
  import opened Seqs
  import opened Draws

  /** `generateLotto`: start from the pinned numbers, keep drawing numbers of
      1..45 until there are six, then sort. A draw that repeats a number
      already present changes nothing in the source, so the model draws
      among the numbers not yet present. */
  method GenerateLotto(fixedNumbers: seq<int>) returns (numbers: seq<int>)
    requires Distinct(fixedNumbers) && |fixedNumbers| <= 5
    requires forall i :: 0 <= i < |fixedNumbers| ==> 1 <= fixedNumbers[i] <= 45
    ensures IsLottoNumbers(numbers)
    ensures forall f :: f in fixedNumbers ==> f in numbers
  {
    var drawn := fixedNumbers;
    while |drawn| < 6
      invariant |drawn| <= 6
      invariant Distinct(drawn)
      invariant forall i :: 0 <= i < |drawn| ==> 1 <= drawn[i] <= 45
      invariant forall f :: f in fixedNumbers ==> f in drawn
      decreases 6 - |drawn|
    {
      UnusedValueExists(drawn, 45);
      var num :| 1 <= num <= 45 && num !in drawn;
      drawn := drawn + [num];
    }
    numbers := SortAscending(drawn);
    PermutationKeepsDistinct(drawn, numbers);
    AscendingDistinct(numbers);
    assert |numbers| == |multiset(numbers)| == |multiset(drawn)| == 6;
    forall i | 0 <= i < |numbers| ensures 1 <= numbers[i] <= 45 {
      assert numbers[i] in multiset(drawn);
    }
    forall f | f in fixedNumbers ensures f in numbers {
      assert f in multiset(drawn);
    }
  }

  /** `generatePension`: a group of 1..5 and six independent digits of 0..9. */
  method GeneratePension() returns (draw: PensionDraw)
    ensures IsPensionDraw(draw)
  {
    var group :| 1 <= group <= 5;
    var numbers: seq<int> := [];
    for i := 0 to 6
      invariant |numbers| == i
      invariant forall k :: 0 <= k < i ==> 0 <= numbers[k] <= 9
    {
      var digit :| 0 <= digit <= 9;
      numbers := numbers + [digit];
    }
    draw := PensionDraw(group, numbers);
  }

  /** The loop of `generateNumbers`: `setCount` results of type `t`, the
      `i`-th stamped with the `i`-th clock reading `clock[i]`; the pinned
      numbers apply to Lotto results only. */
  method GenerateBatch(setCount: nat, t: LotteryType, fixedNumbers: seq<int>, clock: seq<int>)
    returns (results: seq<LotteryResult>)
    requires IsFixedSelection(fixedNumbers)
    requires |clock| == setCount
    ensures |results| == setCount
    ensures forall i :: 0 <= i < |results| ==>
      WellFormed(results[i]) && TypeOf(results[i]) == t && results[i].timestamp == clock[i]
    ensures forall i, f :: 0 <= i < |results| && results[i].LottoResult? && f in fixedNumbers ==>
      f in results[i].numbers
  {
    results := [];
    var i := 0;
    while i < setCount
      invariant 0 <= i <= setCount
      invariant |results| == i
      invariant forall j :: 0 <= j < i ==>
        WellFormed(results[j]) && TypeOf(results[j]) == t && results[j].timestamp == clock[j]
      invariant forall j, f :: 0 <= j < i && results[j].LottoResult? && f in fixedNumbers ==>
        f in results[j].numbers
    {
      if t == Lotto {
        var numbers := GenerateLotto(fixedNumbers);
        results := results + [LottoResult(numbers, clock[i])];
      } else {
        var data := GeneratePension();
        results := results + [PensionResult(data, clock[i])];
      }
      i := i + 1;
    }
  }
}
