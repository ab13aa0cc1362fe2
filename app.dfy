/** The state of `LotteryApp` (js/app.js) and the operations that change it:
    pinning numbers, generating a batch, saving, deleting and clearing saved
    results, and keeping the statistics and the frequency table. Rendering,
    storage and the clock are outside the model; the clock readings come in
    as parameters. */
module App {
  import opened Wrappers
  import opened Seqs
  import opened Draws
  import opened Generator
  import opened ResultStore
  import opened Frequency
  import opened GenerationStats

  /** What `saveNumber` ends in: the result is saved, the "already saved"
      alert is shown, or there is no result at that index. */
  datatype SaveOutcome = Saved | AlreadySaved | NoSuchResult

  /** How many Lotto results of a batch contain `k`. */
  function LottoOccurrences(results: seq<LotteryResult>, k: int): nat
    decreases |results|
  {
    if results == [] then 0
    else
      var last := results[|results| - 1];
      LottoOccurrences(results[..|results| - 1], k) + (if last.LottoResult? && k in last.numbers then 1 else 0)
  }

  /** Counting one more result of the batch adds one for each number of
      it, if it is a Lotto result of distinct numbers. */
  lemma LottoOccurrencesStep(results: seq<LotteryResult>, j: int, k: int)
    requires 0 <= j < |results|
    requires results[j].LottoResult? ==> Distinct(results[j].numbers)
    ensures LottoOccurrences(results[..j + 1], k) ==
      LottoOccurrences(results[..j], k) + (if results[j].LottoResult? then multiset(results[j].numbers)[k] else 0)
  {
    assert results[..j + 1][..j] == results[..j];
    if results[j].LottoResult? {
      DistinctMultiplicity(results[j].numbers, k);
    }
  }

  /** The statistics invariant: weekdays are 0..6, and the lucky day is
      null before the first generation and the lucky day of the log after. */
  predicate StatsValid(stats: Stats) {
    && DatesValid(stats.generationDates)
    && (stats.luckyDayOfWeek.None? <==> stats.generationDates == [])
    && (stats.luckyDayOfWeek.Some? ==> IsLuckyDay(stats.generationDates, stats.luckyDayOfWeek.value))
  }

  /** Sorting a small, duplicate-free list of 1..45 gives a valid pinned
      selection with the same elements. */
  lemma SortedSelection(picked: seq<int>, sorted: seq<int>)
    requires Distinct(picked) && |picked| <= 5
    requires forall x :: x in picked ==> 1 <= x <= 45
    requires Ascending(sorted) && multiset(sorted) == multiset(picked)
    ensures IsFixedSelection(sorted) && |sorted| == |picked|
    ensures forall x :: x in sorted <==> x in picked
  {
    PermutationKeepsDistinct(picked, sorted);
    AscendingDistinct(sorted);
    assert |sorted| == |multiset(sorted)| == |picked|;
    forall x ensures x in sorted <==> x in picked {
      assert x in sorted <==> x in multiset(sorted);
    }
    forall k | 0 <= k < |sorted| ensures 1 <= sorted[k] <= 45 {
      assert sorted[k] in picked;
    }
  }

  /** `splice(idx, 1)` at a position holding a value removes exactly that
      value from a duplicate-free list. */
  lemma RemovePinned(s: seq<int>, idx: int)
    requires Distinct(s) && 0 <= idx < |s|
    ensures Distinct(s[..idx] + s[idx + 1..])
    ensures forall x :: x in s[..idx] + s[idx + 1..] <==> x in s && x != s[idx]
  {
    var t := s[..idx] + s[idx + 1..];
    assert s == s[..idx] + [s[idx]] + s[idx + 1..];
    forall i, j | 0 <= i < j < |t| ensures t[i] != t[j] {
      var i' := if i < idx then i else i + 1;
      var j' := if j < idx then j else j + 1;
      assert t[i] == s[i'] && t[j] == s[j'];
    }
  }

  /** `push(num)` of an absent value keeps the list duplicate-free. */
  lemma AppendPinned(s: seq<int>, num: int)
    requires Distinct(s) && num !in s
    ensures Distinct(s + [num])
    ensures forall x :: x in s + [num] <==> x in s || x == num
  {
  }

  predicate AllWellFormed(results: seq<LotteryResult>) {
    forall i :: 0 <= i < |results| ==> WellFormed(results[i])
  }

  /** The frequency table has keys of 1..45 only and is the tally of every
      Lotto number generated so far. */
  ghost predicate FrequencyValid(frequency: FrequencyTable, lottoDraws: seq<int>) {
    && (forall k :: k in frequency ==> 1 <= k <= 45)
    && (forall k :: Count(frequency, k) == multiset(lottoDraws)[k])
  }

  /** Tallying a list of numbers of 1..45 into a valid table gives the
      valid table of the extended draw record. */
  lemma TalliedValid(frequency: FrequencyTable, lottoDraws: seq<int>, numbers: seq<int>)
    requires FrequencyValid(frequency, lottoDraws)
    requires forall i :: 0 <= i < |numbers| ==> 1 <= numbers[i] <= 45
    ensures FrequencyValid(Tallied(frequency, numbers), lottoDraws + numbers)
    ensures forall k :: Count(Tallied(frequency, numbers), k) == Count(frequency, k) + multiset(numbers)[k]
    ensures Tallied(frequency, numbers).Keys == frequency.Keys + set n | n in numbers
  {
    forall k ensures Count(Tallied(frequency, numbers), k) == Count(frequency, k) + multiset(numbers)[k] {
      TalliedCount(frequency, numbers, k);
    }
    TalliedKeys(frequency, numbers);
  }

  class LotteryApp {
    var currentType: LotteryType
    var fixedNumbers: seq<int>
    var lastResults: seq<LotteryResult>
    var saved: seq<LotteryResult>
    var stats: Stats
    var frequency: FrequencyTable
    /** Every Lotto number generated so far; the frequency table is its tally. */
    ghost var lottoDraws: seq<int>

    ghost predicate Valid()
      reads this
    {
      && IsFixedSelection(fixedNumbers)
      && AllWellFormed(lastResults)
      && AllWellFormed(saved) && NoDuplicates(saved)
      && StatsValid(stats)
      && FrequencyValid(frequency, lottoDraws)
    }

    /** A fresh application with empty storage. */
    constructor ()
      ensures Valid()
      ensures currentType == Lotto && fixedNumbers == [] && lastResults == [] && saved == []
      ensures stats == Stats(0, [], None) && frequency == map[]
    {
      currentType := Lotto;
      fixedNumbers := [];
      lastResults := [];
      saved := [];
      stats := Stats(0, [], None);
      frequency := map[];
      lottoDraws := [];
    }

    /** `changeType`: the state part (the markup reset is presentation). */
    method ChangeType(t: LotteryType)
      requires Valid()
      modifies this`currentType
      ensures Valid() && currentType == t
    {
      currentType := t;
    }

    /** `toggleFixedNumber(num)`: remove `num` if pinned, else pin it when
      fewer than five are pinned, then sort. Since a strictly ascending list
      is fixed by its elements (`StrictlyAscendingByMembers`), the ensures
      below give the whole new list. */
    method ToggleFixedNumber(num: int)
      requires Valid()
      requires 1 <= num <= 45
      modifies this`fixedNumbers
      ensures Valid()
      ensures num in old(fixedNumbers) ==>
        |fixedNumbers| == |old(fixedNumbers)| - 1 &&
        forall x :: x in fixedNumbers <==> x in old(fixedNumbers) && x != num
      ensures num !in old(fixedNumbers) && |old(fixedNumbers)| < 5 ==>
        |fixedNumbers| == |old(fixedNumbers)| + 1 &&
        forall x :: x in fixedNumbers <==> x in old(fixedNumbers) || x == num
      ensures num !in old(fixedNumbers) && |old(fixedNumbers)| >= 5 ==> fixedNumbers == old(fixedNumbers)
    {
      var picked := fixedNumbers;
      var idx := IndexOf(picked, num);
      if idx > -1 {
        RemovePinned(picked, idx);
        picked := picked[..idx] + picked[idx + 1..];
      } else if |picked| < 5 {
        AppendPinned(picked, num);
        picked := picked + [num];
      }
      var sorted := SortAscending(picked);
      SortedSelection(picked, sorted);
      if idx == -1 && |old(fixedNumbers)| >= 5 {
        AscendingUnique(picked, sorted);
      }
      fixedNumbers := sorted;
    }

    /** `updateFrequency(numbers)`: each listed number's count goes up by
      one per occurrence; no other key changes. */
    method UpdateFrequency(numbers: seq<int>)
      requires Valid()
      requires forall i :: 0 <= i < |numbers| ==> 1 <= numbers[i] <= 45
      modifies this`frequency, this`lottoDraws
      ensures Valid()
      ensures frequency == Tallied(old(frequency), numbers)
      ensures forall k :: Count(frequency, k) == Count(old(frequency), k) + multiset(numbers)[k]
      ensures frequency.Keys == old(frequency).Keys + set n | n in numbers
      ensures lottoDraws == old(lottoDraws) + numbers
    {
      var i := 0;
      while i < |numbers|
        invariant 0 <= i <= |numbers|
        invariant frequency == Tallied(old(frequency), numbers[..i])
        invariant lottoDraws == old(lottoDraws)
      {
        assert numbers[..i + 1][..i] == numbers[..i];
        var n := numbers[i];
        frequency := frequency[n := Count(frequency, n) + 1];
        i := i + 1;
      }
      assert numbers[..|numbers|] == numbers;
      TalliedValid(old(frequency), lottoDraws, numbers);
      lottoDraws := lottoDraws + numbers;
    }

    /** The lucky-day part of `calculateLuckyDay`: store the weekday the log
      favours. */
    method CalculateLuckyDay()
      requires DatesValid(stats.generationDates)
      requires stats.generationDates != []
      modifies this`stats
      ensures StatsValid(stats)
      ensures stats.totalGenerated == old(stats.totalGenerated)
      ensures stats.generationDates == old(stats.generationDates)
      ensures stats.luckyDayOfWeek.Some? && IsLuckyDay(stats.generationDates, stats.luckyDayOfWeek.value)
    {
      var day := LuckyDayIndex(stats.generationDates);
      stats := stats.(luckyDayOfWeek := Some(day));
    }

    /** `updateStats`: add the batch size to the total, log one dated entry
      for this generation, and recompute the lucky day. */
    method UpdateStats(setCount: nat, today: GenerationDate)
      requires Valid()
      requires today.dayOfWeek < 7
      modifies this`stats
      ensures Valid()
      ensures stats.totalGenerated == old(stats.totalGenerated) + setCount
      ensures stats.generationDates == old(stats.generationDates) + [today]
    {
      stats := stats.(
        totalGenerated := stats.totalGenerated + setCount,
        generationDates := stats.generationDates + [today]);
      CalculateLuckyDay();
    }

    /** The tally step of `generateNumbers`: `updateFrequency` on the numbers
      of each Lotto result of the batch, so every number of every Lotto
      result is counted once. */
    method TallyLottoResults(results: seq<LotteryResult>)
      requires Valid()
      requires forall i :: 0 <= i < |results| ==> WellFormed(results[i])
      modifies this`frequency, this`lottoDraws
      ensures Valid()
      ensures forall k :: Count(frequency, k) == Count(old(frequency), k) + LottoOccurrences(results, k)
      ensures (forall i :: 0 <= i < |results| ==> results[i].PensionResult?) ==> frequency == old(frequency)
    {
      var j := 0;
      while j < |results|
        invariant 0 <= j <= |results|
        invariant Valid()
        invariant forall k :: Count(frequency, k) == Count(old(frequency), k) + LottoOccurrences(results[..j], k)
        invariant (forall i :: 0 <= i < |results| ==> results[i].PensionResult?) ==> frequency == old(frequency)
      {
        if results[j].LottoResult? {
          UpdateFrequency(results[j].numbers);
        }
        forall k ensures Count(frequency, k) == Count(old(frequency), k) + LottoOccurrences(results[..j + 1], k) {
          LottoOccurrencesStep(results, j, k);
        }
        j := j + 1;
      }
      assert results[..|results|] == results;
    }

    /** `generateNumbers`: produce `setCount` results of the current type,
      the `i`-th stamped with the clock reading `clock[i]`, keep them as the
      last batch, record one generation event dated `today`, and tally the
      numbers of every Lotto result in the frequency table. */
    method GenerateNumbers(setCount: nat, clock: seq<int>, today: GenerationDate)
      requires Valid()
      requires |clock| == setCount
      requires today.dayOfWeek < 7
      modifies this`lastResults, this`stats, this`frequency, this`lottoDraws
      ensures Valid()
      ensures |lastResults| == setCount
      ensures forall i :: 0 <= i < |lastResults| ==>
        TypeOf(lastResults[i]) == currentType && lastResults[i].timestamp == clock[i]
      ensures forall i, f :: 0 <= i < |lastResults| && lastResults[i].LottoResult? && f in fixedNumbers ==>
        f in lastResults[i].numbers
      ensures stats.totalGenerated == old(stats.totalGenerated) + setCount
      ensures stats.generationDates == old(stats.generationDates) + [today]
      ensures forall k :: Count(frequency, k) == Count(old(frequency), k) + LottoOccurrences(lastResults, k)
      ensures currentType == Pension ==> frequency == old(frequency)
    {
      var results := GenerateBatch(setCount, currentType, fixedNumbers, clock);
      lastResults := results;
      UpdateStats(setCount, today);
      TallyLottoResults(results);
    }

    /** `saveNumber(index)` on the last batch: nothing when there is no
      result at `index`; the duplicate alert when an entry with the same
      draw is saved already; otherwise the result goes to the front. */
    method SaveNumber(index: int) returns (outcome: SaveOutcome)
      requires Valid()
      modifies this`saved
      ensures Valid()
      ensures !(0 <= index < |lastResults|) ==> outcome == NoSuchResult && saved == old(saved)
      ensures 0 <= index < |lastResults| ==>
        && (outcome == AlreadySaved <==> IsDuplicate(old(saved), lastResults[index]))
        && (outcome == Saved <==> !IsDuplicate(old(saved), lastResults[index]))
        && saved == SaveInto(old(saved), lastResults[index])
    {
      if !(0 <= index < |lastResults|) {
        return NoSuchResult;
      }
      var result := lastResults[index];
      var isDuplicate := IsDuplicate(saved, result);
      if isDuplicate {
        return AlreadySaved;
      }
      ghost var before := saved;
      saved := [result] + saved;
      assert saved == SaveInto(before, result);
      outcome := Saved;
    }

    /** `deleteSaved(index)`: on confirmation, `saved.splice(index, 1)`. */
    method DeleteSaved(index: int, confirmed: bool)
      requires Valid()
      modifies this`saved
      ensures Valid()
      ensures saved == if confirmed then SpliceOne(old(saved), index) else old(saved)
    {
      if confirmed {
        ghost var before := saved;
        saved := SpliceOne(saved, index);
        SpliceKeepsNoDuplicates(before, index);
        forall i | 0 <= i < |saved| ensures WellFormed(saved[i]) {
          assert saved[i] in multiset(before);
        }
      }
    }

    /** `clearAllSaved`: on confirmation, empty the list. */
    method ClearAllSaved(confirmed: bool)
      requires Valid()
      modifies this`saved
      ensures Valid()
      ensures saved == if confirmed then [] else old(saved)
    {
      if confirmed {
        saved := [];
      }
    }
  }
}
