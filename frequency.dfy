/** The per-number frequency table of generated Lotto numbers and the
    hot/cold marking drawn from it. The table is a sparse map: an absent key
    counts 0, as `this.frequency[n] || 0` reads it. */
module Frequency {

  type FrequencyTable = map<int, nat>

  /** `this.frequency[n] || 0`. */
  function Count(freq: FrequencyTable, n: int): nat {
    if n in freq then freq[n] else 0
  }

  /** The table after `updateFrequency(numbers)`: one increment per listed
      number, in list order. */
  function Tallied(freq: FrequencyTable, numbers: seq<int>): FrequencyTable
    decreases |numbers|
  {
    if numbers == [] then freq
    else
      var before := Tallied(freq, numbers[..|numbers| - 1]);
      var n := numbers[|numbers| - 1];
      before[n := Count(before, n) + 1]
  }

  /** Each number's count rises by the times it is listed; every other
      count stays. */
  lemma {:induction false} TalliedCount(freq: FrequencyTable, numbers: seq<int>, k: int)
    ensures Count(Tallied(freq, numbers), k) == Count(freq, k) + multiset(numbers)[k]
    decreases |numbers|
  {
    if numbers != [] {
      var init := numbers[..|numbers| - 1];
      assert numbers == init + [numbers[|numbers| - 1]];
      TalliedCount(freq, init, k);
    }
  }

  /** Only listed numbers gain a key. */
  lemma {:induction false} TalliedKeys(freq: FrequencyTable, numbers: seq<int>)
    ensures Tallied(freq, numbers).Keys == freq.Keys + set n | n in numbers
    decreases |numbers|
  {
    if numbers != [] {
      var init := numbers[..|numbers| - 1];
      assert numbers == init + [numbers[|numbers| - 1]];
      TalliedKeys(freq, init);
    }
  }

  /** Sum of the counts of 1..n. */
  function SumCounts(freq: FrequencyTable, n: nat): nat {
    if n == 0 then 0 else SumCounts(freq, n - 1) + Count(freq, n)
  }

  /** Sum of the counts of all 45 numbers, the numerator of the mean. */
  function TotalCount(freq: FrequencyTable): nat {
    SumCounts(freq, 45)
  }

  /** The CSS class `renderFrequency` gives a cell: 'hot', 'cold' or none. */
  datatype Heat = Hot | Cold | Neutral

  /** Hot above one and a half times the mean count `total / 45`, cold at
      zero, neither otherwise. In integers, `count > 1.5 * total / 45` is
      `30 * count > total`. The middle branch of the source (below half the
      mean but non-zero) also yields no class. */
  function HeatOf(count: nat, total: nat): (h: Heat)
    ensures h == Hot <==> count as real > (total as real / 45.0) * 1.5
    ensures h == Cold <==> count == 0
    ensures h == Neutral <==> 0 < count && count as real <= (total as real / 45.0) * 1.5
  {
    if 30 * count > total then Hot
    else if count == 0 then Cold
    else Neutral
  }

  /** How many of 1..n are hot against the given total. */
  function HotCount(freq: FrequencyTable, n: nat, total: nat): nat {
    if n == 0 then 0
    else HotCount(freq, n - 1, total) + (if HeatOf(Count(freq, n), total) == Hot then 1 else 0)
  }

  lemma {:induction false} HotCountBound(freq: FrequencyTable, n: nat, total: nat)
    ensures HotCount(freq, n, total) * (total + 1) <= 30 * SumCounts(freq, n)
  {
    if n > 0 {
      HotCountBound(freq, n - 1, total);
      if HeatOf(Count(freq, n), total) == Hot {
        MultiplyStep(HotCount(freq, n - 1, total), total + 1);
      }
    }
  }

  lemma MultiplyStep(h: nat, m: nat)
    ensures (h + 1) * m == h * m + m
  {
  }

  /** At most 29 of the 45 numbers are ever marked hot, and none while
      nothing has been drawn. */
  lemma FewerThanThirtyHot(freq: FrequencyTable)
    ensures HotCount(freq, 45, TotalCount(freq)) < 30
    ensures TotalCount(freq) == 0 ==> HotCount(freq, 45, 0) == 0
  {
    var total := TotalCount(freq);
    var h := HotCount(freq, 45, total);
    HotCountBound(freq, 45, total);
  }
}
