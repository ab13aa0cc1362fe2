/** Generation statistics: the running total of generated sets, the log of
    generation events and the "lucky day", the weekday with most events. */
module GenerationStats {
  import opened Wrappers
  import opened Seqs

  /** `{date: today.toISOString(), dayOfWeek: today.getDay()}`, with
      0 = Sunday ... 6 = Saturday. */
  datatype GenerationDate = GenerationDate(date: string, dayOfWeek: nat)

  /** `this.stats`. The lucky day is kept as a weekday index; the source
      stores the localised day name with a suffix, or null before the first
      generation. */
  datatype Stats = Stats(
    totalGenerated: nat,
    generationDates: seq<GenerationDate>,
    luckyDayOfWeek: Option<nat>)

  predicate DatesValid(dates: seq<GenerationDate>) {
    forall i :: 0 <= i < |dates| ==> dates[i].dayOfWeek < 7
  }

  /** How many logged events fell on weekday `day`. */
  function DayTally(dates: seq<GenerationDate>, day: nat): nat
    decreases |dates|
  {
    if dates == [] then 0
    else DayTally(dates[..|dates| - 1], day) + (if dates[|dates| - 1].dayOfWeek == day then 1 else 0)
  }

  /** `day` has the highest tally of the seven weekdays, and is the first
      weekday to reach it. */
  predicate IsLuckyDay(dates: seq<GenerationDate>, day: nat) {
    && day < 7
    && (forall d :: 0 <= d < 7 ==> DayTally(dates, d) <= DayTally(dates, day))
    && (forall d :: 0 <= d < day ==> DayTally(dates, d) < DayTally(dates, day))
  }

  /** The weekday index `calculateLuckyDay` picks: tally the log into seven
      day counters, then take the first position of their maximum. */
  method LuckyDayIndex(dates: seq<GenerationDate>) returns (day: nat)
    requires DatesValid(dates)
    ensures IsLuckyDay(dates, day)
  {
    var dayCounts := new nat[7](_ => 0);
    var i := 0;
    while i < |dates|
      invariant 0 <= i <= |dates|
      invariant forall d :: 0 <= d < 7 ==> dayCounts[d] == DayTally(dates[..i], d)
    {
      assert dates[..i + 1][..i] == dates[..i];
      var dow := dates[i].dayOfWeek;
      dayCounts[dow] := dayCounts[dow] + 1;
      i := i + 1;
    }
    assert dates[..|dates|] == dates;
    var counts := dayCounts[..];
    var maxCount := MaxOf(counts);
    var index := IndexOf(counts, maxCount);
    day := index;
    forall d | 0 <= d < day ensures counts[d] < counts[day] {
      assert counts[d] in counts[..day];
    }
  }

  /** Only one weekday satisfies the lucky-day rule. */
  lemma LuckyDayUnique(dates: seq<GenerationDate>, a: nat, b: nat)
    requires IsLuckyDay(dates, a) && IsLuckyDay(dates, b)
    ensures a == b
  {
    assert DayTally(dates, a) <= DayTally(dates, b) && DayTally(dates, b) <= DayTally(dates, a);
  }

  /** Logging one more event on the lucky day keeps it the lucky day. */
  lemma {:induction false} LuckyDayStable(dates: seq<GenerationDate>, day: nat, e: GenerationDate)
    requires IsLuckyDay(dates, day) && e.dayOfWeek == day
    ensures IsLuckyDay(dates + [e], day)
  {
    var ds := dates + [e];
    assert ds[..|ds| - 1] == dates;
    forall d | 0 <= d < 7
      ensures DayTally(ds, d) == DayTally(dates, d) + (if d == day then 1 else 0)
    {
    }
  }
}
