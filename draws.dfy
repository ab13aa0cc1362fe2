/** The values the application generates and stores: a Lotto 6/45 result
    (six numbers) or a pension-lottery result (a group and six digits), each
    stamped with the `Date.now()` reading taken when it was generated. */
module Draws {
  import opened Seqs

  /** `currentType`: 'lotto' or 'pension'. */
  datatype LotteryType = Lotto | Pension

  /** The `data` object of a pension result: `{group, numbers}`, where
      `numbers` are the six drawn digits. */
  datatype PensionDraw = PensionDraw(group: int, numbers: seq<int>)

  /** `{type: 'lotto', numbers, timestamp}` or `{type: 'pension', data, timestamp}`. */
  datatype LotteryResult =
    | LottoResult(numbers: seq<int>, timestamp: int)
    | PensionResult(data: PensionDraw, timestamp: int)

  function TypeOf(r: LotteryResult): LotteryType {
    if r.LottoResult? then Lotto else Pension
  }

  /** Six distinct numbers of 1..45 in ascending order. */
  predicate IsLottoNumbers(ns: seq<int>) {
    && |ns| == 6
    && StrictlyAscending(ns)
    && forall i :: 0 <= i < |ns| ==> 1 <= ns[i] <= 45
  }

  /** A group of 1..5 and six digits of 0..9; digits may repeat. */
  predicate IsPensionDraw(d: PensionDraw) {
    && 1 <= d.group <= 5
    && |d.numbers| == 6
    && forall i :: 0 <= i < |d.numbers| ==> 0 <= d.numbers[i] <= 9
  }

  predicate WellFormed(r: LotteryResult) {
    match r
    case LottoResult(ns, _) => IsLottoNumbers(ns)
    case PensionResult(d, _) => IsPensionDraw(d)
  }

  /** The pinned numbers of the semi-automatic mode: at most five distinct
      numbers of 1..45, kept sorted. */
  predicate IsFixedSelection(fixed: seq<int>) {
    && |fixed| <= 5
    && StrictlyAscending(fixed)
    && forall i :: 0 <= i < |fixed| ==> 1 <= fixed[i] <= 45
  }
}
