/** The saved-result list: the duplicate test of `saveNumber`, the
    prepend it performs, and the one-element `splice` of `deleteSaved`. */
module ResultStore {
  import opened Draws

  /** The comparison inside `saveNumber`'s `some` callback: same type and
      equal `numbers` (lotto) or equal `data` (pension). The timestamp takes
      no part in it. */
  predicate SameDraw(a: LotteryResult, b: LotteryResult) {
    match (a, b)
    case (LottoResult(x, _), LottoResult(y, _)) => x == y
    case (PensionResult(d, _), PensionResult(e, _)) => d == e
    case _ => false
  }

  /** `this.saved.some(...)`: some saved entry has the same draw. */
  predicate IsDuplicate(saved: seq<LotteryResult>, r: LotteryResult) {
    exists i :: 0 <= i < |saved| && SameDraw(saved[i], r)
  }

  /** No two saved entries hold the same draw. */
  predicate NoDuplicates(saved: seq<LotteryResult>) {
    forall i, j :: 0 <= i < j < |saved| ==> !SameDraw(saved[i], saved[j])
  }

  /** The list after saving `r`: unchanged when `r` is a duplicate,
      otherwise `r` in front (`unshift`) followed by the old entries. */
  function SaveInto(saved: seq<LotteryResult>, r: LotteryResult): (s: seq<LotteryResult>)
    ensures IsDuplicate(s, r)
    ensures IsDuplicate(saved, r) ==> s == saved
    ensures !IsDuplicate(saved, r) ==> |s| == |saved| + 1 && s[0] == r && s[1..] == saved
    ensures NoDuplicates(saved) ==> NoDuplicates(s)
  {
    if IsDuplicate(saved, r) then saved
    else
      assert SameDraw(([r] + saved)[0], r);
      [r] + saved
  }

  /** The draw comparison is an equivalence that ignores timestamps. */
  lemma SameDrawIsEquivalence(a: LotteryResult, b: LotteryResult, c: LotteryResult)
    ensures SameDraw(a, a)
    ensures SameDraw(a, b) ==> SameDraw(b, a)
    ensures SameDraw(a, b) && SameDraw(b, c) ==> SameDraw(a, c)
    ensures SameDraw(a, b) <==> SameDraw(a.(timestamp := b.timestamp), b)
  {
  }

  /** Saving a draw that is already saved, whatever its timestamp, leaves
      the list as it is; so saving one result twice adds one entry. */
  lemma {:induction false} SaveTwice(saved: seq<LotteryResult>, r: LotteryResult, r': LotteryResult)
    requires SameDraw(r, r')
    ensures SaveInto(SaveInto(saved, r), r') == SaveInto(saved, r)
    ensures |SaveInto(SaveInto(saved, r), r')| <= |saved| + 1
  {
    var s := SaveInto(saved, r);
    var i :| 0 <= i < |s| && SameDraw(s[i], r);
    SameDrawIsEquivalence(s[i], r, r');
    assert IsDuplicate(s, r');
  }

  /** Where `splice(start, 1)` starts: a negative `start` counts from the
      end (and is clamped at 0), a `start` past the end is clamped to it. */
  function SpliceStart(len: nat, start: int): (a: nat)
    ensures a <= len
  {
    if start < 0 then (if len + start < 0 then 0 else len + start)
    else if start > len then len
    else start
  }

  /** `saved.splice(start, 1)`: removes the element at the splice position,
      if there is one, and keeps the others in order. */
  function SpliceOne<T>(s: seq<T>, start: int): (r: seq<T>)
    ensures SpliceStart(|s|, start) == |s| ==> r == s
    ensures SpliceStart(|s|, start) < |s| ==> |r| == |s| - 1
    ensures forall i :: 0 <= i < SpliceStart(|s|, start) && i < |r| ==> r[i] == s[i]
    ensures forall i :: SpliceStart(|s|, start) <= i < |r| ==> r[i] == s[i + 1]
    ensures multiset(r) <= multiset(s)
  {
    var a := SpliceStart(|s|, start);
    if a < |s| then
      assert s == s[..a] + [s[a]] + s[a + 1..];
      s[..a] + s[a + 1..]
    else s
  }

  /** Deleting index `i` of the list, for `0 <= i < |s|`, removes exactly
      that entry; an index at or past the end deletes nothing; a negative
      index `-k` with `k <= |s|` removes the `k`-th entry from the end, and
      one further below removes the first entry. */
  lemma DeleteInRange<T>(s: seq<T>, i: int)
    ensures 0 <= i < |s| ==> SpliceOne(s, i) == s[..i] + s[i + 1..]
    ensures i >= |s| ==> SpliceOne(s, i) == s
    ensures -|s| <= i < 0 ==> SpliceOne(s, i) == s[..|s| + i] + s[|s| + i + 1..]
    ensures i < -|s| && s != [] ==> SpliceOne(s, i) == s[1..]
  {
  }

  /** Deleting an entry keeps the list free of duplicates. */
  lemma SpliceKeepsNoDuplicates(s: seq<LotteryResult>, start: int)
    requires NoDuplicates(s)
    ensures NoDuplicates(SpliceOne(s, start))
  {
    var r := SpliceOne(s, start);
    var a := SpliceStart(|s|, start);
    forall i, j | 0 <= i < j < |r| ensures !SameDraw(r[i], r[j]) {
      var i' := if i < a then i else i + 1;
      var j' := if j < a then j else j + 1;
      assert r[i] == s[i'] && r[j] == s[j'];
    }
  }
}
