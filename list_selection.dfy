/**
 * The list selection (a ratatui `ListState`): an optional index. The three
 * library steps the app calls, and the app's own forward-wrapping `j` step.
 */
module ListSelection {
  import opened Wrappers

  /** `ListState::select_first`. */
  function SelectFirst(): Option<nat> {
    Some(0)
  }

  /** `ListState::select_next`: one further on; from no selection, the first item. */
  function SelectNext(sel: Option<nat>): Option<nat> {
    match sel
    case None => Some(0)
    case Some(i) => Some(i + 1)
  }

  /** `ListState::select_previous`, taken as saturating at the first item and a no-op without a selection. */
  function SelectPrevious(sel: Option<nat>): (r: Option<nat>)
    ensures r.None? <==> sel.None?
    ensures sel.Some? ==> r.value <= sel.value && (sel.value > 0 ==> r.value == sel.value - 1)
  {
    match sel
    case None => None
    case Some(i) => Some(if i == 0 then 0 else i - 1)
  }

  /**
   * The app's `j` step on a list of `len` items: from the last item (or from
   * no selection, read as the first, when there is one item) back to the
   * first; otherwise one further on. From no selection it always lands on
   * the first item; from an item in range it stays in range.
   */
  function WrapNext(sel: Option<nat>, len: nat): (r: Option<nat>)
    requires len > 0
    ensures r.Some?
    ensures sel.None? ==> r.value == 0
    ensures sel.Some? && sel.value == len - 1 ==> r.value == 0
    ensures sel.Some? && sel.value != len - 1 ==> r.value == sel.value + 1
    ensures (sel.Some? ==> sel.value < len) ==> r.value < len
  {
    var selected := sel.GetOr(0);
    if selected == len - 1 then SelectFirst() else SelectNext(sel)
  }

  /** `WrapNext` applied `k` times. */
  function WrapNextTimes(sel: Option<nat>, len: nat, k: nat): Option<nat>
    requires len > 0
    decreases k
  {
    if k == 0 then sel else WrapNext(WrapNextTimes(sel, len, k - 1), len)
  }

  /** While the end of the list is not reached, each `j` moves one item further. */
  lemma {:induction false} WrapNextAdvances(i: nat, len: nat, k: nat)
    requires i + k < len
    ensures WrapNextTimes(Some(i), len, k) == Some(i + k)
    decreases k
  {
    if k > 0 {
      WrapNextAdvances(i, len, k - 1);
    }
  }

  /** Pressing `j` a + b times is pressing it a times and then b times;
    * the helper `WrapNextFullCircle` is proved with. */
  lemma {:induction false} WrapNextCompose(sel: Option<nat>, len: nat, a: nat, b: nat)
    requires len > 0
    ensures WrapNextTimes(sel, len, a + b) == WrapNextTimes(WrapNextTimes(sel, len, a), len, b)
    decreases b
  {
    if b > 0 {
      WrapNextCompose(sel, len, a, b - 1);
    }
  }

  /** The list is walked as a cycle: after len presses of `j` the selection is back where it started. */
  lemma {:induction false} WrapNextFullCircle(i: nat, len: nat)
    requires i < len
    ensures WrapNextTimes(Some(i), len, len) == Some(i)
  {
    var toLast := len - 1 - i;
    WrapNextAdvances(i, len, toLast);
    WrapNextCompose(Some(i), len, toLast, 1 + i);
    assert WrapNextTimes(Some(len - 1), len, 1) == Some(0);
    WrapNextCompose(Some(len - 1), len, 1, i);
    WrapNextAdvances(0, len, i);
  }
}
