/**
 * The search store (src/stores/searchStore.ts): the query, whether the search
 * panel is active, the ids of the matching messages and a cursor over them
 * that moves cyclically.
 */
module SearchStore {
  /**
   * JavaScript's `%` on whole numbers: the quotient is truncated toward zero,
   * so the remainder takes the sign of the dividend.
   */
  function JsRem(a: int, n: int): (r: int)
    requires n > 0
    ensures a >= 0 ==> 0 <= r < n
    ensures a < 0 ==> -n < r <= 0
    ensures a == n * (if a >= 0 then a / n else -((-a) / n)) + r
  {
    if a >= 0 then a % n
    else
      assert -a == n * ((-a) / n) + (-a) % n;
      -((-a) % n)
  }

  /** Below the divisor the remainder is the dividend; the divisor itself leaves none. */
  lemma JsRemSmall(a: int, n: int)
    requires n > 0
    ensures 0 <= a < n ==> JsRem(a, n) == a
    ensures a == n ==> JsRem(a, n) == 0
  {
    if 0 <= a < n {
      assert a % n == a;
    } else if a == n {
      assert a == 1 * n + 0;
      assert a % n == 0;
    }
  }

  /** The index `nextHighlight` moves to among `n > 0` matches. */
  function NextIndex(index: int, n: nat): (r: int)
    requires n > 0
    ensures -1 <= index < n ==> 0 <= r < n
    ensures 0 <= index < n - 1 ==> r == index + 1
    ensures index == n - 1 ==> r == 0
  {
    JsRemSmall(index + 1, n);
    JsRem(index + 1, n)
  }

  /** The index `prevHighlight` moves to among `n > 0` matches. */
  function PrevIndex(index: int, n: nat): (r: int)
    requires n > 0
    ensures 0 <= index < n ==> 0 <= r < n
    ensures 0 < index ==> r == index - 1
    ensures index == 0 ==> r == n - 1
  {
    if index == 0 then n - 1 else index - 1
  }

  /** The cursor is on a match, or at -1 when there are none. */
  predicate CursorInRange(index: int, n: nat) {
    if n == 0 then index == -1 else 0 <= index < n
  }

  /** `prevHighlight` undoes `nextHighlight`, and the other way round. */
  lemma PrevUndoesNext(index: int, n: nat)
    requires 0 <= index < n
    ensures PrevIndex(NextIndex(index, n), n) == index
    ensures NextIndex(PrevIndex(index, n), n) == index
  {
  }

  /** `k` calls of `nextHighlight` in a row. */
  function NextN(index: int, n: nat, k: nat): int
    requires n > 0
  {
    if k == 0 then index else NextIndex(NextN(index, n, k - 1), n)
  }

  /** Below the last match, `k` steps forward just add `k`. */
  lemma {:induction false} NextNAdds(index: int, n: nat, k: nat)
    requires 0 <= index && index + k < n
    ensures NextN(index, n, k) == index + k
  {
    if k > 0 {
      NextNAdds(index, n, k - 1);
    }
  }

  /** `a` steps and then `b` steps are `a + b` steps. */
  lemma {:induction false} NextNCompose(index: int, n: nat, a: nat, b: nat)
    requires n > 0
    ensures NextN(NextN(index, n, a), n, b) == NextN(index, n, a + b)
  {
    if b > 0 {
      NextNCompose(index, n, a, b - 1);
    }
  }

  /** `n` calls of `nextHighlight` bring the cursor back to where it started. */
  lemma NextCycles(index: int, n: nat)
    requires 0 <= index < n
    ensures NextN(index, n, n) == index
  {
    var toLast := n - 1 - index;
    NextNAdds(index, n, toLast);
    assert NextN(index, n, toLast + 1) == 0;
    if index > 0 {
      NextNAdds(0, n, index - 1);
      assert NextN(0, n, index) == index;
    }
    NextNCompose(index, n, toLast + 1, index);
  }

  class SearchState {
    var searchQuery: string
    var isSearchActive: bool
    var highlightedMessageIds: seq<string>
    var currentHighlightIndex: int

    /** The cursor invariant every action except `SetCurrentHighlightIndex` keeps. */
    predicate Valid()
      reads this
    {
      CursorInRange(currentHighlightIndex, |highlightedMessageIds|)
    }

    /** The initial state: empty query, inactive, no matches, cursor -1. */
    constructor ()
      ensures searchQuery == [] && !isSearchActive
      ensures highlightedMessageIds == [] && currentHighlightIndex == -1
      ensures Valid()
    {
      searchQuery := [];
      isSearchActive := false;
      highlightedMessageIds := [];
      currentHighlightIndex := -1;
    }

    method SetSearchQuery(query: string)
      modifies this
      ensures searchQuery == query
      ensures isSearchActive == old(isSearchActive)
      ensures highlightedMessageIds == old(highlightedMessageIds)
      ensures currentHighlightIndex == old(currentHighlightIndex)
    {
      searchQuery := query;
    }

    method SetIsSearchActive(active: bool)
      modifies this
      ensures isSearchActive == active
      ensures searchQuery == old(searchQuery)
      ensures highlightedMessageIds == old(highlightedMessageIds)
      ensures currentHighlightIndex == old(currentHighlightIndex)
    {
      isSearchActive := active;
    }

    /** Stores the matches and puts the cursor on the first one, or at -1 when there is none. */
    method SetHighlightedMessageIds(ids: seq<string>)
      modifies this
      ensures highlightedMessageIds == ids
      ensures currentHighlightIndex == if |ids| > 0 then 0 else -1
      ensures searchQuery == old(searchQuery) && isSearchActive == old(isSearchActive)
      ensures Valid()
    {
      highlightedMessageIds := ids;
      currentHighlightIndex := if |ids| > 0 then 0 else -1;
    }

    /** Stores any index, unchecked: this is the one action that can break `Valid()`. */
    method SetCurrentHighlightIndex(index: int)
      modifies this
      ensures currentHighlightIndex == index
      ensures searchQuery == old(searchQuery) && isSearchActive == old(isSearchActive)
      ensures highlightedMessageIds == old(highlightedMessageIds)
    {
      currentHighlightIndex := index;
    }

    /** Back to the initial state. */
    method ClearSearch()
      modifies this
      ensures searchQuery == [] && !isSearchActive
      ensures highlightedMessageIds == [] && currentHighlightIndex == -1
      ensures Valid()
    {
      searchQuery := [];
      isSearchActive := false;
      highlightedMessageIds := [];
      currentHighlightIndex := -1;
    }

    /** Moves the cursor one match forward, wrapping to the first; nothing happens without matches. */
    method NextHighlight()
      modifies this
      ensures |highlightedMessageIds| == 0 ==> currentHighlightIndex == old(currentHighlightIndex)
      ensures |highlightedMessageIds| > 0 ==>
                currentHighlightIndex == NextIndex(old(currentHighlightIndex), |highlightedMessageIds|)
      ensures highlightedMessageIds == old(highlightedMessageIds)
      ensures searchQuery == old(searchQuery) && isSearchActive == old(isSearchActive)
      ensures old(Valid()) ==> Valid()
    {
      if |highlightedMessageIds| == 0 {
        return;
      }
      currentHighlightIndex := JsRem(currentHighlightIndex + 1, |highlightedMessageIds|);
    }

    /** Moves the cursor one match back, wrapping to the last; nothing happens without matches. */
    method PrevHighlight()
      modifies this
      ensures |highlightedMessageIds| == 0 ==> currentHighlightIndex == old(currentHighlightIndex)
      ensures |highlightedMessageIds| > 0 ==>
                currentHighlightIndex == PrevIndex(old(currentHighlightIndex), |highlightedMessageIds|)
      ensures highlightedMessageIds == old(highlightedMessageIds)
      ensures searchQuery == old(searchQuery) && isSearchActive == old(isSearchActive)
      ensures old(Valid()) ==> Valid()
    {
      if |highlightedMessageIds| == 0 {
        return;
      }
      var n := |highlightedMessageIds|;
      currentHighlightIndex := if currentHighlightIndex == 0 then n - 1 else currentHighlightIndex - 1;
    }
  }

  /** An unchecked index leaves the cursor invariant: `setCurrentHighlightIndex(5)` with two matches. */
  lemma UncheckedIndexBreaksRange()
    ensures !CursorInRange(5, 2)
  {
  }
}
