/**
 * The pill click handlers of the "Bars" page: clicking a tag selects it when it is not
 * selected and deselects it (every copy of it) when it is.
 */
module Toggle {
  import opened Seqs
  import opened Bars

  /** `cur.filter(x => x !== a)`: every copy of `a` removed, the rest in order. */
  function Without(cur: seq<string>, a: string): (r: seq<string>)
    ensures IsSubsequence(r, cur)
    ensures forall x :: x in r <==> x in cur && x != a
    ensures forall x :: multiset(r)[x] == if x == a then 0 else multiset(cur)[x]
    decreases |cur|
  {
    if cur == [] then []
    else
      var rest := Without(cur[1..], a);
      assert cur == [cur[0]] + cur[1..];
      if cur[0] == a then rest else [cur[0]] + rest
  }

  /** `cur => cur.includes(a) ? cur.filter(x => x !== a) : [...cur, a]`. */
  function ToggleTag(cur: seq<string>, a: string): (r: seq<string>)
    ensures a in r <==> a !in cur
    ensures forall x :: x != a ==> (x in r <==> x in cur)
    ensures a !in cur ==> r == cur + [a]
    ensures a in cur ==> IsSubsequence(r, cur) && forall x :: x != a ==> multiset(r)[x] == multiset(cur)[x]
  {
    if a in cur then Without(cur, a) else cur + [a]
  }

  /** Removing a tag that is not there changes nothing. */
  lemma {:induction false} WithoutAbsent(cur: seq<string>, a: string)
    requires a !in cur
    ensures Without(cur, a) == cur
    decreases |cur|
  {
    if cur != [] {
      WithoutAbsent(cur[1..], a);
      assert [cur[0]] + cur[1..] == cur;
    }
  }

  /** Removing a tag from a list ending in that tag drops the ending too. */
  lemma {:induction false} WithoutAppended(cur: seq<string>, a: string)
    ensures Without(cur + [a], a) == Without(cur, a)
    decreases |cur|
  {
    if cur == [] {
      assert ([a])[1..] == [];
    } else {
      assert (cur + [a])[1..] == cur[1..] + [a];
      WithoutAppended(cur[1..], a);
    }
  }

  /** Clicking an unselected pill twice gives back the selection as it was. */
  lemma ToggleTwiceRestores(cur: seq<string>, a: string)
    requires a !in cur
    ensures ToggleTag(ToggleTag(cur, a), a) == cur
  {
    WithoutAppended(cur, a);
    WithoutAbsent(cur, a);
  }

  /** The selection never holds a tag twice: toggling keeps a duplicate-free list so. */
  lemma ToggleKeepsNoDup(cur: seq<string>, a: string)
    requires NoDup(cur)
    ensures NoDup(ToggleTag(cur, a))
  {
    if a in cur {
      SubsequenceNoDup(ToggleTag(cur, a), cur);
    }
  }

  /**
   * The ambiance pill updater applied to the filter inputs: the pill's tag changes from
   * selected to unselected or back, every other input is left as it was.
   */
  function ToggleAmbiance(c: Criteria, a: string): (r: Criteria)
    ensures r.query == c.query && r.drinkFilter == c.drinkFilter && r.onlyAccessible == c.onlyAccessible
    ensures a in r.ambFilter <==> a !in c.ambFilter
    ensures forall x :: x != a ==> (x in r.ambFilter <==> x in c.ambFilter)
  {
    c.(ambFilter := ToggleTag(c.ambFilter, a))
  }

  /**
   * The drink pill updater applied to the filter inputs: the pill's tag changes from
   * selected to unselected or back, every other input is left as it was.
   */
  function ToggleDrink(c: Criteria, d: string): (r: Criteria)
    ensures r.query == c.query && r.ambFilter == c.ambFilter && r.onlyAccessible == c.onlyAccessible
    ensures d in r.drinkFilter <==> d !in c.drinkFilter
    ensures forall x :: x != d ==> (x in r.drinkFilter <==> x in c.drinkFilter)
  {
    c.(drinkFilter := ToggleTag(c.drinkFilter, d))
  }

  /**
   * Selecting a pill can only hide bars and deselecting it can only reveal bars: the
   * narrower results are always a subsequence of the wider ones.
   */
  lemma ToggleAmbianceNarrowsOrWidens(bars: seq<Bar>, c: Criteria, a: string)
    ensures a !in c.ambFilter ==> IsSubsequence(Results(bars, ToggleAmbiance(c, a)), Results(bars, c))
    ensures a in c.ambFilter ==> IsSubsequence(Results(bars, c), Results(bars, ToggleAmbiance(c, a)))
  {
    if a !in c.ambFilter {
      NarrowerShowsSubsequence(bars, ToggleAmbiance(c, a), c);
    } else {
      NarrowerShowsSubsequence(bars, c, ToggleAmbiance(c, a));
    }
  }

  /** The same for drink pills. */
  lemma ToggleDrinkNarrowsOrWidens(bars: seq<Bar>, c: Criteria, d: string)
    ensures d !in c.drinkFilter ==> IsSubsequence(Results(bars, ToggleDrink(c, d)), Results(bars, c))
    ensures d in c.drinkFilter ==> IsSubsequence(Results(bars, c), Results(bars, ToggleDrink(c, d)))
  {
    if d !in c.drinkFilter {
      NarrowerShowsSubsequence(bars, ToggleDrink(c, d), c);
    } else {
      NarrowerShowsSubsequence(bars, c, ToggleDrink(c, d));
    }
  }

  /** Clicking the same pill twice, selected or not, shows the same bars as before. */
  lemma ToggleTwiceSameResults(bars: seq<Bar>, c: Criteria, a: string)
    ensures Results(bars, ToggleAmbiance(ToggleAmbiance(c, a), a)) == Results(bars, c)
  {
    SameSelectionSameResults(bars, ToggleAmbiance(ToggleAmbiance(c, a), a), c);
  }
}
