/**
 * The bar record and the filter engine behind the "Bars" page: the free-text query,
 * the required ambiance and drink tags and the accessible-only switch.
 */
module Bars {
  import opened Wrappers
  import opened Seqs
  import opened Text

  /** A line of a bar's menu. */
  datatype MenuItem = MenuItem(name: string, price: int)

  /**
   * A bar as delivered by the bars endpoint. `ambiances`, `drinks`, `allergens` and
   * `menu` may be absent from a record (`None`); the page reads an absent list as empty.
   */
  datatype Bar = Bar(
    id: string,
    name: string,
    city: string,
    description: string,
    photo: string,
    rating: real,
    priceLevel: string,
    accessible: bool,
    ambiances: Option<seq<string>>,
    drinks: Option<seq<string>>,
    allergens: Option<seq<string>>,
    menu: Option<seq<MenuItem>>)

  /** The two tag categories a bar can be filtered on. */
  datatype TagField = Ambiances | Drinks

  /** `b.ambiances || []` and `b.drinks || []`. */
  function TagsOf(b: Bar, field: TagField): seq<string> {
    var tags := if field == Ambiances then b.ambiances else b.drinks;
    if tags.Some? then tags.value else []
  }

  /** The four inputs of the filter engine. */
  datatype Criteria = Criteria(
    query: string,
    ambFilter: seq<string>,
    drinkFilter: seq<string>,
    onlyAccessible: bool)

  /** The state the page starts in: nothing typed, nothing selected, switch off. */
  const NoCriteria := Criteria("", [], [], false)

  /** `required.every(t => tags.includes(t))`. */
  function IncludesAll(tags: seq<string>, required: seq<string>): (r: bool)
    ensures r <==> forall t :: t in required ==> t in tags
    decreases |required|
  {
    if required == [] then true
    else
      assert forall t :: t in required ==> t == required[0] || t in required[1..];
      required[0] in tags && IncludesAll(tags, required[1..])
  }

  /**
   * The text check: an empty query passes every bar, otherwise the lowered query must
   * occur somewhere in the lowered name or in the lowered city.
   */
  predicate QueryOk(b: Bar, query: string)
    ensures QueryOk(b, query) <==>
      || query == ""
      || (exists i :: OccursAt(Lower(b.name), Lower(query), i))
      || (exists i :: OccursAt(Lower(b.city), Lower(query), i))
  {
    query == "" || Includes(Lower(b.name), Lower(query)) || Includes(Lower(b.city), Lower(query))
  }

  /**
   * A tag check: every selected tag must be on the bar. The `length === 0` shortcut does
   * not change the verdict, since an empty selection is met by every bar.
   */
  predicate TagsOk(b: Bar, field: TagField, selected: seq<string>)
    ensures TagsOk(b, field, selected) <==> forall t :: t in selected ==> t in TagsOf(b, field)
  {
    |selected| == 0 || IncludesAll(TagsOf(b, field), selected)
  }

  /** The accessibility check: with the switch on only accessible bars pass, with it off all do. */
  predicate AccessOk(b: Bar, onlyAccessible: bool)
    ensures onlyAccessible ==> (AccessOk(b, onlyAccessible) <==> b.accessible)
    ensures !onlyAccessible ==> AccessOk(b, onlyAccessible)
  {
    !onlyAccessible || b.accessible
  }

  /**
   * The predicate handed to `bars.filter`: the four checks together, each spelled out as
   * the page promises it.
   */
  predicate Matches(b: Bar, c: Criteria)
    ensures Matches(b, c) <==>
      && (c.query == "" || (exists i :: OccursAt(Lower(b.name), Lower(c.query), i))
                        || (exists i :: OccursAt(Lower(b.city), Lower(c.query), i)))
      && (forall t :: t in c.ambFilter ==> t in TagsOf(b, Ambiances))
      && (forall t :: t in c.drinkFilter ==> t in TagsOf(b, Drinks))
      && (c.onlyAccessible ==> b.accessible)
  {
    QueryOk(b, c.query) && TagsOk(b, Ambiances, c.ambFilter) &&
    TagsOk(b, Drinks, c.drinkFilter) && AccessOk(b, c.onlyAccessible)
  }

  /**
   * `results`: the bars that pass, in their original order. Each matching bar is kept
   * as often as it occurs in the input, each other bar is dropped.
   */
  function Results(bars: seq<Bar>, c: Criteria): (r: seq<Bar>)
    ensures IsSubsequence(r, bars)
    ensures forall b :: multiset(r)[b] == if Matches(b, c) then multiset(bars)[b] else 0
    decreases |bars|
  {
    if bars == [] then []
    else
      var rest := Results(bars[1..], c);
      assert bars == [bars[0]] + bars[1..];
      if Matches(bars[0], c) then [bars[0]] + rest else rest
  }

  /** A bar is shown exactly when it is loaded and passes the four checks. */
  lemma ResultsMembership(bars: seq<Bar>, c: Criteria, b: Bar)
    ensures b in Results(bars, c) <==> b in bars && Matches(b, c)
  {
    var r := Results(bars, c);
    assert b in r <==> multiset(r)[b] > 0;
    assert b in bars <==> multiset(bars)[b] > 0;
  }

  /** With no input set, the engine shows every loaded bar, in order. */
  lemma {:induction false} NoCriteriaIsIdentity(bars: seq<Bar>)
    ensures Results(bars, NoCriteria) == bars
    decreases |bars|
  {
    if bars != [] {
      NoCriteriaIsIdentity(bars[1..]);
      assert Matches(bars[0], NoCriteria);
      assert [bars[0]] + bars[1..] == bars;
    }
  }

  /** Filtering the shown bars again with the same inputs changes nothing. */
  lemma {:induction false} ResultsIdempotent(bars: seq<Bar>, c: Criteria)
    ensures Results(Results(bars, c), c) == Results(bars, c)
    decreases |bars|
  {
    if bars != [] {
      ResultsIdempotent(bars[1..], c);
      if Matches(bars[0], c) {
        var r := Results(bars, c);
        assert r == [bars[0]] + Results(bars[1..], c);
        assert r[1..] == Results(bars[1..], c);
      }
    }
  }

  /** A bar without any tag of a category fails as soon as one tag of it is selected. */
  lemma MissingTagsExcluded(bars: seq<Bar>, c: Criteria, b: Bar, field: TagField)
    requires TagsOf(b, field) == []
    requires |if field == Ambiances then c.ambFilter else c.drinkFilter| > 0
    ensures b !in Results(bars, c)
  {
    ResultsMembership(bars, c, b);
    var selected := if field == Ambiances then c.ambFilter else c.drinkFilter;
    assert selected[0] in selected;
  }

  /** With the switch on, only accessible bars are shown. */
  lemma OnlyAccessibleShown(bars: seq<Bar>, c: Criteria)
    requires c.onlyAccessible
    ensures forall b :: b in Results(bars, c) ==> b.accessible
  {
    forall b | b in Results(bars, c) ensures b.accessible {
      ResultsMembership(bars, c, b);
    }
  }

  /** `c2` asks for at least what `c1` asks for: same text and switch, more tags. */
  predicate Narrower(c2: Criteria, c1: Criteria) {
    c2.query == c1.query && (c1.onlyAccessible ==> c2.onlyAccessible) &&
    (forall t :: t in c1.ambFilter ==> t in c2.ambFilter) &&
    (forall t :: t in c1.drinkFilter ==> t in c2.drinkFilter)
  }

  /** Selecting more tags or switching accessibility on only removes bars from the results. */
  lemma {:induction false} NarrowerShowsSubsequence(bars: seq<Bar>, c2: Criteria, c1: Criteria)
    requires Narrower(c2, c1)
    ensures IsSubsequence(Results(bars, c2), Results(bars, c1))
    decreases |bars|
  {
    if bars != [] {
      NarrowerShowsSubsequence(bars[1..], c2, c1);
      var b := bars[0];
      var r1, r2 := Results(bars, c1), Results(bars, c2);
      var t1, t2 := Results(bars[1..], c1), Results(bars[1..], c2);
      if Matches(b, c2) {
        assert Matches(b, c1);
        assert r1 == [b] + t1 && r2 == [b] + t2;
        assert r2[1..] == t2 && r1[1..] == t1;
      } else if Matches(b, c1) {
        assert r1 == [b] + t1;
        assert r1[1..] == t1;
        assert r2 == t2;
      }
    }
  }

  /** Only which tags are selected matters, not their order or how often they are listed. */
  lemma {:induction false} SameSelectionSameResults(bars: seq<Bar>, c1: Criteria, c2: Criteria)
    requires Narrower(c1, c2) && Narrower(c2, c1)
    ensures Results(bars, c1) == Results(bars, c2)
    decreases |bars|
  {
    if bars != [] {
      SameSelectionSameResults(bars[1..], c1, c2);
    }
  }

  /** Two sample bars: a Parisian accessible rooftop and a Lyon cellar. */
  function SampleBars(): seq<Bar> {
    [Bar("1", "Le Perchoir", "Paris", "", "", 4.5, "€€", true, Some(["Rooftop"]), Some(["Cocktails"]), None, None),
     Bar("2", "Sous Sol", "Lyon", "", "", 4.0, "€", false, Some(["Cave"]), Some(["Bière"]), None, None)]
  }

  /** Selecting the "Rooftop" ambiance keeps only Le Perchoir. */
  lemma RooftopExample()
    ensures Results(SampleBars(), Criteria("", ["Rooftop"], [], false)) == [SampleBars()[0]]
  {
    var c := Criteria("", ["Rooftop"], [], false);
    assert Matches(SampleBars()[0], c);
    assert !IncludesAll(TagsOf(SampleBars()[1], Ambiances), ["Rooftop"]);
  }

  /** The accessible-only switch alone keeps only Le Perchoir. */
  lemma AccessibleExample()
    ensures Results(SampleBars(), Criteria("", [], [], true)) == [SampleBars()[0]]
  {
  }

  /** A query in capitals matches the city case-insensitively. */
  lemma QueryExample()
    ensures Results(SampleBars(), Criteria("LYO", [], [], false)) == [SampleBars()[1]]
  {
    var c := Criteria("LYO", [], [], false);
    var bars := SampleBars();
    QueryExampleVerdicts();
    assert bars[1..] == [bars[1]] && bars[1..][1..] == [];
    assert Results(bars[1..], c) == [bars[1]] + Results([], c);
  }

  /** "LYO" is found in "Lyon" and found neither in "Le Perchoir" nor in "Paris". */
  lemma QueryExampleVerdicts()
    ensures Matches(SampleBars()[1], Criteria("LYO", [], [], false))
    ensures !Matches(SampleBars()[0], Criteria("LYO", [], [], false))
  {
    var b0, b1 := SampleBars()[0], SampleBars()[1];
    var q := Lower("LYO");
    assert q[1] == 'y';
    assert Lower("Lyon")[..3] == q;
    assert OccursAt(Lower(b1.city), q, 0);
    IncludedCharsOccur(Lower(b0.name), q, 1);
    IncludedCharsOccur(Lower(b0.city), q, 1);
    assert 'y' !in Lower("Le Perchoir") && 'y' !in Lower("Paris");
  }

  /** When loading the bars failed the engine runs on the empty collection and shows nothing. */
  lemma EmptyCollection(c: Criteria)
    ensures Results([], c) == []
  {
  }
}
