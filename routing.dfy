/**
 * The page selection of the app. The current page is a plain string: "home", "bars",
 * "events", "profile", or "bar:" followed by the id of the bar whose details are shown.
 */
module Routing {
  import opened Wrappers
  import opened Text
  import opened Bars

  /** The prefix of a drill-down route. */
  const DrillPrefix: string := "bar:"

  /**
   * `route.startsWith('bar:')`. Such a route splits on `':'` into `"bar"` and at least one
   * more piece, so `route.split(':')[1]` always exists on it.
   */
  predicate IsDrillDown(route: string)
    ensures IsDrillDown(route) ==> |Split(route, ':')| >= 2 && Split(route, ':')[0] == "bar"
  {
    if StartsWith(route, DrillPrefix) then
      var rest := route[|DrillPrefix|..];
      assert route == "bar" + [':'] + rest;
      SplitAtFirst("bar", ':', rest);
      true
    else
      false
  }

  /**
   * `route.split(':')[1]` on a drill-down route: the text after the first colon, up to
   * the next colon if there is one.
   */
  function DrillId(route: string): (id: string)
    requires IsDrillDown(route)
    ensures ':' !in id
    ensures |DrillPrefix| + |id| <= |route| && route[|DrillPrefix|..|DrillPrefix| + |id|] == id
    ensures |DrillPrefix| + |id| == |route| || route[|DrillPrefix| + |id|] == ':'
  {
    var rest := route[|DrillPrefix|..];
    assert route == "bar" + [':'] + rest;
    SplitAtFirst("bar", ':', rest);
    SplitFirstPiece(rest, ':');
    Split(route, ':')[1]
  }

  /** `bars.find(b => b.id === id)`: the first bar with that id, if any. */
  function FindById(bars: seq<Bar>, id: string): (r: Option<Bar>)
    ensures r.Some? ==> r.value in bars && r.value.id == id
    ensures r.None? <==> forall b :: b in bars ==> b.id != id
    decreases |bars|
  {
    if bars == [] then None
    else if bars[0].id == id then Some(bars[0])
    else
      assert forall b :: b in bars ==> b == bars[0] || b in bars[1..];
      FindById(bars[1..], id)
  }

  /** `find` returns the first match, not just any match. */
  lemma {:induction false} FindIsFirst(bars: seq<Bar>, id: string, k: nat)
    requires k < |bars| && bars[k].id == id
    requires forall j :: 0 <= j < k ==> bars[j].id != id
    ensures FindById(bars, id) == Some(bars[k])
    decreases k
  {
    if k > 0 {
      FindIsFirst(bars[1..], id, k - 1);
    }
  }

  /** `currentBar`: on a drill-down route the first bar with the route's id, otherwise none. */
  function CurrentBar(bars: seq<Bar>, route: string): (r: Option<Bar>)
    ensures r.Some? ==> IsDrillDown(route) && r.value in bars && r.value.id == DrillId(route)
    ensures r.None? <==> !IsDrillDown(route) || forall b :: b in bars ==> b.id != DrillId(route)
  {
    if IsDrillDown(route) then FindById(bars, DrillId(route)) else None
  }

  /** The "Bars" navigation button is highlighted exactly on the bar list and the detail pages. */
  predicate BarsNavActive(route: string)
    ensures BarsNavActive(route) <==> Parse(route) == BarList || Parse(route).BarPage?
  {
    route == "bars" || IsDrillDown(route)
  }

  /**
   * The value of the mobile page selector. It shows "bars" on the bar list and on every
   * detail page and the route itself elsewhere; choosing what it shows never opens a
   * detail page.
   */
  function SelectValue(route: string): (v: string)
    ensures Parse(route) == BarList || Parse(route).BarPage? ==> v == "bars"
    ensures Parse(route) != BarList && !Parse(route).BarPage? ==> v == route
    ensures Parse(v) == if Parse(route).BarPage? then BarList else Parse(route)
  {
    FixedRoutesAreNotDrillDown();
    if IsDrillDown(route) then "bars" else route
  }

  /** The page a route string stands for. */
  datatype Page = Home | BarList | BarPage(id: string) | EventList | ProfilePage | NoPage

  /**
   * The page a route string decodes to: a detail page exactly on a `"bar:"` route,
   * nothing exactly when the route is none of the five known forms. Whether a section of
   * `main` is actually shown also depends on the loaded bars (see `Rendered`).
   */
  function Parse(route: string): (p: Page)
    ensures p.BarPage? <==> IsDrillDown(route)
    ensures p == NoPage <==>
      !IsDrillDown(route) && route != "home" && route != "bars" && route != "events" && route != "profile"
  {
    if IsDrillDown(route) then BarPage(DrillId(route))
    else if route == "home" then Home
    else if route == "bars" then BarList
    else if route == "events" then EventList
    else if route == "profile" then ProfilePage
    else NoPage
  }

  /**
   * The string `go` is called with to open a page; a detail page is `'bar:' + id`. The
   * route of a detail page is a drill-down route whose text after the prefix is the id;
   * the route of any other page decodes back to that page.
   */
  function Encode(p: Page): (route: string)
    requires p != NoPage
    ensures p.BarPage? <==> IsDrillDown(route)
    ensures p.BarPage? ==> route[|DrillPrefix|..] == p.id
    ensures !p.BarPage? ==> Parse(route) == p
  {
    FixedRoutesAreNotDrillDown();
    match p
    case Home => "home"
    case BarList => "bars"
    case BarPage(id) => DrillPrefix + id
    case EventList => "events"
    case ProfilePage => "profile"
  }

  /** The route of a colon-free id is a drill-down route naming that id. */
  lemma DrillIdOfColonFree(id: string)
    requires ':' !in id
    ensures IsDrillDown(DrillPrefix + id) && DrillId(DrillPrefix + id) == id
  {
    var route := DrillPrefix + id;
    assert route == "bar" + [':'] + id;
    SplitAtFirst("bar", ':', id);
    SplitNoSep(id, ':');
  }

  /** Opening a page and reading the route back gives that page, if the bar id holds no colon. */
  lemma ParseEncode(p: Page)
    requires p != NoPage
    requires p.BarPage? ==> ':' !in p.id
    ensures Parse(Encode(p)) == p
  {
    FixedRoutesAreNotDrillDown();
    if p.BarPage? {
      DrillIdOfColonFree(p.id);
    }
  }

  /** A recognised route is exactly the string its page is opened with, unless the id holds a colon. */
  lemma EncodeParse(route: string)
    requires Parse(route) != NoPage
    requires IsDrillDown(route) ==> ':' !in route[|DrillPrefix|..]
    ensures Encode(Parse(route)) == route
  {
    if IsDrillDown(route) {
      var rest := route[|DrillPrefix|..];
      assert route == DrillPrefix + rest;
      DrillIdOfColonFree(rest);
    }
  }

  /** A bar id holding a colon does not survive the round trip: only its first segment is kept. */
  lemma ColonInIdIsCut()
    ensures Parse(Encode(BarPage("a:b"))) == BarPage("a")
  {
    var route := Encode(BarPage("a:b"));
    assert route == "bar" + [':'] + ("a" + [':'] + "b");
    SplitAtFirst("bar", ':', "a" + [':'] + "b");
    SplitAtFirst("a", ':', "b");
  }

  /** None of the four fixed routes is a detail route; in particular "bars" lacks the colon of "bar:". */
  lemma FixedRoutesAreNotDrillDown()
    ensures !IsDrillDown("home") && !IsDrillDown("bars") && !IsDrillDown("events") && !IsDrillDown("profile")
    ensures Parse("bars") == BarList
  {
    assert "home"[0] != 'b' && "events"[0] != 'b' && "profile"[0] != 'b';
    assert "bars"[3] != ':';
  }

  /** On a detail route the page shows the first loaded bar carrying the route's id. */
  lemma CurrentBarIsFirst(bars: seq<Bar>, route: string, k: nat)
    requires IsDrillDown(route)
    requires k < |bars| && bars[k].id == DrillId(route)
    requires forall j :: 0 <= j < k ==> bars[j].id != DrillId(route)
    ensures CurrentBar(bars, route) == Some(bars[k])
  {
    FindIsFirst(bars, DrillId(route), k);
  }

  /**
   * What `main` renders for a route: the section of the page the route decodes to, except
   * that a detail route renders nothing while no loaded bar carries its id. The detail
   * section is shown exactly when `currentBar` is defined, and for that bar.
   */
  function Rendered(bars: seq<Bar>, route: string): (p: Page)
    ensures p.BarPage? <==> CurrentBar(bars, route).Some?
    ensures p.BarPage? ==> p.id == CurrentBar(bars, route).value.id
    ensures p != NoPage ==> p == Parse(route)
    ensures !IsDrillDown(route) ==> p == Parse(route)
  {
    if IsDrillDown(route) && CurrentBar(bars, route).None? then NoPage else Parse(route)
  }

  /**
   * Before the bars have loaded (the list starts empty) a detail route renders nothing,
   * although it decodes to a detail page.
   */
  lemma DetailWaitsForBars(route: string)
    requires IsDrillDown(route)
    ensures Parse(route).BarPage?
    ensures Rendered([], route) == NoPage
  {
  }

  /** "Voir la fiche" on a loaded bar with a colon-free id renders the detail page of that id. */
  lemma OpenDetailsRenders(bars: seq<Bar>, b: Bar)
    requires b in bars && ':' !in b.id
    ensures Rendered(bars, Encode(BarPage(b.id))) == BarPage(b.id)
  {
    DrillIdOfColonFree(b.id);
  }

  /** "Voir la fiche" on a bar whose id is unique and colon-free opens that very bar. */
  lemma OpenDetailsShowsBar(bars: seq<Bar>, b: Bar)
    requires b in bars && ':' !in b.id
    requires forall j :: 0 <= j < |bars| && bars[j].id == b.id ==> bars[j] == b
    ensures CurrentBar(bars, Encode(BarPage(b.id))) == Some(b)
  {
    ParseEncode(BarPage(b.id));
    var route := Encode(BarPage(b.id));
    var r := CurrentBar(bars, route);
    assert r.Some?;
  }
}
