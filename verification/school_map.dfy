/** The derived views and the selection/viewport state of the map page
    (app/components/SchoolMap.tsx): the region list, the facet filter, and the
    transitions for selecting a school, closing its card and zooming. */
module SchoolMap {
  import opened Wrappers
  import opened Seqs
  import opened Strings
  import opened Types
  import opened FilterPanel

  // ---------------------------------------------------------------- facet filter

  /** One list facet admits a value: the list is empty or holds the value. */
  predicate Admits(list: seq<string>, value: string) {
    |list| == 0 || value in list
  }

  /** The callback given to `schools.filter`, with its early returns: a school
      is kept exactly when all four facets admit it. */
  function Keeps(f: Filters, s: School): (b: bool)
    ensures b <==> && Admits(f.types, s.kind)
                   && Admits(f.coed, s.coed)
                   && Admits(f.establishment, s.establishment)
                   && (f.region == "" || s.region == f.region)
  {
    if |f.types| > 0 && s.kind !in f.types then false
    else if |f.coed| > 0 && s.coed !in f.coed then false
    else if |f.establishment| > 0 && s.establishment !in f.establishment then false
    else if f.region != "" && s.region != f.region then false
    else true
  }

  /** `filteredSchools`: the kept schools in collection order. */
  function FilterSchools(schools: seq<School>, f: Filters): (r: seq<School>)
    ensures forall s :: s in r <==> s in schools && Keeps(f, s)
    ensures IsSubseq(r, schools)
    ensures |r| <= |schools|
  {
    if |schools| == 0 then []
    else
      assert forall s :: s in schools <==> s == schools[0] || s in schools[1..] by {
        assert schools == [schools[0]] + schools[1..];
      }
      if Keeps(f, schools[0]) then [schools[0]] + FilterSchools(schools[1..], f)
      else FilterSchools(schools[1..], f)
  }

  /** Every kept school is shown as often as the collection holds it; the
      filter neither merges nor drops copies. */
  lemma {:induction false} FilterSchoolsCounts(schools: seq<School>, f: Filters)
    ensures forall s :: multiset(FilterSchools(schools, f))[s]
                        == if Keeps(f, s) then multiset(schools)[s] else 0
    decreases |schools|
  {
    if |schools| > 0 {
      FilterSchoolsCounts(schools[1..], f);
      assert schools == [schools[0]] + schools[1..];
    }
  }

  /** A collection every school of which is kept passes through unchanged. */
  lemma {:induction false} FilterKeepsAll(schools: seq<School>, f: Filters)
    requires forall s :: s in schools ==> Keeps(f, s)
    ensures FilterSchools(schools, f) == schools
    decreases |schools|
  {
    if |schools| > 0 {
      assert schools[0] in schools;
      assert forall s :: s in schools[1..] ==> s in schools;
      FilterKeepsAll(schools[1..], f);
      assert schools == [schools[0]] + schools[1..];
    }
  }

  /** Filtering twice with the same selection filters once. */
  lemma FilterIdempotent(schools: seq<School>, f: Filters)
    ensures FilterSchools(FilterSchools(schools, f), f) == FilterSchools(schools, f)
  {
    FilterKeepsAll(FilterSchools(schools, f), f);
  }

  /** With no facet active the map shows the whole collection; in particular
      after the reset button. */
  lemma InactiveFilterIsIdentity(schools: seq<School>, f: Filters)
    requires !HasActiveFilters(f)
    ensures FilterSchools(schools, f) == schools
    ensures FilterSchools(schools, Reset(f)) == schools
  {
    FilterKeepsAll(schools, f);
  }

  /** Selecting one more chip in a facet that already constrains the view
      can only add schools. */
  lemma ToggleOnWidensNonEmptyFacet(schools: seq<School>, f: Filters, key: FacetKey, value: string, s: School)
    requires |Get(f, key)| > 0 && value !in Get(f, key)
    requires s in FilterSchools(schools, f)
    ensures s in FilterSchools(schools, Toggle(f, key, value))
  {
  }

  // ---------------------------------------------------------------- region list

  /** The regions present in a collection, as a set. */
  ghost function RegionSet(schools: seq<School>): set<string> {
    set s | s in schools :: s.region
  }

  /** `regions`: `Array.from(new Set(schools.map(s => s.region))).sort()`,
      built here by inserting each region into a sorted list. */
  function Regions(schools: seq<School>): (r: seq<string>)
    ensures StrictlySorted(r)
    ensures forall x :: x in r <==> x in RegionSet(schools)
  {
    if |schools| == 0 then []
    else
      var rest := Regions(schools[1..]);
      assert RegionSet(schools) == {schools[0].region} + RegionSet(schools[1..]) by {
        assert schools == [schools[0]] + schools[1..];
      }
      InsertSorted(rest, schools[0].region)
  }

  /** The region list holds each region once. */
  lemma RegionsDistinct(schools: seq<School>)
    ensures NoDuplicates(Regions(schools))
  {
    SortedHasNoDuplicates(Regions(schools));
  }

  /** Any strictly sorted list of exactly the collection's regions is the
      region list: the result does not depend on how it is computed. */
  lemma RegionsCanonical(schools: seq<School>, other: seq<string>)
    requires StrictlySorted(other)
    requires forall x :: x in other <==> x in RegionSet(schools)
    ensures other == Regions(schools)
  {
    SortedUnique(other, Regions(schools));
  }

  // ---------------------------------------------------------------- selection and viewport

  datatype LatLng = LatLng(lat: Number, lng: Number)

  /** The page's `selectedSchool`, `center` and `level`. */
  datatype MapState = MapState(selected: Option<School>, center: LatLng, level: int)

  const KoreaCenter: LatLng := LatLng(Finite(37.5174083), Finite(126.9754667))
  const DefaultLevel: int := 10
  /** The zoom level a selection moves to. */
  const FocusLevel: int := 4

  const InitialMap: MapState := MapState(None, KoreaCenter, DefaultLevel)

  function Position(s: School): LatLng {
    LatLng(s.latitude, s.longitude)
  }

  /** No school selected: no card is shown. */
  predicate Idle(m: MapState) {
    m.selected.None?
  }

  /** A school is selected and the map's center is that school. */
  predicate Focused(m: MapState, s: School) {
    m.selected == Some(s) && m.center == Position(s)
  }

  /** `handleSelectSchool`, reached from a marker click and from a search pick:
      the same focused state whatever came before. */
  function Select(m: MapState, s: School): (r: MapState)
    ensures Focused(r, s)
    ensures r.level == FocusLevel
  {
    MapState(Some(s), Position(s), FocusLevel)
  }

  /** Selecting replaces any earlier selection and viewport outright. */
  lemma SelectForgetsPrior(m1: MapState, m2: MapState, s: School)
    ensures Select(m1, s) == Select(m2, s)
  {
  }

  /** The card's close button: the selection is cleared, the viewport stays put. */
  function Close(m: MapState): (r: MapState)
    ensures Idle(r)
    ensures r.center == m.center && r.level == m.level
  {
    m.(selected := None)
  }

  /** `onZoomChanged`: the widget reports its zoom level; nothing else changes. */
  function Zoom(m: MapState, level: int): (r: MapState)
    ensures r.level == level
    ensures r.selected == m.selected && r.center == m.center
  {
    m.(level := level)
  }

  /** Closing twice is closing once. */
  lemma CloseIdempotent(m: MapState)
    ensures Close(Close(m)) == Close(m)
  {
  }

  /** After a selection is closed the map stays centered on that school at the
      focus level; it does not return to the default view. */
  lemma CloseAfterSelectKeepsViewport(m: MapState, s: School)
    ensures Idle(Close(Select(m, s)))
    ensures Close(Select(m, s)).center == Position(s)
    ensures Close(Select(m, s)).level == FocusLevel
  {
  }

  /** Zooming and closing are independent of each other. */
  lemma ZoomCloseCommute(m: MapState, level: int)
    ensures Close(Zoom(m, level)) == Zoom(Close(m), level)
  {
  }

  /** A zoom keeps a focused map focused on the same school. */
  lemma ZoomKeepsFocus(m: MapState, s: School, level: int)
    requires Focused(m, s)
    ensures Focused(Zoom(m, level), s)
  {
  }
}
