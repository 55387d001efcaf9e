/** The map page as one state machine (app/components/SchoolMap.tsx with the
    search box and filter panel it renders): the loaded collection, the facet
    selection, the map state and the search box, changed only by the events
    the rendered controls and the map widget can raise. */
module Page {
  import opened Seqs
  import opened Strings
  import opened Types
  import opened FilterPanel
  import opened SchoolMap
  import opened SearchBar

  datatype PageState = PageState(
    schools: seq<School>,
    filters: Filters,
    view: MapState,
    box: SearchBox)

  datatype Event =
    | ToggleChip(key: FacetKey, value: string)
    | PickRegion(region: string)
    | ResetFilters
    | TypeQuery(text: string)
    | PickSuggestion(school: School)
    | ClickMarker(school: School)
    | CloseCard
    | ZoomChanged(level: int)

  /** The page as mounted, with the collection already loaded. */
  function Initial(schools: seq<School>): PageState {
    PageState(schools, NoFilters, InitialMap, InitialBox)
  }

  /** The markers on the map. */
  function Visible(p: PageState): seq<School> {
    FilterSchools(p.schools, p.filters)
  }

  /** The event can come from something the page actually renders: a chip of
      the facet, an option of the region selector, the reset button (shown
      only while a filter is active), a suggestion in the open dropdown, a
      visible marker, or the card of the selected school. */
  function Enabled(p: PageState, ev: Event): (b: bool)
    ensures ev.ToggleChip? ==> (b <==> ev.value in Options(ev.key))
    ensures ev.PickRegion? ==> (b <==> ev.region == "" || ev.region in RegionSet(p.schools))
    ensures ev.ResetFilters? ==> (b <==> p.filters != NoFilters)
    ensures ev.TypeQuery? || ev.ZoomChanged? ==> b
    ensures ev.PickSuggestion? ==> (b <==> p.box.open && p.box.results != [] && ev.school in p.box.results)
    ensures ev.ClickMarker? ==> (b <==> ev.school in p.schools && Keeps(p.filters, ev.school))
    ensures ev.CloseCard? ==> (b <==> !Idle(p.view))
  {
    match ev
    case ToggleChip(key, value) => value in Options(key)
    case PickRegion(region) => region == "" || region in Regions(p.schools)
    case ResetFilters => HasActiveFilters(p.filters)
    case TypeQuery(_) => true
    case PickSuggestion(s) => DropdownShown(p.box) && s in p.box.results
    case ClickMarker(s) => s in Visible(p)
    case CloseCard => p.view.selected.Some?
    case ZoomChanged(_) => true
  }

  /** One event's effect on the page. */
  function Step(p: PageState, lower: string -> string, ev: Event): (r: PageState)
    ensures r.schools == p.schools
    ensures ev.ToggleChip? || ev.PickRegion? || ev.ResetFilters? ==> r.view == p.view && r.box == p.box
    ensures !(ev.ToggleChip? || ev.PickRegion? || ev.ResetFilters?) ==> r.filters == p.filters
    ensures !(ev.TypeQuery? || ev.PickSuggestion?) ==> r.box == p.box
    ensures ev.ToggleChip? ==> r.filters == Toggle(p.filters, ev.key, ev.value)
    ensures ev.PickRegion? ==> r.filters == ChangeRegion(p.filters, ev.region)
    ensures ev.ResetFilters? ==> r.filters == NoFilters
    ensures ev.TypeQuery? ==> r.box == Edit(p.box, p.schools, lower, ev.text) && r.view == p.view
    ensures ev.PickSuggestion? ==> r.box == Pick(p.box, ev.school)
    ensures ev.PickSuggestion? || ev.ClickMarker? ==> r.view == Select(p.view, ev.school)
    ensures ev.CloseCard? ==> r.view == Close(p.view)
    ensures ev.ZoomChanged? ==> r.view == Zoom(p.view, ev.level)
  {
    match ev
    case ToggleChip(key, value) => p.(filters := Toggle(p.filters, key, value))
    case PickRegion(region) => p.(filters := ChangeRegion(p.filters, region))
    case ResetFilters => p.(filters := Reset(p.filters))
    case TypeQuery(text) => p.(box := Edit(p.box, p.schools, lower, text))
    case PickSuggestion(s) => p.(view := Select(p.view, s), box := Pick(p.box, s))
    case ClickMarker(s) => p.(view := Select(p.view, s))
    case CloseCard => p.(view := Close(p.view))
    case ZoomChanged(level) => p.(view := Zoom(p.view, level))
  }

  /** What holds of every page reachable from the initial one. */
  ghost predicate Inv(p: PageState) {
    && (forall k :: NoDuplicates(Get(p.filters, k)))
    && (forall k, v :: v in Get(p.filters, k) ==> v in Options(k))
    && (p.filters.region == "" || p.filters.region in RegionSet(p.schools))
    && |p.box.results| <= MaxResults
    && (forall s :: s in p.box.results ==> s in p.schools)
    && (p.view.selected.Some? ==>
          (p.view.selected.value in p.schools && p.view.center == Position(p.view.selected.value)))
  }

  lemma InitialSatisfiesInv(schools: seq<School>)
    ensures Inv(Initial(schools))
  {
  }

  /** Every enabled event keeps the invariant: chips hold only offered values
      and never repeat, the region is one the collection has, suggestions and
      the selection come from the collection, and the map is centered on the
      selected school. */
  lemma StepPreservesInv(p: PageState, lower: string -> string, ev: Event)
    requires Inv(p) && Enabled(p, ev)
    ensures Inv(Step(p, lower, ev))
  {
    var r := Step(p, lower, ev);
    match ev
    case ToggleChip(key, value) =>
      forall k ensures NoDuplicates(Get(r.filters, k)) {
        if k == key {
          ToggleKeepsNoDuplicates(p.filters, key, value);
        }
      }
      forall k, v | v in Get(r.filters, k) ensures v in Options(k) {
        if k == key && v != value {
          assert v in Get(p.filters, k);
        }
      }
    case PickRegion(region) =>
    case ResetFilters =>
      assert forall k :: Get(r.filters, k) == [];
    case TypeQuery(text) =>
    case PickSuggestion(s) =>
    case ClickMarker(s) =>
    case CloseCard =>
    case ZoomChanged(level) =>
  }

  /** A school with only the fields the walkthrough below looks at. */
  function Sample(id: string, name: string, region: string, kind: string, lat: real, lng: real): School {
    School(id, name, "", kind, "", "", "", Finite(lat), Finite(lng), "", "", "", "", region, "", "", "")
  }

  const SeoulHigh: School := Sample("1", "Seoul High", "Seoul", "일반고", 37.5, 127.0)
  const BusanHigh: School := Sample("2", "Busan High", "Busan", "특목고", 35.1, 129.0)

  /** Two-school walkthrough, facets: selecting the 특목고 chip leaves the Busan school. */
  lemma WalkthroughFilter()
    ensures FilterSchools([SeoulHigh, BusanHigh], NoFilters.(types := ["특목고"])) == [BusanHigh]
  {
  }

  /** Two-school walkthrough, search: "seoul" suggests the Seoul school only.
      `lower` is only assumed to lower-case the strings involved. */
  lemma WalkthroughSearch(lower: string -> string)
    requires lower("seoul") == "seoul" && lower("") == ""
    requires lower("Seoul High") == "seoul high" && lower("Seoul") == "seoul"
    requires lower("Busan High") == "busan high" && lower("Busan") == "busan"
    ensures Search([SeoulHigh, BusanHigh], lower, "seoul") == [SeoulHigh]
  {
    assert Contains("seoul high", "seoul") by {
      assert "seoul" <= "seoul high";
    }
    assert "seoul"[1] == 'e';
    MissingCharNotContained("busan high", "seoul", 'e');
    MissingCharNotContained("busan", "seoul", 'e');
    MissingCharNotContained("", "seoul", 'e');
    assert !Matches(lower, "seoul", BusanHigh);
    assert Matches(lower, "seoul", SeoulHigh);
    assert AllMatches([SeoulHigh, BusanHigh], lower, "seoul") == [SeoulHigh] by {
      assert [SeoulHigh, BusanHigh][1..] == [BusanHigh];
      assert AllMatches([BusanHigh], lower, "seoul") == [];
    }
  }

  /** Two-school walkthrough, selection: picking the Busan school and closing
      its card leaves nothing selected and the map on Busan. */
  lemma WalkthroughSelectClose(m: MapState)
    ensures Idle(Close(Select(m, BusanHigh)))
    ensures Close(Select(m, BusanHigh)).center == LatLng(Finite(35.1), Finite(129.0))
  {
  }
}
