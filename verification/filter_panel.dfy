/** The facet selection edited by the filter panel (app/components/FilterPanel.tsx):
    three multi-select lists and one region, changed only by the pure updates below. */
module FilterPanel {
  import opened Seqs

  /** `Filters`: an empty list or an empty region places no constraint. */
  datatype Filters = Filters(
    types: seq<string>,
    coed: seq<string>,
    establishment: seq<string>,
    region: string)

  /** The three list-valued facets `toggle` may name. */
  datatype FacetKey = Types | Coed | Establishment

  /** The state the panel starts in and the reset button restores. */
  const NoFilters: Filters := Filters([], [], [], "")

  /** The chip values the panel offers for each list facet. */
  const SchoolTypes: seq<string> := ["일반고", "특성화고", "특목고", "자율고"]
  const CoedOptions: seq<string> := ["남여공학", "남", "여"]
  const EstablishmentOptions: seq<string> := ["공립", "사립"]

  function Options(key: FacetKey): seq<string> {
    match key
    case Types => SchoolTypes
    case Coed => CoedOptions
    case Establishment => EstablishmentOptions
  }

  /** `filters[key]`. */
  function Get(f: Filters, key: FacetKey): seq<string> {
    match key
    case Types => f.types
    case Coed => f.coed
    case Establishment => f.establishment
  }

  /** `{ ...filters, [key]: list }`. */
  function With(f: Filters, key: FacetKey, list: seq<string>): (r: Filters)
    ensures Get(r, key) == list
    ensures forall k :: k != key ==> Get(r, k) == Get(f, k)
    ensures r.region == f.region
  {
    match key
    case Types => f.(types := list)
    case Coed => f.(coed := list)
    case Establishment => f.(establishment := list)
  }

  /** `current.filter((v) => v !== value)`. */
  function Without(list: seq<string>, value: string): (r: seq<string>)
    ensures forall x :: x in r <==> x in list && x != value
    ensures multiset(r) == multiset(list)[value := 0]
    ensures IsSubseq(r, list)
    ensures |r| <= |list|
  {
    if |list| == 0 then []
    else
      assert forall x :: x in list <==> x == list[0] || x in list[1..] by {
        assert list == [list[0]] + list[1..];
      }
      assert multiset(list) == multiset{list[0]} + multiset(list[1..]) by {
        assert list == [list[0]] + list[1..];
      }
      if list[0] == value then Without(list[1..], value)
      else [list[0]] + Without(list[1..], value)
  }

  /** A list the value does not occur in is left as it is. */
  lemma {:induction false} WithoutAbsent(list: seq<string>, value: string)
    requires value !in list
    ensures Without(list, value) == list
    decreases |list|
  {
    if |list| > 0 {
      WithoutAbsent(list[1..], value);
      assert list == [list[0]] + list[1..];
    }
  }

  lemma {:induction false} WithoutKeepsNoDuplicates(list: seq<string>, value: string)
    requires NoDuplicates(list)
    ensures NoDuplicates(Without(list, value))
    decreases |list|
  {
    if |list| > 0 {
      assert NoDuplicates(list[1..]) by {
        forall i, j | 0 <= i < j < |list[1..]| ensures list[1..][i] != list[1..][j] {
          assert list[1..][i] == list[i + 1] && list[1..][j] == list[j + 1];
        }
      }
      WithoutKeepsNoDuplicates(list[1..], value);
      if list[0] != value {
        var rest := Without(list[1..], value);
        assert list[0] !in list[1..] by {
          forall j | 0 <= j < |list[1..]| ensures list[1..][j] != list[0] {
            assert list[1..][j] == list[j + 1];
          }
        }
        var r := [list[0]] + rest;
        forall i, j | 0 <= i < j < |r| ensures r[i] != r[j] {
          if i == 0 {
            assert r[j] in rest;
          } else {
            assert r[i] == rest[i - 1] && r[j] == rest[j - 1];
          }
        }
      }
    }
  }

  /** `toggle(key, value)`: removes every occurrence of a selected value, or
      appends an unselected one after the existing selection. */
  function Toggle(f: Filters, key: FacetKey, value: string): (r: Filters)
    ensures value in Get(r, key) <==> value !in Get(f, key)
    ensures value in Get(f, key) ==> forall x :: x in Get(r, key) <==> x in Get(f, key) && x != value
    ensures value in Get(f, key) ==> multiset(Get(r, key)) == multiset(Get(f, key))[value := 0]
    ensures value in Get(f, key) ==> IsSubseq(Get(r, key), Get(f, key))
    ensures value !in Get(f, key) ==> Get(r, key) == Get(f, key) + [value]
    ensures forall k :: k != key ==> Get(r, k) == Get(f, k)
    ensures r.region == f.region
  {
    var current := Get(f, key);
    var next := if value in current then Without(current, value) else current + [value];
    With(f, key, next)
  }

  /** Toggling a value on and then off again restores the original selection. */
  lemma ToggleTwiceRestores(f: Filters, key: FacetKey, value: string)
    requires value !in Get(f, key)
    ensures Toggle(Toggle(f, key, value), key, value) == f
  {
    var once := Toggle(f, key, value);
    WithoutAbsent(Get(f, key), value);
    assert Without(Get(f, key) + [value], value) == Get(f, key) by {
      WithoutAppend(Get(f, key), value);
    }
    var twice := Toggle(once, key, value);
    assert Get(twice, key) == Get(f, key);
    match key
    case Types =>
    case Coed =>
    case Establishment =>
  }

  lemma {:induction false} WithoutAppend(list: seq<string>, value: string)
    ensures Without(list + [value], value) == Without(list, value)
    decreases |list|
  {
    if |list| == 0 {
      assert list + [value] == [value];
    } else {
      WithoutAppend(list[1..], value);
      assert (list + [value])[1..] == list[1..] + [value];
    }
  }

  /** A selection without repeats never acquires one by toggling. */
  lemma ToggleKeepsNoDuplicates(f: Filters, key: FacetKey, value: string)
    requires NoDuplicates(Get(f, key))
    ensures NoDuplicates(Get(Toggle(f, key, value), key))
  {
    var current := Get(f, key);
    if value in current {
      WithoutKeepsNoDuplicates(current, value);
    } else {
      var r := current + [value];
      forall i, j | 0 <= i < j < |r| ensures r[i] != r[j] {
        if j == |r| - 1 {
          assert r[i] in current;
        }
      }
    }
  }

  /** `hasActiveFilters`, which decides whether the reset button is shown:
      false exactly in the reset state. */
  function HasActiveFilters(f: Filters): (b: bool)
    ensures !b <==> f == NoFilters
  {
    |f.types| > 0 || |f.coed| > 0 || |f.establishment| > 0 || f.region != ""
  }

  /** The region selector's `onChange`: replaces the region and nothing else. */
  function ChangeRegion(f: Filters, region: string): (r: Filters)
    ensures r.region == region
    ensures forall k :: Get(r, k) == Get(f, k)
  {
    f.(region := region)
  }

  /** The reset button: every facet back to "no constraint", whatever was selected. */
  function Reset(f: Filters): (r: Filters)
    ensures !HasActiveFilters(r)
    ensures forall k :: Get(r, k) == []
    ensures r.region == ""
  {
    NoFilters
  }
}
