/** The search box (app/components/SearchBar.tsx): case-insensitive substring
    search over name, address and region, at most twenty suggestions, and the
    box's own state of query text, suggestions and dropdown.

    `toLowerCase` is the parameter `lower`, left uninterpreted: the data is
    mostly Hangul and the model assumes nothing about how case is folded. */
module SearchBar {
  import opened Seqs
  import opened Strings
  import opened Types

  /** `slice(0, 20)`. */
  const MaxResults: nat := 20

  /** The lowered query occurs in the lowered name, address or region. */
  predicate Matches(lower: string -> string, lowered: string, s: School) {
    || Contains(lower(s.name), lowered)
    || Contains(lower(s.address), lowered)
    || Contains(lower(s.region), lowered)
  }

  /** The `schools.filter(...)` step: every matching school, in collection order. */
  function AllMatches(schools: seq<School>, lower: string -> string, lowered: string): (r: seq<School>)
    ensures forall s :: s in r <==> s in schools && Matches(lower, lowered, s)
    ensures IsSubseq(r, schools)
    ensures |r| <= |schools|
  {
    if |schools| == 0 then []
    else
      assert forall s :: s in schools <==> s == schools[0] || s in schools[1..] by {
        assert schools == [schools[0]] + schools[1..];
      }
      if Matches(lower, lowered, schools[0]) then [schools[0]] + AllMatches(schools[1..], lower, lowered)
      else AllMatches(schools[1..], lower, lowered)
  }

  /** Every match is kept as often as the collection holds it. */
  lemma {:induction false} AllMatchesCounts(schools: seq<School>, lower: string -> string, lowered: string)
    ensures forall s :: multiset(AllMatches(schools, lower, lowered))[s]
                        == if Matches(lower, lowered, s) then multiset(schools)[s] else 0
    decreases |schools|
  {
    if |schools| > 0 {
      AllMatchesCounts(schools[1..], lower, lowered);
      assert schools == [schools[0]] + schools[1..];
    }
  }

  function Min(a: nat, b: nat): nat {
    if a <= b then a else b
  }

  /** `search(q)`: nothing for the empty query; otherwise the first twenty
      matches, in collection order. */
  function Search(schools: seq<School>, lower: string -> string, q: string): (r: seq<School>)
    ensures |q| == 0 ==> r == []
    ensures |r| <= MaxResults
    ensures IsSubseq(r, schools)
    ensures |q| > 0 ==> forall s :: s in r ==> Matches(lower, lower(q), s)
    ensures |q| > 0 ==> |r| == Min(MaxResults, |AllMatches(schools, lower, lower(q))|)
    ensures |q| > 0 ==> forall k :: 0 <= k < |r| ==> r[k] == AllMatches(schools, lower, lower(q))[k]
  {
    if |q| == 0 then []
    else
      var matched := AllMatches(schools, lower, lower(q));
      var r := matched[..Min(MaxResults, |matched|)];
      PrefixIsSubseq(matched, |r|);
      SubseqTransitive(r, matched, schools);
      r
  }

  /** When at most twenty schools match, every one of them is suggested. */
  lemma SearchReturnsAllFewMatches(schools: seq<School>, lower: string -> string, q: string, s: School)
    requires |q| > 0
    requires |AllMatches(schools, lower, lower(q))| <= MaxResults
    requires s in schools && Matches(lower, lower(q), s)
    ensures s in Search(schools, lower, q)
  {
    var matched := AllMatches(schools, lower, lower(q));
    assert Search(schools, lower, q) == matched;
  }

  /** A suggested school holds the lowered query at some position of its
      lowered name, address or region. */
  lemma SearchResultHasOccurrence(schools: seq<School>, lower: string -> string, q: string, s: School)
    requires |q| > 0 && s in Search(schools, lower, q)
    ensures || (exists i: nat :: OccursAt(lower(s.name), lower(q), i))
            || (exists i: nat :: OccursAt(lower(s.address), lower(q), i))
            || (exists i: nat :: OccursAt(lower(s.region), lower(q), i))
  {
    ContainsIff(lower(s.name), lower(q));
    ContainsIff(lower(s.address), lower(q));
    ContainsIff(lower(s.region), lower(q));
  }

  /** The search box: the text typed, the current suggestions, and whether
      the dropdown is open. */
  datatype SearchBox = SearchBox(query: string, results: seq<School>, open: bool)

  const InitialBox: SearchBox := SearchBox("", [], false)

  /** The dropdown is rendered only while open and non-empty. */
  predicate DropdownShown(box: SearchBox) {
    box.open && |box.results| > 0
  }

  /** The input's `onChange`: the query becomes the text, the suggestions are
      recomputed from it, and the dropdown opens. */
  function Edit(box: SearchBox, schools: seq<School>, lower: string -> string, text: string): (r: SearchBox)
    ensures r.query == text && r.open
    ensures r.results == Search(schools, lower, text)
    ensures |r.results| <= MaxResults
    ensures forall s :: s in r.results ==> s in schools
    ensures |text| == 0 ==> !DropdownShown(r)
  {
    var results := Search(schools, lower, text);
    SubseqMembers(results, schools);
    SearchBox(text, results, true)
  }

  /** Typing shows the dropdown exactly when the text is non-empty and some
      school of the collection matches it. */
  lemma EditShowsDropdown(box: SearchBox, schools: seq<School>, lower: string -> string, text: string)
    ensures DropdownShown(Edit(box, schools, lower, text))
            <==> |text| > 0 && exists s :: s in schools && Matches(lower, lower(text), s)
  {
    if |text| > 0 {
      var r := Search(schools, lower, text);
      if exists s :: s in schools && Matches(lower, lower(text), s) {
        var s :| s in schools && Matches(lower, lower(text), s);
        assert s in AllMatches(schools, lower, lower(text));
      }
      if |r| > 0 {
        SubseqMembers(r, schools);
        assert r[0] in r;
      }
    }
  }

  /** Clicking a suggestion: the query shows the school's name and the dropdown
      closes. The suggestions are not recomputed for the new query. The chosen
      school goes to `onSelect`, which the page composes with this update. */
  function Pick(box: SearchBox, s: School): (r: SearchBox)
    ensures r.query == s.name
    ensures !r.open && !DropdownShown(r)
    ensures r.results == box.results
  {
    box.(query := s.name, open := false)
  }
}
