/** The normaliser behind the `/api/schools` endpoint (app/api/schools/route.ts):
    each raw row becomes a canonical school or is dropped, and the endpoint
    serves the surviving schools in dataset order.

    `parseFloat` followed by the `isNaN` test is the parameter `parse`:
    `None` stands for NaN, `Some(n)` for any other number, infinities included. */
module SchoolsApi {
  import opened Wrappers
  import opened Types

  /** The establishment recorded when a row has no `설립명` at all. */
  const DefaultEstablishment: string := "기타"

  /** JavaScript truthiness of an optional string field: `undefined`, `null`
      and `""` are falsy; every other string, "0" included, is truthy. */
  predicate Falsy(field: Option<string>) {
    field.None? || field.value == ""
  }

  /** The row carries two coordinates that are present, non-empty and not NaN. */
  predicate HasCoordinates(raw: SchoolRaw, parse: string -> Option<Number>) {
    && !Falsy(raw.latitude)
    && !Falsy(raw.longitude)
    && parse(raw.latitude.value).Some?
    && parse(raw.longitude.value).Some?
  }

  /** The one-to-one renaming of the text fields, untrimmed and in the same case. */
  ghost predicate CopiesTextFields(raw: SchoolRaw, s: School) {
    && s.id == raw.adminCode
    && s.name == raw.schoolName
    && s.englishName == raw.englishSchoolName
    && s.kind == raw.highSchoolCategory
    && s.address == raw.roadAddress
    && s.addressDetail == raw.roadAddressDetail
    && s.phone == raw.phoneNumber
    && s.fax == raw.faxNumber
    && s.website == raw.homepage
    && s.coed == raw.coedName
    && s.region == raw.provinceName
    && s.admissionTiming == raw.admissionPeriod
    && s.dayNight == raw.dayNightName
    && s.foundedDate == raw.foundedOn
  }

  /** `toSchool`: `None` is the `null` the code returns for a row it drops. */
  function ToSchool(raw: SchoolRaw, parse: string -> Option<Number>): (r: Option<School>)
    ensures Falsy(raw.latitude) || Falsy(raw.longitude) ==> r == None
    ensures (!Falsy(raw.latitude) && !Falsy(raw.longitude)
             && (parse(raw.latitude.value).None? || parse(raw.longitude.value).None?)) ==> r == None
    ensures r.Some? <==> HasCoordinates(raw, parse)
    ensures r.Some? ==> (r.value.latitude == parse(raw.latitude.value).value
                         && r.value.longitude == parse(raw.longitude.value).value)
    ensures r.Some? ==> (r.value.establishment == DefaultEstablishment
                         <==> raw.foundationName.None? || raw.foundationName.value == DefaultEstablishment)
    ensures r.Some? && raw.foundationName.Some? ==> r.value.establishment == raw.foundationName.value
    ensures r.Some? ==> CopiesTextFields(raw, r.value)
  {
    if Falsy(raw.latitude) || Falsy(raw.longitude) then None
    else
      var lat := parse(raw.latitude.value);
      var lng := parse(raw.longitude.value);
      if lat.None? || lng.None? then None
      else
        Some(School(
          id := raw.adminCode,
          name := raw.schoolName,
          englishName := raw.englishSchoolName,
          kind := raw.highSchoolCategory,
          establishment := raw.foundationName.GetOr(DefaultEstablishment),
          address := raw.roadAddress,
          addressDetail := raw.roadAddressDetail,
          latitude := lat.value,
          longitude := lng.value,
          phone := raw.phoneNumber,
          fax := raw.faxNumber,
          website := raw.homepage,
          coed := raw.coedName,
          region := raw.provinceName,
          admissionTiming := raw.admissionPeriod,
          dayNight := raw.dayNightName,
          foundedDate := raw.foundedOn))
  }

  /** An empty `설립명` is kept as the empty string: `??` replaces only an
      absent value, not a falsy one. */
  lemma EmptyEstablishmentKept(raw: SchoolRaw, parse: string -> Option<Number>)
    requires HasCoordinates(raw, parse)
    requires raw.foundationName == Some("")
    ensures ToSchool(raw, parse).Some?
    ensures ToSchool(raw, parse).value.establishment == ""
  {
  }

  /** The code tests only for NaN, so a coordinate that parses to an infinity
      is accepted and stored. */
  lemma InfiniteCoordinateAccepted(raw: SchoolRaw, parse: string -> Option<Number>)
    requires !Falsy(raw.latitude) && !Falsy(raw.longitude)
    requires parse(raw.latitude.value) == Some(Infinite(false))
    requires parse(raw.longitude.value).Some?
    ensures ToSchool(raw, parse).Some?
    ensures ToSchool(raw, parse).value.latitude == Infinite(false)
  {
  }

  /** `.filter((s) => s !== null)` on the mapped rows: the non-null results in order. */
  function NonNull(opts: seq<Option<School>>): (r: seq<School>)
    ensures |r| <= |opts|
    ensures forall s :: s in r <==> Some(s) in opts
  {
    if |opts| == 0 then []
    else
      assert forall o :: o in opts <==> o == opts[0] || o in opts[1..] by {
        assert opts == [opts[0]] + opts[1..];
      }
      (if opts[0].Some? then [opts[0].value] else []) + NonNull(opts[1..])
  }

  lemma {:induction false} NonNullConcat(a: seq<Option<School>>, b: seq<Option<School>>)
    ensures NonNull(a + b) == NonNull(a) + NonNull(b)
    decreases |a|
  {
    if |a| > 0 {
      NonNullConcat(a[1..], b);
      assert (a + b)[1..] == a[1..] + b;
    } else {
      assert a + b == b;
    }
  }

  /** `data.map(toSchool)`. */
  function MapToSchool(raws: seq<SchoolRaw>, parse: string -> Option<Number>): (r: seq<Option<School>>)
    ensures |r| == |raws|
    ensures forall i :: 0 <= i < |raws| ==> r[i] == ToSchool(raws[i], parse)
  {
    seq(|raws|, i requires 0 <= i < |raws| => ToSchool(raws[i], parse))
  }

  /** The collection `GET` serves: every row that survives `toSchool`, in
      dataset order. */
  function Collect(raws: seq<SchoolRaw>, parse: string -> Option<Number>): (r: seq<School>)
    ensures |r| <= |raws|
    ensures forall s :: s in r <==> exists i :: 0 <= i < |raws| && ToSchool(raws[i], parse) == Some(s)
  {
    var mapped := MapToSchool(raws, parse);
    assert forall s :: Some(s) in mapped <==> exists i :: 0 <= i < |raws| && ToSchool(raws[i], parse) == Some(s) by {
      forall s ensures Some(s) in mapped ==> exists i :: 0 <= i < |raws| && ToSchool(raws[i], parse) == Some(s) {
        if Some(s) in mapped {
          var i :| 0 <= i < |mapped| && mapped[i] == Some(s);
          assert ToSchool(raws[i], parse) == Some(s);
        }
      }
    }
    NonNull(mapped)
  }

  /** Normalising a concatenation normalises each part: rows never affect
      one another, and the order of the survivors is the dataset order. */
  lemma CollectConcat(a: seq<SchoolRaw>, b: seq<SchoolRaw>, parse: string -> Option<Number>)
    ensures Collect(a + b, parse) == Collect(a, parse) + Collect(b, parse)
  {
    assert MapToSchool(a + b, parse) == MapToSchool(a, parse) + MapToSchool(b, parse);
    NonNullConcat(MapToSchool(a, parse), MapToSchool(b, parse));
  }

  /** One row contributes its school, or nothing. */
  lemma CollectOne(raw: SchoolRaw, parse: string -> Option<Number>)
    ensures HasCoordinates(raw, parse) ==> Collect([raw], parse) == [ToSchool(raw, parse).value]
    ensures !HasCoordinates(raw, parse) ==> Collect([raw], parse) == []
  {
    assert MapToSchool([raw], parse) == [ToSchool(raw, parse)];
    assert NonNull([ToSchool(raw, parse)]) == (if HasCoordinates(raw, parse) then [ToSchool(raw, parse).value] else []) + NonNull([]);
  }

  lemma {:induction false} NonNullKeepsAll(opts: seq<Option<School>>)
    requires forall i :: 0 <= i < |opts| ==> opts[i].Some?
    ensures |NonNull(opts)| == |opts|
    decreases |opts|
  {
    if |opts| > 0 {
      NonNullKeepsAll(opts[1..]);
    }
  }

  /** No row is lost when every row has usable coordinates. */
  lemma CollectKeepsValidRows(raws: seq<SchoolRaw>, parse: string -> Option<Number>)
    requires forall i :: 0 <= i < |raws| ==> HasCoordinates(raws[i], parse)
    ensures |Collect(raws, parse)| == |raws|
  {
    NonNullKeepsAll(MapToSchool(raws, parse));
  }
}
