/**
 * The school record transformer: a raw school record from the open-data
 * export becomes the document stored for the dashboard. The identifier is the
 * trimmed NCES id (a record without one is refused), the coordinates swap the
 * dataset's `lon` for the document's `lng`, and the enrollment figure is read
 * as an integer after its thousands separators are dropped.
 */
module SchoolTransform {
  import opened Wrappers
  import opened JsText
  import opened JsParse

  /** `geo_point_2d` as the dataset gives it, in degrees. */
  datatype GeoPoint = GeoPoint(lat: real, lon: real)

  datatype Coords = Coords(lat: real, lng: real)

  /** A raw record; every field may be missing. */
  datatype SchoolRecord = SchoolRecord(
    ncesid: Option<string>,
    name: Option<string>,
    geoPoint: Option<GeoPoint>,
    address: Option<string>,
    city: Option<string>,
    state: Option<string>,
    zip: Option<string>,
    telephone: Option<string>,
    county: Option<string>,
    level: Option<string>,
    enrollment: Option<string>,
    districtId: Option<string>)

  /** The stored document; `None` is the document's `null`. */
  datatype SchoolDoc = SchoolDoc(
    id: string,
    name: Option<string>,
    coords: Option<Coords>,
    address: Option<string>,
    city: Option<string>,
    state: Option<string>,
    zip: Option<string>,
    phone: Option<string>,
    county: Option<string>,
    level: Option<string>,
    enrollment: Option<int>,
    districtId: Option<string>)

  const MissingId := "Missing id in SchoolRecord"

  /** Nothing but white space (or nothing at all). */
  predicate Blank(s: string) {
    forall i :: 0 <= i < |s| ==> IsSpace(s[i])
  }

  /** `trim` leaves nothing exactly when there is nothing but white space. */
  lemma TrimEmptyIffBlank(s: string)
    ensures Trim(s) == [] <==> Blank(s)
  {
    var t := TrimStart(s);
    TrimStartShape(s);
    TrimEndShape(t);
  }

  /** `buildId`: the trimmed NCES id, or the "Missing id" error when it is absent or blank. */
  function BuildId(ncesid: Option<string>): (r: Result<string>)
    ensures r.Err? <==> ncesid.None? || Blank(ncesid.value)
    ensures r.Err? ==> r.message == MissingId
    ensures r.Ok? ==> r.value == Trim(ncesid.value) && r.value != [] && IsTrimmed(r.value)
  {
    if ncesid.None? then Err(MissingId)
    else
      TrimEmptyIffBlank(ncesid.value);
      TrimIsTrimmed(ncesid.value);
      if Trim(ncesid.value) == [] then Err(MissingId) else Ok(Trim(ncesid.value))
  }

  /** An identifier `buildId` returns is returned unchanged when built again. */
  lemma BuildIdStable(ncesid: Option<string>)
    requires BuildId(ncesid).Ok?
    ensures BuildId(Some(BuildId(ncesid).value)) == BuildId(ncesid)
  {
    TrimOfUnpadded(BuildId(ncesid).value);
  }

  /** `String(s).replace(/[, ]+/g, "")`: every comma and every space is dropped. */
  function DropSeparators(s: string): (r: string)
    ensures |r| <= |s|
    ensures forall i :: 0 <= i < |r| ==> r[i] != ',' && r[i] != ' '
  {
    if s == [] then []
    else (if s[0] == ',' || s[0] == ' ' then [] else [s[0]]) + DropSeparators(s[1..])
  }

  lemma {:induction false} DropSeparatorsAppend(a: string, b: string)
    ensures DropSeparators(a + b) == DropSeparators(a) + DropSeparators(b)
  {
    if a != [] {
      var head := if a[0] == ',' || a[0] == ' ' then [] else [a[0]];
      assert (a + b)[0] == a[0];
      assert (a + b)[1..] == a[1..] + b;
      DropSeparatorsAppend(a[1..], b);
      assert DropSeparators(a + b) == head + DropSeparators(a[1..] + b);
      assert DropSeparators(a) == head + DropSeparators(a[1..]);
    } else {
      assert a + b == b;
    }
  }

  lemma {:induction false} DropSeparatorsOfDigits(s: string)
    requires forall i :: 0 <= i < |s| ==> IsDigit(s[i])
    ensures DropSeparators(s) == s
  {
    if s != [] {
      DropSeparatorsOfDigits(s[1..]);
    }
  }

  /** `toInt`: None for a missing value and for anything `parseInt` reads as NaN. */
  function ToInt(s: Option<string>): (r: Option<int>)
    ensures s.None? ==> r.None?
    ensures s.Some? ==> (r.Some? <==> LeadingDigits(Unsigned(TrimStart(DropSeparators(s.value)))) > 0)
  {
    if s.None? then None else ParseInt(DropSeparators(s.value))
  }

  /** Commas and spaces anywhere in the text do not change the number read. */
  lemma ToIntIgnoresSeparator(a: string, b: string, sep: char)
    requires sep == ',' || sep == ' '
    ensures ToInt(Some(a + [sep] + b)) == ToInt(Some(a + b))
  {
    DropSeparatorsAppend(a + [sep], b);
    DropSeparatorsAppend(a, [sep]);
    DropSeparatorsAppend(a, b);
    assert DropSeparators([sep]) == [];
    assert DropSeparators(a + [sep] + b) == DropSeparators(a + b);
  }

  /** The decimal spelling of every natural number is read back. */
  lemma ToIntDecimal(n: nat)
    ensures ToInt(Some(DecimalString(n))) == Some(n)
  {
    DropSeparatorsOfDigits(DecimalString(n));
    ParseDecimal(n);
  }

  lemma Spelling1581()
    ensures DecimalString(1581) == "1581"
  {
    var n1: string := "1";
    var n15: string := "15";
    var n158: string := "158";
    assert DecimalString(1) == n1;
    assert DecimalString(15) == n15;
    assert DecimalString(158) == n158;
  }

  lemma Spelling95()
    ensures DecimalString(95) == "95"
  {
    var n9: string := "9";
    assert DecimalString(9) == n9;
  }

  lemma NaNReadsNothing()
    ensures ToInt(Some("NaN")) == None
  {
    var nan: string := "NaN";
    assert DropSeparators(nan) == nan;
    assert TrimStart(nan) == nan;
    assert LeadingDigits(nan) == 0;
  }

  /** "1,581" reads 1581, "95" reads 95, and "NaN" and a missing value read nothing. */
  lemma ToIntExamples()
    ensures ToInt(Some("1,581")) == Some(1581)
    ensures ToInt(Some("95")) == Some(95)
    ensures ToInt(Some("NaN")) == None
    ensures ToInt(None) == None
  {
    Spelling1581();
    ToIntIgnoresSeparator("1", "581", ',');
    assert "1" + [','] + "581" == "1,581";
    assert "1" + "581" == "1581";
    ToIntDecimal(1581);
    Spelling95();
    ToIntDecimal(95);
    NaNReadsNothing();
  }

  /**
   * `recordToSchoolDoc`: the record's id is built first, so a record without
   * one is refused with "Missing id"; otherwise the coordinates take `lat` and
   * `lon` as `lat` and `lng`, the enrollment is `toInt` of its text, and every
   * other field is carried over, a missing one as null.
   */
  function RecordToSchoolDoc(rec: SchoolRecord): (r: Result<SchoolDoc>)
    ensures r.Err? <==> rec.ncesid.None? || Blank(rec.ncesid.value)
    ensures r.Err? ==> r.message == MissingId
    ensures r.Ok? ==> r.value.id == Trim(rec.ncesid.value)
    ensures r.Ok? ==> (r.value.coords.Some? <==> rec.geoPoint.Some?)
    ensures r.Ok? && rec.geoPoint.Some? ==>
      r.value.coords.value.lat == rec.geoPoint.value.lat && r.value.coords.value.lng == rec.geoPoint.value.lon
    ensures r.Ok? ==> r.value.enrollment == ToInt(rec.enrollment)
    ensures r.Ok? ==>
      && r.value.name == rec.name && r.value.address == rec.address && r.value.city == rec.city
      && r.value.state == rec.state && r.value.zip == rec.zip && r.value.phone == rec.telephone
      && r.value.county == rec.county && r.value.level == rec.level && r.value.districtId == rec.districtId
  {
    var id := BuildId(rec.ncesid);
    if id.Err? then Err(id.message)
    else
      Ok(SchoolDoc(
        id.value,
        rec.name,
        if rec.geoPoint.Some? then Some(Coords(rec.geoPoint.value.lat, rec.geoPoint.value.lon)) else None,
        rec.address,
        rec.city,
        rec.state,
        rec.zip,
        rec.telephone,
        rec.county,
        rec.level,
        ToInt(rec.enrollment),
        rec.districtId))
  }

  /** The record of the unit tests: id, coordinates, level and enrollment as expected. */
  lemma RecordToSchoolDocExample()
    ensures var rec := SchoolRecord(
        Some("130315001279"), Some("JONES COUNTY HIGH SCHOOL"), Some(GeoPoint(32.992651488, -83.530693955)),
        Some("339 RAILROAD ST"), Some("GRAY"), Some("GA"), Some("31032"), Some("(478) 986-5444"),
        Some("JONES"), Some("HIGH"), Some("1581"), Some("1303150"));
      var r := RecordToSchoolDoc(rec);
      && r.Ok?
      && r.value.id == "130315001279"
      && r.value.coords == Some(Coords(32.992651488, -83.530693955))
      && r.value.level == Some("HIGH")
      && r.value.enrollment == Some(1581)
  {
    var id: string := "130315001279";
    assert IsTrimmed(id);
    TrimOfUnpadded(id);
    var n1: string := "1";
    var n15: string := "15";
    var n158: string := "158";
    assert DecimalString(1) == n1;
    assert DecimalString(15) == n15;
    assert DecimalString(158) == n158;
    assert DecimalString(1581) == "1581";
    ToIntDecimal(1581);
  }

  /** A record whose id is missing or blank is refused, whatever else it holds. */
  lemma MissingIdRefused(rec: SchoolRecord)
    requires rec.ncesid == None || rec.ncesid == Some("   ")
    ensures RecordToSchoolDoc(rec) == Err(MissingId)
  {
    if rec.ncesid.Some? {
      assert IsSpace(rec.ncesid.value[0]) && IsSpace(rec.ncesid.value[1]) && IsSpace(rec.ncesid.value[2]);
    }
  }
}
