/**
 * What the dashboard's displays and overlays share about boundaries: the
 * county/ZIP selection, the file name of a county's ZIP boundaries, the lookup
 * of the selected feature, and counting points that fall inside it. Files are
 * fetched through `fetch(url)`, an input; the point-in-polygon test of the
 * geometry library is the abstract predicate `inside`.
 */
module Boundary {
  import opened Wrappers
  import opened JsText

  datatype Pos = Pos(x: real, y: real)

  /** A boundary geometry: a polygon's rings, a multipolygon's polygons, or any other type. */
  datatype Geometry =
    | Polygon(rings: seq<seq<Pos>>)
    | MultiPolygon(polygons: seq<seq<seq<Pos>>>)
    | OtherGeometry(kind: string)

  /**
   * A boundary feature: `String(properties.NAME)`, `String(properties.zcta)`
   * when the property is present, and its geometry, when not null.
   */
  datatype Feature = Feature(name: Option<string>, zcta: Option<string>, geometry: Option<Geometry>)

  /** The dropdown's selection. */
  datatype Selection = County(countyName: string) | Zip(countyName: string, zcta: string)

  /** A fetched GeoJSON file: a non-ok response, a request or body that throws, or the parsed value. */
  datatype Fetched<T> = NotOk | Threw | Loaded(value: T)

  const CountiesUrl: string := "/data/ga-counties.geojson"

  // ------------------------------------------------------------------ file name of a county's ZIPs

  predicate SlugChar(c: char) { IsLower(c) || IsDigit(c) }

  /**
   * `toLowerCase()`, then every run of characters outside [a-z0-9] becomes one
   * hyphen, then leading and trailing hyphens are removed.
   */
  function Slug(countyName: string): string {
    StripChar(ReplaceRuns(ToLower(countyName), (c: char) => !SlugChar(c), '-'), '-')
  }

  /** `countyZipFile` */
  function CountyZipFile(countyName: string): string {
    "/data/zips/ga-zips-" + Slug(countyName) + ".geojson"
  }

  /** Stripping a character from both ends leaves a contiguous piece of the string. */
  lemma {:induction false} StripCharSlice(s: string, c: char) returns (i: nat, j: nat)
    ensures i <= j <= |s| && StripChar(s, c) == s[i..j]
  {
    if s != [] && s[0] == c {
      var i', j' := StripCharSlice(s[1..], c);
      assert s[1..][i'..j'] == s[i' + 1..j' + 1];
      i, j := i' + 1, j' + 1;
    } else if s != [] && s[|s| - 1] == c {
      i, j := StripCharSlice(s[..|s| - 1], c);
      assert s[..|s| - 1][i..j] == s[i..j];
    } else {
      i, j := 0, |s|;
      assert s == s[0..|s|];
    }
  }

  /** Slug characters and hyphens, never two hyphens in a row. */
  predicate HyphenSeparated(r: string) {
    && (forall i :: 0 <= i < |r| ==> SlugChar(r[i]) || r[i] == '-')
    && (forall i :: 0 <= i < |r| - 1 ==> !(r[i] == '-' && r[i + 1] == '-'))
  }

  lemma RunsHyphenSeparated(countyName: string)
    ensures HyphenSeparated(ReplaceRuns(ToLower(countyName), (c: char) => !SlugChar(c), '-'))
  {
    ReplaceRunsShape(ToLower(countyName), (c: char) => !SlugChar(c), '-');
  }

  lemma SliceHyphenSeparated(r: string, i: nat, j: nat)
    requires HyphenSeparated(r) && i <= j <= |r|
    ensures HyphenSeparated(r[i..j])
  {
    var s := r[i..j];
    forall k | 0 <= k < |s|
      ensures SlugChar(s[k]) || s[k] == '-'
    {
      assert s[k] == r[i + k];
    }
    forall k | 0 <= k < |s| - 1
      ensures !(s[k] == '-' && s[k + 1] == '-')
    {
      assert s[k] == r[i + k] && s[k + 1] == r[i + k + 1];
    }
  }

  /**
   * The slug consists of [a-z0-9-] only, never starts or ends with a hyphen,
   * and never holds two hyphens in a row.
   */
  lemma SlugShape(countyName: string)
    ensures var s := Slug(countyName);
      && (forall i :: 0 <= i < |s| ==> SlugChar(s[i]) || s[i] == '-')
      && (s == [] || (s[0] != '-' && s[|s| - 1] != '-'))
      && (forall i :: 0 <= i < |s| - 1 ==> !(s[i] == '-' && s[i + 1] == '-'))
  {
    var r := ReplaceRuns(ToLower(countyName), (c: char) => !SlugChar(c), '-');
    RunsHyphenSeparated(countyName);
    var i, j := StripCharSlice(r, '-');
    SliceHyphenSeparated(r, i, j);
  }

  /** For example the ZIP file of Gwinnett is ga-zips-gwinnett. */
  lemma GwinnettFile()
    ensures CountyZipFile("Gwinnett") == "/data/zips/ga-zips-" + "gwinnett" + ".geojson"
  {
    GwinnettSlug();
  }

  lemma GwinnettSlug()
    ensures Slug("Gwinnett") == "gwinnett"
  {
    GwinnettLower();
    var g := "gwinnett";
    ReplaceRunsNoClass(g, (c: char) => !SlugChar(c), '-');
    assert StripChar(g, '-') == g;
  }

  lemma GwinnettLower()
    ensures ToLower("Gwinnett") == "gwinnett"
  {
    ToLowerAt("Gwinnett");
  }

  // ------------------------------------------------------------------ finding the selected feature

  /** `xs.find(p) ?? null` */
  function First<T>(xs: seq<T>, p: T -> bool): (r: Option<T>)
    ensures r.Some? ==> r.value in xs && p(r.value)
    ensures r.None? <==> forall i :: 0 <= i < |xs| ==> !p(xs[i])
  {
    if xs == [] then None
    else if p(xs[0]) then Some(xs[0])
    else
      var r := First(xs[1..], p);
      assert forall i :: 1 <= i < |xs| ==> xs[i] == xs[1..][i - 1];
      r
  }

  /** `find` returns the earliest match. */
  lemma {:induction false} FirstIsEarliest<T>(xs: seq<T>, p: T -> bool, i: nat)
    requires i < |xs| && p(xs[i])
    requires forall j :: 0 <= j < i ==> !p(xs[j])
    ensures First(xs, p) == Some(xs[i])
  {
    if i > 0 {
      FirstIsEarliest(xs[1..], p, i - 1);
    }
  }

  /** `String(NAME ?? "").toLowerCase() === countyName.toLowerCase()` */
  predicate CountyMatches(countyName: string, f: Feature) {
    ToLower(f.name.GetOr("")) == ToLower(countyName)
  }

  /** `String(zcta ?? "").padStart(5, "0") === zcta` */
  predicate ZipMatches(zcta: string, f: Feature) {
    PadStart(f.zcta.GetOr(""), 5, '0') == zcta
  }

  /** The URL a selection's boundary is read from. */
  function BoundaryUrl(sel: Selection): string {
    match sel
    case County(_) => CountiesUrl
    case Zip(countyName, _) => CountyZipFile(countyName)
  }

  /**
   * `getBoundaryFeature` of the displays: a non-ok response gives null, a throw
   * propagates (Err), otherwise the first matching feature or null.
   */
  function BoundaryFeature(sel: Selection, fetch: string -> Fetched<seq<Feature>>): Result<Option<Feature>> {
    match fetch(BoundaryUrl(sel))
    case NotOk => Ok(None)
    case Threw => Err("fetch failed")
    case Loaded(features) =>
      match sel
      case County(countyName) => Ok(First(features, (f: Feature) => CountyMatches(countyName, f)))
      case Zip(_, zcta) => Ok(First(features, (f: Feature) => ZipMatches(zcta, f)))
  }

  /**
   * The county lookup returns the first feature whose NAME equals the county
   * name without regard to case; the ZIP lookup the first whose zero-padded zcta
   * equals the selected one.
   */
  lemma LookupMatches(sel: Selection, fetch: string -> Fetched<seq<Feature>>)
    requires fetch(BoundaryUrl(sel)).Loaded?
    ensures var r := BoundaryFeature(sel, fetch); var fs := fetch(BoundaryUrl(sel)).value;
      && r.Ok?
      && (r.value.Some? ==> r.value.value in fs)
      && (sel.County? && r.value.Some? ==> ToLower(r.value.value.name.GetOr("")) == ToLower(sel.countyName))
      && (sel.Zip? && r.value.Some? ==> PadStart(r.value.value.zcta.GetOr(""), 5, '0') == sel.zcta)
      && (sel.County? ==> (r.value.None? <==> forall i :: 0 <= i < |fs| ==> !CountyMatches(sel.countyName, fs[i])))
      && (sel.Zip? ==> (r.value.None? <==> forall i :: 0 <= i < |fs| ==> !ZipMatches(sel.zcta, fs[i])))
  {
  }

  /** A short zcta property matches its zero-padded spelling, for example 3045 matches "03045". */
  lemma PaddedZctaMatches()
    ensures ZipMatches("03045", Feature(None, Some("3045"), None))
    ensures ZipMatches("30045", Feature(None, Some("30045"), None))
  {
    assert PadStart("3045", 5, '0') == "0" + "3045";
  }

  /** The boundary to count in: present, with a geometry, and of a polygonal type. */
  function Polygonal(f: Option<Feature>): (g: Option<Geometry>)
    ensures g.Some? ==> g.value.Polygon? || g.value.MultiPolygon?
  {
    if f.None? || f.value.geometry.None? then None
    else
      match f.value.geometry.value
      case Polygon(_) => f.value.geometry
      case MultiPolygon(_) => f.value.geometry
      case OtherGeometry(_) => None
  }

  // ------------------------------------------------------------------ counting points inside

  /** A point dataset feature: null, without geometry, a Point, or another geometry. */
  datatype Shape = PointShape(at: Pos) | OtherShape
  datatype PointFeature = NullFeature | PointFeature(geometry: Option<Shape>)

  predicate IsPoint(f: PointFeature) {
    f.PointFeature? && f.geometry.Some? && f.geometry.value.PointShape?
  }

  /** How many Point features lie inside `poly`. */
  function CountInside(fs: seq<PointFeature>, poly: Geometry, inside: (Pos, Geometry) -> bool): (n: nat)
    ensures n <= |fs|
  {
    if fs == [] then 0
    else
      var f := fs[|fs| - 1];
      CountInside(fs[..|fs| - 1], poly, inside) + (if IsPoint(f) && inside(f.geometry.value.at, poly) then 1 else 0)
  }

  lemma CountInsideStep(fs: seq<PointFeature>, f: PointFeature, poly: Geometry, inside: (Pos, Geometry) -> bool)
    ensures CountInside(fs + [f], poly, inside) == CountInside(fs, poly, inside) + (if IsPoint(f) && inside(f.geometry.value.at, poly) then 1 else 0)
  {
    assert (fs + [f])[..|fs|] == fs;
  }

  /** Points are counted one by one: the count over a concatenation is the sum of the counts. */
  lemma {:induction false} CountInsideAppend(a: seq<PointFeature>, b: seq<PointFeature>, poly: Geometry, inside: (Pos, Geometry) -> bool)
    ensures CountInside(a + b, poly, inside) == CountInside(a, poly, inside) + CountInside(b, poly, inside)
    decreases |b|
  {
    if b == [] {
      assert a + b == a;
    } else {
      var p := b[..|b| - 1];
      assert a + b == (a + p) + [b[|b| - 1]];
      CountInsideAppend(a, p, poly, inside);
      CountInsideStep(a + p, b[|b| - 1], poly, inside);
      CountInsideStep(p, b[|b| - 1], poly, inside);
      assert b == p + [b[|b| - 1]];
    }
  }

  /** Only Point features inside the boundary are counted: the count is the number of such features. */
  lemma {:induction false} CountInsideExactly(fs: seq<PointFeature>, poly: Geometry, inside: (Pos, Geometry) -> bool)
    ensures (forall i :: 0 <= i < |fs| ==> !(IsPoint(fs[i]) && inside(fs[i].geometry.value.at, poly)))
      ==> CountInside(fs, poly, inside) == 0
    ensures (forall i :: 0 <= i < |fs| ==> IsPoint(fs[i]) && inside(fs[i].geometry.value.at, poly))
      ==> CountInside(fs, poly, inside) == |fs|
  {
    if fs != [] {
      CountInsideExactly(fs[..|fs| - 1], poly, inside);
    }
  }

  // ------------------------------------------------------------------ households of the displays

  /**
   * The displays' household count: a failed load gives null, and so does any
   * feature that is not a Point (reading its coordinates throws); otherwise the
   * number of points inside.
   */
  function Households(points: Fetched<seq<PointFeature>>, poly: Geometry, inside: (Pos, Geometry) -> bool): Option<int> {
    if points.Loaded? && forall i :: 0 <= i < |points.value| ==> IsPoint(points.value[i])
    then Some(CountInside(points.value, poly, inside))
    else None
  }

  /** The household loop: `hh++` for each point inside; the first non-point aborts the count. */
  method CountHouseholds(points: Fetched<seq<PointFeature>>, poly: Geometry, inside: (Pos, Geometry) -> bool)
    returns (hh: Option<int>)
    ensures hh == Households(points, poly, inside)
  {
    if !points.Loaded? {
      return None;
    }
    var fs := points.value;
    var n := 0;
    for i := 0 to |fs|
      invariant forall j :: 0 <= j < i ==> IsPoint(fs[j])
      invariant n == CountInside(fs[..i], poly, inside)
    {
      var f := fs[i];
      if !IsPoint(f) {
        return None;
      }
      assert fs[..i + 1] == fs[..i] + [f];
      CountInsideStep(fs[..i], f, poly, inside);
      if inside(f.geometry.value.at, poly) {
        n := n + 1;
      }
    }
    assert fs[..|fs|] == fs;
    hh := Some(n);
  }

  /**
   * The count is null exactly when the load failed or some feature is not a
   * Point, and otherwise lies between 0 and the number of features.
   */
  lemma HouseholdsBounded(points: Fetched<seq<PointFeature>>, poly: Geometry, inside: (Pos, Geometry) -> bool)
    ensures var hh := Households(points, poly, inside);
      && (hh.None? <==> !points.Loaded? || exists i :: 0 <= i < |points.value| && !IsPoint(points.value[i]))
      && (hh.Some? ==> 0 <= hh.value <= |points.value|)
      && (points.Loaded? && points.value == [] ==> hh == Some(0))
  {
  }
}
