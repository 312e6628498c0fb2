/**
 * The county/ZIP dropdown of the dashboards. The ZIP/city mapping file is
 * grouped into each county's list of ZIPs; the county list is offered sorted
 * and filtered by the typed query, the ZIP list is the selected county's; every
 * change of selection is reported to the parent as a county or ZIP boundary
 * selection. The CSV tokeniser and the component's rendering are not modelled:
 * the rows arrive already split into their `county` and `zip` columns.
 */
module Dropdown {
  import opened Wrappers
  import opened JsText
  import opened JsParse
  import opened Tally
  import opened Sorting
  import opened Boundary

  /** A row of the mapping file: its `county` and `zip` columns, when present. */
  datatype MappingRow = MappingRow(county: Option<string>, zip: Option<string>)

  /** `row.x?.trim()`; a missing column reads as "", which is just as falsy. */
  function Field(v: Option<string>): string {
    Trim(v.GetOr(""))
  }

  /** `if (county && zip)` */
  predicate Contributes(r: MappingRow) {
    Field(r.county) != "" && Field(r.zip) != ""
  }

  /** The `grouped` object: its keys in insertion order and each key's ZIP list. */
  datatype Groups = Groups(counties: seq<string>, zips: map<string, seq<string>>)

  const NoGroups: Groups := Groups([], map[])

  /** `if (!grouped[county]) grouped[county] = []; grouped[county].push(zip)` */
  function Add(g: Groups, county: string, zip: string): Groups {
    if county in g.zips then Groups(g.counties, g.zips[county := g.zips[county] + [zip]])
    else Groups(g.counties + [county], g.zips[county := [zip]])
  }

  /** The grouping of the rows, in file order. */
  function GroupOf(rows: seq<MappingRow>): Groups {
    if rows == [] then NoGroups
    else
      var g := GroupOf(rows[..|rows| - 1]);
      var r := rows[|rows| - 1];
      if Contributes(r) then Add(g, Field(r.county), Field(r.zip)) else g
  }

  /** The counties of the contributing rows, repetitions included. */
  function CountiesOf(rows: seq<MappingRow>): seq<string> {
    if rows == [] then []
    else
      var r := rows[|rows| - 1];
      CountiesOf(rows[..|rows| - 1]) + (if Contributes(r) then [Field(r.county)] else [])
  }

  /** The ZIPs of the contributing rows of one county, in file order. */
  function ZipsOf(rows: seq<MappingRow>, county: string): seq<string> {
    if rows == [] then []
    else
      var r := rows[|rows| - 1];
      ZipsOf(rows[..|rows| - 1], county) + (if Contributes(r) && Field(r.county) == county then [Field(r.zip)] else [])
  }

  /** The `forEach` over the parsed rows. */
  method GroupRows(rows: seq<MappingRow>) returns (g: Groups)
    ensures g == GroupOf(rows)
  {
    g := NoGroups;
    for i := 0 to |rows|
      invariant g == GroupOf(rows[..i])
    {
      assert rows[..i + 1][..i] == rows[..i];
      var county := Field(rows[i].county);
      var zip := Field(rows[i].zip);
      if county != "" && zip != "" {
        g := Add(g, county, zip);
      }
    }
    assert rows[..|rows|] == rows;
  }

  /** The keys of the grouping are the counties of the contributing rows, first-seen order. */
  lemma {:induction false} GroupKeys(rows: seq<MappingRow>)
    ensures var g := GroupOf(rows);
      && g.counties == Distinct(CountiesOf(rows))
      && (forall c :: c in g.zips <==> c in g.counties)
  {
    if rows != [] {
      var p := rows[..|rows| - 1];
      var r := rows[|rows| - 1];
      GroupKeys(p);
      if Contributes(r) {
        var c := Field(r.county);
        assert CountiesOf(rows) == CountiesOf(p) + [c];
        DistinctStep(CountiesOf(p), c);
      } else {
        assert CountiesOf(p) + [] == CountiesOf(p);
      }
    }
  }

  /** Each key lists its county's ZIPs in file order; a county without a key has none. */
  lemma {:induction false} GroupLists(rows: seq<MappingRow>)
    ensures var g := GroupOf(rows);
      && (forall c :: c in g.zips ==> g.zips[c] == ZipsOf(rows, c))
      && (forall c :: c !in g.zips ==> ZipsOf(rows, c) == [])
  {
    if rows != [] {
      GroupLists(rows[..|rows| - 1]);
    }
  }

  /**
   * The grouping has one key per county of a contributing row, in first-seen
   * order; each key lists exactly that county's ZIPs in file order, and a county
   * without a key has no ZIP.
   */
  lemma GroupExactly(rows: seq<MappingRow>)
    ensures var g := GroupOf(rows);
      && g.counties == Distinct(CountiesOf(rows))
      && (forall c :: c in g.zips <==> c in g.counties)
      && (forall c :: c in g.zips ==> g.zips[c] == ZipsOf(rows, c))
      && (forall c :: c !in g.zips ==> ZipsOf(rows, c) == [])
  {
    GroupKeys(rows);
    GroupLists(rows);
  }

  // ------------------------------------------------------------------ sorting

  /** `parseInt(a) - parseInt(b) < 0`; a NaN difference counts as equal. */
  predicate ZipLess(a: string, b: string) {
    var x, y := ParseIntNoRadix(a), ParseIntNoRadix(b);
    x.Some? && y.Some? && x.value < y.value
  }

  /** Each county's ZIP list sorted numerically, as the load step leaves it. */
  function SortZips(g: Groups): Groups {
    Groups(g.counties, map c | c in g.zips :: Sort(g.zips[c], ZipLess))
  }

  /** The lists after sorting those of the first `n` counties. */
  function PartlySorted(g: Groups, n: nat): map<string, seq<string>>
    requires n <= |g.counties|
  {
    map c | c in g.zips :: if c in g.counties[..n] then Sort(g.zips[c], ZipLess) else g.zips[c]
  }

  lemma PartlySortedStep(g: Groups, i: nat)
    requires i < |g.counties| && g.counties[i] in g.zips
    requires NoDuplicates(g.counties)
    ensures var c := g.counties[i];
      && c in PartlySorted(g, i) && PartlySorted(g, i)[c] == g.zips[c]
      && PartlySorted(g, i + 1) == PartlySorted(g, i)[c := Sort(g.zips[c], ZipLess)]
  {
    var c := g.counties[i];
    var done := g.counties[..i];
    assert c !in done by {
      forall j | 0 <= j < i
        ensures done[j] != c
      {
        assert g.counties[j] != g.counties[i];
      }
    }
    assert g.counties[..i + 1] == done + [c];
    var m, m' := PartlySorted(g, i), PartlySorted(g, i + 1);
    var u := m[c := Sort(g.zips[c], ZipLess)];
    assert m'.Keys == u.Keys;
    forall k | k in m'
      ensures m'[k] == u[k]
    {
      assert k in done + [c] <==> k in done || k == c;
    }
  }

  lemma PartlySortedAll(g: Groups)
    requires forall c :: c in g.zips ==> c in g.counties
    ensures PartlySorted(g, |g.counties|) == SortZips(g).zips
  {
    assert g.counties[..|g.counties|] == g.counties;
  }

  /** The sort loop over `Object.keys(grouped)`. */
  method SortEach(g: Groups) returns (h: Groups)
    requires forall c :: c in g.zips <==> c in g.counties
    requires NoDuplicates(g.counties)
    ensures h == SortZips(g)
  {
    var zips := g.zips;
    assert zips == PartlySorted(g, 0);
    for i := 0 to |g.counties|
      invariant zips == PartlySorted(g, i)
    {
      var c := g.counties[i];
      PartlySortedStep(g, i);
      zips := zips[c := Sort(zips[c], ZipLess)];
    }
    PartlySortedAll(g);
    h := Groups(g.counties, zips);
  }

  lemma ZipLessIsStrictOrder()
    ensures StrictOrder(ZipLess)
  {
  }

  /** Among ZIPs that `parseInt` reads, two tie exactly when they read the same number. */
  lemma ZipLessTiesOnNumbers(a: string, b: string)
    requires ParseIntNoRadix(a).Some? && ParseIntNoRadix(b).Some?
    ensures Tied(ZipLess, a, b) <==> ParseIntNoRadix(a) == ParseIntNoRadix(b)
  {
  }

  /**
   * A ZIP that `parseInt` reads as NaN ties with every ZIP, so the comparator
   * is not consistent: "x" ties with both "1" and "2", which are ordered. The
   * order the engine's sort then leaves is implementation-defined.
   */
  lemma ZipLessInconsistent(lo: string, hi: string, bad: string)
    requires lo == "1" && hi == "2" && bad == "x"
    ensures ZipLess(lo, hi) && Tied(ZipLess, lo, bad) && Tied(ZipLess, bad, hi)
    ensures !StrictWeakOrder(ZipLess)
  {
    ParseNoRadixDecimal(1, []);
    ParseNoRadixDecimal(2, []);
    assert DecimalString(1) + [] == lo && DecimalString(2) + [] == hi;
    assert ParseIntNoRadix(lo) == Some(1) && ParseIntNoRadix(hi) == Some(2);
    assert TrimStart(bad) == bad && Unsigned(bad) == bad;
    assert ParseIntNoRadix(bad) == None;
    assert !(Tied(ZipLess, lo, bad) && Tied(ZipLess, bad, hi) ==> Tied(ZipLess, lo, hi));
  }

  /** After loading, each county's list holds exactly its ZIPs, in ascending numeric order. */
  lemma LoadedZipsSorted(rows: seq<MappingRow>, county: string)
    ensures var g := SortZips(GroupOf(rows));
      && (county in g.zips <==> county in CountiesOf(rows))
      && (county in g.zips ==>
        && SortedBy(g.zips[county], ZipLess)
        && multiset(g.zips[county]) == multiset(ZipsOf(rows, county)))
  {
    GroupExactly(rows);
    var g := GroupOf(rows);
    if county in g.zips {
      ZipLessIsStrictOrder();
      SortSorted(g.zips[county], ZipLess);
    }
  }

  /** `a.localeCompare(b, "en", { sensitivity: "base" }) < 0`, on the lower-cased names. */
  predicate CountyLess(a: string, b: string) {
    StringLess(ToLower(a), ToLower(b))
  }

  /** Names tie exactly when they agree up to case, so the comparator is consistent. */
  lemma CountyLessIsStrictOrder()
    ensures StrictWeakOrder(CountyLess)
  {
    forall a: string
      ensures !CountyLess(a, a)
    {
      StringLessIrreflexive(ToLower(a));
    }
    forall a: string, b: string, c: string | CountyLess(a, b) && CountyLess(b, c)
      ensures CountyLess(a, c)
    {
      StringLessTransitive(ToLower(a), ToLower(b), ToLower(c));
    }
    forall a: string, b: string | Tied(CountyLess, a, b)
      ensures ToLower(a) == ToLower(b)
    {
      StringLessTotal(ToLower(a), ToLower(b));
    }
  }

  // ------------------------------------------------------------------ what the lists offer

  /** `c.toLowerCase().includes(query.toLowerCase())` */
  predicate MatchesQuery(c: string, query: string) {
    Contains(ToLower(c), ToLower(query))
  }

  const MaxCountyOptions: nat := 300

  /** The county names, sorted without regard to case. */
  function CountyNames(g: Groups): seq<string> {
    Sort(g.counties, CountyLess)
  }

  /** `filteredCounty`: the sorted names matching the query, at most 300 of them. */
  function FilteredCounties(names: seq<string>, query: string): (r: seq<string>)
    ensures |r| <= MaxCountyOptions
  {
    Take(Filter(names, (c: string) => MatchesQuery(c, query)), MaxCountyOptions)
  }

  /** `zipOptions.filter(z => z.includes(zipQuery))`, the options being the selected county's list. */
  function FilteredZips(g: Groups, selected: Option<string>, query: string): seq<string> {
    var options := if selected.Some? && selected.value in g.zips then g.zips[selected.value] else [];
    Filter(options, (z: string) => Contains(z, query))
  }

  /** The county names are every county once, ordered without regard to case. */
  lemma CountyNamesSorted(rows: seq<MappingRow>)
    ensures var names := CountyNames(SortZips(GroupOf(rows)));
      && SortedBy(names, CountyLess)
      && multiset(names) == multiset(Distinct(CountiesOf(rows)))
  {
    GroupExactly(rows);
    CountyLessIsStrictOrder();
    SortSorted(GroupOf(rows).counties, CountyLess);
  }

  /**
   * Every offered county matches the query, case-insensitively; when no more
   * than 300 names match, all of them are offered.
   */
  lemma FilteredCountiesMeaning(names: seq<string>, query: string)
    ensures var r := FilteredCounties(names, query);
      && (forall c :: c in r ==> c in names && MatchesQuery(c, query))
      && (|Filter(names, (c: string) => MatchesQuery(c, query))| <= MaxCountyOptions ==>
            forall c :: c in names && MatchesQuery(c, query) ==> c in r)
  {
    var f := Filter(names, (c: string) => MatchesQuery(c, query));
    forall c | c in Take(f, MaxCountyOptions)
      ensures c in f
    {
      var i :| 0 <= i < |Take(f, MaxCountyOptions)| && Take(f, MaxCountyOptions)[i] == c;
      assert f[i] == c;
    }
  }

  /**
   * ZIP options come only from the selected county: none without a selection,
   * and otherwise the county's ZIPs containing the query as typed (case matters).
   */
  lemma FilteredZipsMeaning(g: Groups, selected: Option<string>, query: string)
    ensures selected.None? ==> FilteredZips(g, selected, query) == []
    ensures selected.Some? && selected.value in g.zips ==>
      forall z :: z in FilteredZips(g, selected, query) <==> z in g.zips[selected.value] && Contains(z, query)
  {
  }

  /** `String(zip).padStart(5, "0")` */
  function Zcta(zip: string): (z: string)
    ensures |zip| < 5 ==> |z| == 5 && z[5 - |zip|..] == zip
    ensures |zip| >= 5 ==> z == zip
  {
    PadStart(zip, 5, '0')
  }

  lemma ZctaExamples()
    ensures Zcta("30045") == "30045"
    ensures Zcta("3045") == "03045"
  {
    assert PadStart("3045", 5, '0') == "0" + "3045";
  }

  /** The dropdown's state and what it has reported to its parent. */
  class SearchableDropdown {
    var data: Groups
    var selectedCounty: Option<string>
    var countyQuery: string
    var selectedZip: Option<string>
    var zipQuery: string
    /** The selections passed to `onBoundarySelect`, oldest first. */
    var emitted: seq<Selection>
    /** How many times `onClearBoundary` was called. */
    var clears: nat

    constructor ()
      ensures data == NoGroups && selectedCounty == None && countyQuery == ""
      ensures selectedZip == None && zipQuery == "" && emitted == [] && clears == 0
    {
      data := NoGroups;
      selectedCounty := None;
      countyQuery := "";
      selectedZip := None;
      zipQuery := "";
      emitted := [];
      clears := 0;
    }

    /** The load effect: group the mapping rows, then sort every county's ZIPs. */
    method Load(rows: seq<MappingRow>)
      modifies this
      ensures data == SortZips(GroupOf(rows))
      ensures selectedCounty == old(selectedCounty) && countyQuery == old(countyQuery)
      ensures selectedZip == old(selectedZip) && zipQuery == old(zipQuery)
      ensures emitted == old(emitted) && clears == old(clears)
    {
      var grouped := GroupRows(rows);
      GroupExactly(rows);
      data := SortEach(grouped);
    }

    method TypeCountyQuery(query: string)
      modifies this
      ensures countyQuery == query
      ensures data == old(data) && selectedCounty == old(selectedCounty)
      ensures selectedZip == old(selectedZip) && zipQuery == old(zipQuery)
      ensures emitted == old(emitted) && clears == old(clears)
    {
      countyQuery := query;
    }

    method TypeZipQuery(query: string)
      modifies this
      ensures zipQuery == query
      ensures data == old(data) && selectedCounty == old(selectedCounty) && countyQuery == old(countyQuery)
      ensures selectedZip == old(selectedZip)
      ensures emitted == old(emitted) && clears == old(clears)
    {
      zipQuery := query;
    }

    /**
     * Choosing a county. Choosing the current one changes nothing. Otherwise the
     * ZIP and its query are cleared and the county is reported; when a ZIP was
     * selected, the effects of the first render still see it, so that ZIP is
     * first reported under the new county.
     */
    method ChooseCounty(county: string)
      modifies this
      ensures Some(county) == old(selectedCounty) ==>
        selectedZip == old(selectedZip) && zipQuery == old(zipQuery) && emitted == old(emitted)
      ensures Some(county) != old(selectedCounty) ==>
        && selectedZip == None && zipQuery == ""
        && emitted == old(emitted)
          + (if old(selectedZip).Some? then [Zip(county, Zcta(old(selectedZip).value))] else [])
          + [County(county)]
      ensures selectedCounty == Some(county)
      ensures data == old(data) && countyQuery == old(countyQuery) && clears == old(clears)
    {
      if selectedCounty == Some(county) {
        return;
      }
      selectedCounty := Some(county);
      // the effects of the render with the new county and the old ZIP
      if selectedZip.Some? {
        emitted := emitted + [Zip(county, Zcta(selectedZip.value))];
      } else {
        emitted := emitted + [County(county)];
        selectedZip, zipQuery := None, "";
        return;
      }
      // the re-render after the ZIP was cleared
      selectedZip, zipQuery := None, "";
      emitted := emitted + [County(county)];
    }

    /** Choosing a ZIP reports it, zero-padded, under the selected county. */
    method ChooseZip(zip: string)
      modifies this
      ensures selectedZip == Some(zip)
      ensures emitted == old(emitted)
        + (if Some(zip) != old(selectedZip) && selectedCounty.Some? then [Zip(selectedCounty.value, Zcta(zip))] else [])
      ensures data == old(data) && selectedCounty == old(selectedCounty) && countyQuery == old(countyQuery)
      ensures zipQuery == old(zipQuery) && clears == old(clears)
    {
      if selectedZip == Some(zip) {
        return;
      }
      selectedZip := Some(zip);
      if selectedCounty.Some? {
        emitted := emitted + [Zip(selectedCounty.value, Zcta(zip))];
      }
    }

    /** `clearZip`: back to the county, which is reported again when a ZIP was selected. */
    method ClearZip()
      modifies this
      ensures selectedZip == None && zipQuery == ""
      ensures emitted == old(emitted)
        + (if old(selectedZip).Some? && selectedCounty.Some? then [County(selectedCounty.value)] else [])
      ensures data == old(data) && selectedCounty == old(selectedCounty) && countyQuery == old(countyQuery)
      ensures clears == old(clears)
    {
      var hadZip := selectedZip.Some?;
      selectedZip, zipQuery := None, "";
      if hadZip && selectedCounty.Some? {
        emitted := emitted + [County(selectedCounty.value)];
      }
    }

    /** `clearCounty`: both selections and queries are cleared and the parent is told to clear. */
    method ClearCounty()
      modifies this
      ensures selectedCounty == None && countyQuery == "" && selectedZip == None && zipQuery == ""
      ensures clears == old(clears) + 1
      ensures data == old(data) && emitted == old(emitted)
    {
      selectedZip, zipQuery := None, "";
      selectedCounty, countyQuery := None, "";
      clears := clears + 1;
    }
  }
}
