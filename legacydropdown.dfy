/**
 * The earlier county/ZIP dropdown: the same grouping of the mapping file, but
 * counties are offered in the order they first appear in the file, ZIPs in file
 * order, choosing a county leaves the ZIP as it was, and nothing is reported to
 * a parent.
 */
module LegacyDropdown {
  import opened Wrappers
  import opened Tally
  import opened Dropdown

  /** Counties in first-seen order, each with its ZIPs in file order. */
  lemma FileOrder(rows: seq<MappingRow>, county: string)
    ensures GroupOf(rows).counties == Distinct(CountiesOf(rows))
    ensures county in GroupOf(rows).zips ==> GroupOf(rows).zips[county] == ZipsOf(rows, county)
  {
    GroupExactly(rows);
  }

  /**
   * Whenever at most 300 counties match, the legacy list offers the same counties
   * as the sorted one; only the order differs.
   */
  lemma SameCountiesOffered(rows: seq<MappingRow>, query: string)
    requires |Filter(Distinct(CountiesOf(rows)), (c: string) => MatchesQuery(c, query))| <= MaxCountyOptions
    ensures forall c ::
      c in FilteredCounties(GroupOf(rows).counties, query) <==>
      c in FilteredCounties(CountyNames(SortZips(GroupOf(rows))), query)
  {
    var g := GroupOf(rows);
    GroupExactly(rows);
    var names := CountyNames(SortZips(g));
    assert multiset(names) == multiset(g.counties);
    assert forall c :: c in names <==> c in multiset(names);
    FilterSameElements(g.counties, names, (c: string) => MatchesQuery(c, query));
    FilteredCountiesMeaning(g.counties, query);
    FilteredCountiesMeaning(names, query);
  }

  /** The legacy state: nothing but what the user picked and typed. */
  class LegacyDropdown {
    var data: Groups
    var selectedCounty: Option<string>
    var countyQuery: string
    var selectedZip: Option<string>
    var zipQuery: string

    constructor ()
      ensures data == NoGroups && selectedCounty == None && countyQuery == ""
      ensures selectedZip == None && zipQuery == ""
    {
      data := NoGroups;
      selectedCounty := None;
      countyQuery := "";
      selectedZip := None;
      zipQuery := "";
    }

    /** The load effect groups the rows and keeps file order. */
    method Load(rows: seq<MappingRow>)
      modifies this
      ensures data == GroupOf(rows)
      ensures selectedCounty == old(selectedCounty) && countyQuery == old(countyQuery)
      ensures selectedZip == old(selectedZip) && zipQuery == old(zipQuery)
    {
      data := GroupRows(rows);
    }

    /** Choosing a county does not clear the ZIP chosen under the previous one. */
    method ChooseCounty(county: string)
      modifies this
      ensures selectedCounty == Some(county)
      ensures data == old(data) && countyQuery == old(countyQuery)
      ensures selectedZip == old(selectedZip) && zipQuery == old(zipQuery)
    {
      selectedCounty := Some(county);
    }

    method ChooseZip(zip: string)
      modifies this
      ensures selectedZip == Some(zip)
      ensures data == old(data) && selectedCounty == old(selectedCounty)
      ensures countyQuery == old(countyQuery) && zipQuery == old(zipQuery)
    {
      selectedZip := Some(zip);
    }
  }
}
