/**
 * The library transformer: an OpenStreetMap element from an Overpass
 * response becomes a library document, or null when it lacks anything the
 * map needs (an id, a position, a name, a city, a county or a five-digit
 * ZIP code). Tag values are strings and a missing tag is `undefined`.
 */
module LibraryTransform {
  import opened Wrappers
  import opened JsText
  import SchoolTransform

  type Coords = SchoolTransform.Coords

  datatype LatLon = LatLon(lat: real, lon: real)

  /** A node carries its own position; a way or relation may carry a computed `center`. */
  datatype Shape =
    | Node(lat: real, lon: real)
    | Way(center: Option<LatLon>)
    | Relation(center: Option<LatLon>)

  /** `id` is a number; 0 is the only falsy one modelled. */
  datatype Element = Element(id: int, shape: Shape, tags: Option<map<string, string>>)

  datatype LibraryDoc = LibraryDoc(
    elementType: string,
    osmId: int,
    name: string,
    phone: Option<string>,
    website: Option<string>,
    hours: Option<string>,
    coords: Coords,
    address: string,
    city: string,
    county: string,
    state: Option<string>,
    zip: string)

  function TypeName(s: Shape): string {
    match s
    case Node(_, _) => "node"
    case Way(_) => "way"
    case Relation(_) => "relation"
  }

  /** `tags[k]`, `undefined` when the tag is absent. */
  function Tag(tags: map<string, string>, k: string): Option<string> {
    if k in tags then Some(tags[k]) else None
  }

  /** A present, non-empty string: what survives `!value`. */
  predicate Present(o: Option<string>) {
    o.Some? && o.value != []
  }

  /** A value as `+` spells it in a string: `undefined` for a missing tag. */
  function Spelled(o: Option<string>): string {
    if o.Some? then o.value else "undefined"
  }

  predicate AllDigits(s: string) {
    forall i :: 0 <= i < |s| ==> IsDigit(s[i])
  }

  /** `postcode?.match(/^\d{5}/)?.[0]`: the first five characters when they are all digits. */
  function ZipPrefix(postcode: Option<string>): (r: Option<string>)
    ensures r.Some? ==> |r.value| == 5 && AllDigits(r.value)
    ensures r.Some? ==> postcode.Some? && StartsWith(postcode.value, r.value)
  {
    if postcode.Some? && |postcode.value| >= 5 && AllDigits(postcode.value[..5])
    then Some(postcode.value[..5])
    else None
  }

  /** Exactly the postcodes that start with five digits have a ZIP code, and it is those five digits. */
  lemma ZipPrefixOf(z: string, rest: string)
    ensures AllDigits(z) && |z| == 5 ==> ZipPrefix(Some(z + rest)) == Some(z)
    ensures ZipPrefix(Some(z + rest)).Some? && |z| <= 5 ==> AllDigits(z)
  {
    assert (z + rest)[..|z|] == z;
    if ZipPrefix(Some(z + rest)).Some? && |z| <= 5 {
      forall i | 0 <= i < |z|
        ensures IsDigit(z[i])
      {
        assert z[i] == (z + rest)[..5][i];
      }
    }
  }

  /** The position: a node's own, or the center of a way or relation when it has one. */
  function CoordsOf(s: Shape): (r: Option<Coords>)
    ensures s.Node? ==> r == Some(SchoolTransform.Coords(s.lat, s.lon))
    ensures !s.Node? ==> (r.Some? <==> s.center.Some?)
    ensures !s.Node? && r.Some? ==> r.value.lat == s.center.value.lat && r.value.lng == s.center.value.lon
  {
    match s
    case Node(lat, lon) => Some(SchoolTransform.Coords(lat, lon))
    case Way(c) => if c.Some? then Some(SchoolTransform.Coords(c.value.lat, c.value.lon)) else None
    case Relation(c) => if c.Some? then Some(SchoolTransform.Coords(c.value.lat, c.value.lon)) else None
  }

  /** The street address: house number, a space, street; never empty. */
  function AddressOf(tags: map<string, string>): (a: string)
    ensures |a| > |Spelled(Tag(tags, "addr:housenumber"))|
    ensures a[|Spelled(Tag(tags, "addr:housenumber"))|] == ' '
  {
    Spelled(Tag(tags, "addr:housenumber")) + " " + Spelled(Tag(tags, "addr:street"))
  }

  /**
   * `elementToLibraryDoc`: a document exactly when the element has a non-zero
   * id, a position, and a non-empty name, city and county tag and a postcode
   * starting with five digits; the document keeps those five digits as its
   * ZIP code and carries the other tags over, a missing one as null.
   */
  function ElementToLibraryDoc(e: Element): (r: Option<LibraryDoc>)
    ensures var tags := e.tags.GetOr(map[]);
      r.Some? <==>
        && e.id != 0
        && CoordsOf(e.shape).Some?
        && Present(Tag(tags, "name"))
        && Present(Tag(tags, "addr:city"))
        && Present(Tag(tags, "addr:county"))
        && ZipPrefix(Tag(tags, "addr:postcode")).Some?
    ensures var tags := e.tags.GetOr(map[]);
      r.Some? ==>
        && r.value.osmId == e.id
        && r.value.elementType == TypeName(e.shape)
        && r.value.coords == CoordsOf(e.shape).value
        && r.value.name == tags["name"]
        && r.value.city == tags["addr:city"]
        && r.value.county == tags["addr:county"]
        && r.value.state == Tag(tags, "addr:state")
        && r.value.phone == Tag(tags, "phone")
        && r.value.website == Tag(tags, "website")
        && r.value.hours == Tag(tags, "hours")
        && r.value.address == AddressOf(tags)
        && |r.value.zip| == 5 && AllDigits(r.value.zip)
        && StartsWith(tags["addr:postcode"], r.value.zip)
  {
    if e.id == 0 then None
    else
      var tags := e.tags.GetOr(map[]);
      var coords := CoordsOf(e.shape);
      var name := Tag(tags, "name");
      var address := AddressOf(tags);
      var city := Tag(tags, "addr:city");
      var county := Tag(tags, "addr:county");
      var zip := ZipPrefix(Tag(tags, "addr:postcode"));
      if coords.None? || !Present(name) || address == [] || !Present(city) || !Present(county) || !Present(zip)
      then None
      else
        Some(LibraryDoc(
          TypeName(e.shape), e.id, name.value,
          Tag(tags, "phone"), Tag(tags, "website"), Tag(tags, "hours"),
          coords.value, address, city.value, county.value,
          Tag(tags, "addr:state"), zip.value))
  }

  /** The tags of a library mapped as a way, with a ZIP+4 postcode and no house number. */
  function FiveForksTags(): map<string, string> {
    map["name" := "Five Forks Library", "addr:street" := "Five Forks Trickum Road",
        "addr:city" := "Lawrenceville", "addr:county" := "Gwinnett", "addr:postcode" := "30044-1234"]
  }

  lemma FiveForksTagsRead()
    ensures var tags := FiveForksTags();
      && Tag(tags, "name") == Some("Five Forks Library")
      && Tag(tags, "addr:city") == Some("Lawrenceville")
      && Tag(tags, "addr:county") == Some("Gwinnett")
      && ZipPrefix(Tag(tags, "addr:postcode")) == Some("30044")
      && AddressOf(tags) == "undefined" + " " + "Five Forks Trickum Road"
      && Tag(tags, "addr:state").None?
  {
    FiveForksZip();
    FiveForksAddress();
  }

  lemma FiveForksZip()
    ensures ZipPrefix(Tag(FiveForksTags(), "addr:postcode")) == Some("30044")
  {
    assert Tag(FiveForksTags(), "addr:postcode") == Some("30044-1234");
    ZipPrefixOf("30044", "-1234");
    assert "30044" + "-1234" == "30044-1234";
  }

  lemma FiveForksAddress()
    ensures AddressOf(FiveForksTags()) == "undefined" + " " + "Five Forks Trickum Road"
  {
    var tags := FiveForksTags();
    assert "addr:housenumber" !in tags;
  }

  /** Such a way becomes a document: its center as position, the ZIP code cut to five digits. */
  lemma WayExample()
    ensures var r := ElementToLibraryDoc(Element(7, Way(Some(LatLon(33.9, -84.0))), Some(FiveForksTags())));
      && r.Some?
      && r.value.zip == "30044"
      && r.value.address == "undefined" + " " + "Five Forks Trickum Road"
      && r.value.coords == SchoolTransform.Coords(33.9, -84.0)
      && r.value.state.None?
  {
    FiveForksTagsRead();
  }

  /** A ZIP+4 postcode is cut to its five-digit ZIP code. */
  lemma ZipPlusFour()
    ensures ZipPrefix(Some("30043-1234")) == Some("30043")
    ensures ZipPrefix(Some("3004")) == None
    ensures ZipPrefix(Some("GA 30043")) == None
  {
    ZipPrefixOf("30043", "-1234");
    assert "30043" + "-1234" == "30043-1234";
    assert !IsDigit("GA 30043"[0]);
    assert "GA 30043"[..5][0] == 'G';
  }
}
