/**
 * The address filter of the CSV-to-heatmap pipeline: header synonyms are mapped
 * to the street, city, state and zip parts of a row, the parts are cleaned, and
 * zip, city and eight street rules decide whether the row becomes a geocoding
 * query of the form "<street>, <city>, GA <zip>" or is rejected with every reason.
 */
module AddressFilter {
  import opened Wrappers
  import opened JsText

  /** A parsed CSV row: its cells in key order, each a string or undefined. */
  type RawRow = seq<(string, Option<string>)>

  // ---------------------------------------------------------------- headers

  /** The characters `[\s_\-./#]` that header normalisation deletes. */
  predicate IsHeaderSeparator(c: char) {
    IsSpace(c) || c == '_' || c == '-' || c == '.' || c == '/' || c == '#'
  }

  function RemoveSeparators(s: string): (r: string)
    ensures |r| <= |s|
    ensures forall i :: 0 <= i < |r| ==> !IsHeaderSeparator(r[i])
  {
    if s == [] then []
    else (if IsHeaderSeparator(s[0]) then [] else [s[0]]) + RemoveSeparators(s[1..])
  }

  lemma {:induction false} RemoveSeparatorsAppend(a: string, b: string)
    ensures RemoveSeparators(a + b) == RemoveSeparators(a) + RemoveSeparators(b)
  {
    if a != [] {
      assert (a + b)[1..] == a[1..] + b;
      RemoveSeparatorsAppend(a[1..], b);
    } else {
      assert a + b == b;
    }
  }

  /** Lower-case the header and delete every separator run. */
  function NormalizeKey(key: string): string {
    RemoveSeparators(ToLower(key))
  }

  datatype Field = StreetAddress | City | State | Zip

  /** The header synonyms, keyed by normalised header. */
  const HeaderMap: map<string, Field> := map[
    "streetaddress" := StreetAddress, "address" := StreetAddress,
    "street" := StreetAddress, "homeaddress" := StreetAddress,
    "city" := City,
    "state" := State,
    "zipcode" := Zip, "zip" := Zip, "postalcode" := Zip
  ]

  function HeaderField(nk: string): Option<Field> {
    if nk in HeaderMap then Some(HeaderMap[nk]) else None
  }

  /** The part a cell under header `key` fills, if any; an empty header fills none. */
  function MappedField(key: string): Option<Field> {
    if key == "" then None else HeaderField(NormalizeKey(key))
  }

  lemma NormalizeDropsSeparator(a: string, c: char, b: string)
    requires IsHeaderSeparator(c)
    ensures NormalizeKey(a + [c] + b) == NormalizeKey(a + b)
  {
    ToLowerAppend(a + [c], b);
    ToLowerAppend(a, [c]);
    ToLowerAppend(a, b);
    RemoveSeparatorsAppend(ToLower(a) + ToLower([c]), ToLower(b));
    RemoveSeparatorsAppend(ToLower(a), ToLower([c]));
    RemoveSeparatorsAppend(ToLower(a), ToLower(b));
    assert RemoveSeparators(ToLower([c])) == [];
  }

  /** Inserting a separator character anywhere in a header does not change what it maps to. */
  lemma SeparatorIgnored(a: string, c: char, b: string)
    requires IsHeaderSeparator(c)
    ensures MappedField(a + [c] + b) == MappedField(a + b)
  {
    NormalizeDropsSeparator(a, c, b);
    if a + b == [] {
      assert NormalizeKey(a + [c] + b) == [];
    }
  }

  /** Headers that differ only in letter case map to the same part. */
  lemma CaseIgnored(a: string, b: string)
    requires EqualsIgnoreCase(a, b)
    ensures MappedField(a) == MappedField(b)
  {
  }

  lemma ZipCodeLowered()
    ensures ToLower("Zip-Code") == "zip-code"
  {
    ToLowerAt("Zip-Code");
  }

  lemma ZipCodeJoined()
    ensures RemoveSeparators("zip-code") == "zipcode"
  {
  }

  /** "Zip-Code" is one of the spellings of the zip header. */
  lemma ZipSpelling()
    ensures MappedField("Zip-Code") == Some(Zip)
  {
    ZipCodeLowered();
    ZipCodeJoined();
  }

  // ---------------------------------------------------------------- parts

  datatype Parts = Parts(streetAddress: Option<string>, city: Option<string>, state: Option<string>, zip: Option<string>)
  {
    function Get(f: Field): Option<string> {
      match f
      case StreetAddress => streetAddress
      case City => city
      case State => state
      case Zip => zip
    }

    function Set(f: Field, v: string): (p: Parts)
      ensures p.Get(f) == Some(v)
      ensures forall g :: g != f ==> p.Get(g) == Get(g)
    {
      match f
      case StreetAddress => this.(streetAddress := Some(v))
      case City => this.(city := Some(v))
      case State => this.(state := Some(v))
      case Zip => this.(zip := Some(v))
    }
  }

  const NoParts := Parts(None, None, None, None)

  /** The parts after the cells `row` have been visited left to right. */
  function PartsOf(row: RawRow): Parts {
    if row == [] then NoParts
    else
      var p := PartsOf(row[..|row| - 1]);
      var cell := row[|row| - 1];
      match MappedField(cell.0)
      case None => p
      case Some(f) => p.Set(f, Trim(cell.1.GetOr("")))
  }

  /** Visit every cell and record its trimmed value under the part its header maps to. */
  method PickAddressParts(row: RawRow) returns (parts: Parts)
    ensures parts == PartsOf(row)
  {
    parts := NoParts;
    var i := 0;
    while i < |row|
      invariant 0 <= i <= |row|
      invariant parts == PartsOf(row[..i])
    {
      var (k, v) := row[i];
      assert row[..i + 1][..i] == row[..i];
      if k != "" {
        var mapped := HeaderField(NormalizeKey(k));
        if mapped.Some? {
          parts := parts.Set(mapped.value, Trim(v.GetOr("")));
        }
      }
      i := i + 1;
    }
    assert row[..i] == row;
  }

  /** One more cell changes only the part its header maps to. */
  lemma PartsOfStep(row: RawRow, f: Field)
    requires row != []
    ensures var cell := row[|row| - 1];
      PartsOf(row).Get(f) ==
        if MappedField(cell.0) == Some(f) then Some(Trim(cell.1.GetOr("")))
        else PartsOf(row[..|row| - 1]).Get(f)
  {
  }

  /** A part no header maps to stays undefined. */
  lemma {:induction false} UnmappedPartStaysUnset(row: RawRow, f: Field)
    requires forall i :: 0 <= i < |row| ==> MappedField(row[i].0) != Some(f)
    ensures PartsOf(row).Get(f).None?
  {
    if row != [] {
      var q := row[..|row| - 1];
      assert forall i :: 0 <= i < |q| ==> q[i] == row[i];
      UnmappedPartStaysUnset(q, f);
      PartsOfStep(row, f);
    }
  }

  /** A part some header maps to is defined. */
  lemma {:induction false} MappedPartIsSet(row: RawRow, f: Field, i: nat)
    requires i < |row| && MappedField(row[i].0) == Some(f)
    ensures PartsOf(row).Get(f).Some?
  {
    PartsOfStep(row, f);
    if i < |row| - 1 {
      var q := row[..|row| - 1];
      assert q[i] == row[i];
      MappedPartIsSet(q, f, i);
    }
  }

  /** A part holds the trimmed cell of the last header that maps to it (an undefined cell counts as ""). */
  lemma {:induction false} LaterHeaderWins(row: RawRow, f: Field, i: nat)
    requires i < |row| && MappedField(row[i].0) == Some(f)
    requires forall j :: i < j < |row| ==> MappedField(row[j].0) != Some(f)
    ensures PartsOf(row).Get(f) == Some(Trim(row[i].1.GetOr("")))
  {
    if i < |row| - 1 {
      var q := row[..|row| - 1];
      assert q[i] == row[i];
      LaterHeaderWins(q, f, i);
      PartsOfStep(row, f);
    } else {
      PartsOfStep(row, f);
    }
  }

  // ---------------------------------------------------------------- cleaning

  /** `s.replace(/\s+/g, " ")`. */
  function CollapseSpaces(s: string): string {
    ReplaceRuns(s, IsSpace, ' ')
  }

  /** The characters `.` matches. */
  predicate IsLineChar(c: char) {
    !IsLineTerminator(c)
  }

  /** `s.replace(/^"(.*)"$/, "$1")`: `.` does not cross a line terminator. */
  function StripQuotes(s: string): string {
    if |s| >= 2 && s[0] == '"' && s[|s| - 1] == '"' && AllChars(s[1..|s| - 1], IsLineChar)
    then s[1..|s| - 1]
    else s
  }

  /** Trim, collapse white-space runs to one space, strip one enclosing pair of quotes. */
  function CleanStr(s: string): string {
    StripQuotes(CollapseSpaces(Trim(s)))
  }

  lemma CleanKeepsOthers(s: string)
    ensures Outside(CollapseSpaces(Trim(s)), IsSpace) == Outside(s, IsSpace)
  {
    TrimKeepsOthers(s);
    ReplaceRunsKeepsOthers(Trim(s), IsSpace, ' ');
  }

  /**
   * The cleaned value is the trimmed input with each white-space run replaced by a
   * single space, minus one enclosing pair of double quotes when there is one:
   * every other character of the input is kept, in order (`ReplaceRunsRun` and
   * `ReplaceRunsSplit` say how each run is replaced).
   */
  lemma CleanStrShape(s: string)
    ensures var c := CollapseSpaces(Trim(s));
      && Outside(c, IsSpace) == Outside(s, IsSpace)
      && IsTrimmed(c)
      && (forall i :: 0 <= i < |c| ==> IsSpace(c[i]) ==> c[i] == ' ')
      && (forall i :: 0 <= i < |c| - 1 ==> !(c[i] == ' ' && c[i + 1] == ' '))
      && CleanStr(s) == if |c| >= 2 && c[0] == '"' && c[|c| - 1] == '"' then c[1..|c| - 1] else c
  {
    var t := Trim(s);
    TrimIsTrimmed(s);
    CleanKeepsOthers(s);
    ReplaceRunsShape(t, IsSpace, ' ');
    var c := CollapseSpaces(t);
    if |c| >= 2 {
      AllCharsMeans(c[1..|c| - 1], IsLineChar);
    }
  }

  // ---------------------------------------------------------------- reasons

  /** Why a row is rejected; `Message` gives the text the source reports. */
  datatype Reason =
    | StreetMissing | CityMissing | ZipMissing
    | ZipFormat | CityFormat
    | Comma | PoBox | RuralRoute | Unknown | StateText | MustStart | Mashed | LetterThenDigit

  function Message(r: Reason): string {
    match r
    case StreetMissing => "streetAddress: missing"
    case CityMissing => "city: missing"
    case ZipMissing => "zip: missing"
    case ZipFormat => "zip: must be exactly 5 digits"
    case CityFormat => "city: invalid characters or format"
    case Comma => "street: contains comma"
    case PoBox => "street: PO Box not allowed"
    case RuralRoute => "street: rural route not allowed"
    case Unknown => "street: unknown/NA"
    case StateText => "street: contains state text"
    case MustStart => "street: must start with number, space, then letters"
    case Mashed => "street: number and letters are mashed; need space"
    case LetterThenDigit => "street: letters followed by numbers in name"
  }

  function Rule(violated: bool, r: Reason): seq<Reason> {
    if violated then [r] else []
  }

  // ---------------------------------------------------------------- zip and city

  predicate IsCityChar(c: char) {
    IsLetter(c) || IsSpace(c) || c == '\'' || c == '-'
  }

  /** `^[A-Za-z][A-Za-z\s'-]*$`. */
  predicate ValidCity(city: string) {
    city != [] && IsLetter(city[0]) && AllChars(city[1..], IsCityChar)
  }

  /** `^\d{5}$`. */
  predicate ValidZip(zip: string) {
    |zip| == 5 && AllChars(zip, IsDigit)
  }

  function ValidateCity(city: string): (errs: seq<Reason>)
    ensures errs == [] <==> ValidCity(city)
    ensures errs == [] || errs == [CityFormat]
  {
    Rule(!ValidCity(city), CityFormat)
  }

  function ValidateZip(zip: string): (errs: seq<Reason>)
    ensures errs == [] <==> ValidZip(zip)
    ensures errs == [] || errs == [ZipFormat]
  {
    Rule(!ValidZip(zip), ZipFormat)
  }

  // ---------------------------------------------------------------- street rules

  /** `P\.?\s*O\.?\s*BOX`, case-insensitive, anchored at the start of `s`. */
  predicate PoBoxAt(s: string) {
    s != [] && LowerChar(s[0]) == 'p' &&
    var a := SkipSpaces(if |s| > 1 && s[1] == '.' then s[2..] else s[1..]);
    a != [] && LowerChar(a[0]) == 'o' &&
    var b := SkipSpaces(if |a| > 1 && a[1] == '.' then a[2..] else a[1..]);
    StartsWithIgnoreCase(b, "BOX")
  }

  predicate HasPoBox(s: string) {
    PoBoxAt(s) || (s != [] && HasPoBox(s[1..]))
  }

  /** `RURAL\s*ROUTE|RR\s*\d*`, case-insensitive, anchored at the start of `s`. */
  predicate RuralRouteAt(s: string) {
    (StartsWithIgnoreCase(s, "RURAL") && StartsWithIgnoreCase(SkipSpaces(s[5..]), "ROUTE"))
    || StartsWithIgnoreCase(s, "RR")
  }

  predicate HasRuralRoute(s: string) {
    RuralRouteAt(s) || (s != [] && HasRuralRoute(s[1..]))
  }

  /** The upper-cased, trimmed street is UNKNOWN, N/A or NA. */
  predicate IsUnknown(street: string) {
    var t := Trim(ToUpper(street));
    t == "UNKNOWN" || t == "N/A" || t == "NA"
  }

  /** `\bGA\b` at index `i`, case-insensitive. */
  predicate GaWordAt(s: string, i: nat)
    requires i <= |s|
  {
    StartsWithIgnoreCase(s[i..], "GA")
    && (i == 0 || !IsWordChar(s[i - 1]))
    && (i + 2 == |s| || !IsWordChar(s[i + 2]))
  }

  /** `\bGA\b|GEORGIA` matches at some index at or after `i`. */
  predicate StateTextFrom(s: string, i: nat)
    requires i <= |s|
    decreases |s| - i
  {
    GaWordAt(s, i) || StartsWithIgnoreCase(s[i..], "GEORGIA")
    || (i < |s| && StateTextFrom(s, i + 1))
  }

  predicate HasStateText(s: string) {
    StateTextFrom(s, 0)
  }

  /** `^\d+\s+[A-Za-z]`. */
  predicate StartsNumberSpaceLetter(s: string) {
    var d := LeadingDigits(s);
    var w := LeadingSpaces(s[d..]);
    d >= 1 && w >= 1 && d + w < |s| && IsLetter(s[d + w])
  }

  /** `^\d+[A-Za-z]`. */
  predicate IsMashed(s: string) {
    var d := LeadingDigits(s);
    d >= 1 && d < |s| && IsLetter(s[d])
  }

  /** `[A-Za-z]+\d+`: some letter is immediately followed by a digit. */
  predicate HasLetterThenDigit(s: string) {
    |s| >= 2 && ((IsLetter(s[0]) && IsDigit(s[1])) || HasLetterThenDigit(s[1..]))
  }

  /** Which of the eight street rules a street violates. */
  datatype StreetViolations = StreetViolations(
    comma: bool, poBox: bool, ruralRoute: bool, unknown: bool,
    stateText: bool, notNumberSpaceLetter: bool, mashed: bool, letterThenDigit: bool)

  function Violations(street: string): StreetViolations {
    StreetViolations(
      Contains(ToUpper(street), ","), HasPoBox(street), HasRuralRoute(street), IsUnknown(street),
      HasStateText(street), !StartsNumberSpaceLetter(street), IsMashed(street), HasLetterThenDigit(street))
  }

  /** `errs.push(r)` when the rule is violated. */
  function Push(errs: seq<Reason>, violated: bool, r: Reason): seq<Reason> {
    if violated then errs + [r] else errs
  }

  /** The reasons of the violated street rules, pushed in rule order. */
  function Reasons(v: StreetViolations): seq<Reason> {
    var e1 := Push([], v.comma, Comma);
    var e2 := Push(e1, v.poBox, PoBox);
    var e3 := Push(e2, v.ruralRoute, RuralRoute);
    var e4 := Push(e3, v.unknown, Unknown);
    var e5 := Push(e4, v.stateText, StateText);
    var e6 := Push(e5, v.notNumberSpaceLetter, MustStart);
    var e7 := Push(e6, v.mashed, Mashed);
    Push(e7, v.letterThenDigit, LetterThenDigit)
  }

  /** The reasons of the street rules that `street` violates, in rule order. */
  function StreetErrors(street: string): seq<Reason> {
    Reasons(Violations(street))
  }

  /** Run every street rule in order, pushing the reason of each violated one. */
  method ValidateStreet(street: string) returns (errs: seq<Reason>)
    ensures errs == StreetErrors(street)
  {
    var v := Violations(street);
    errs := [];
    if v.comma { errs := errs + [Comma]; }
    if v.poBox { errs := errs + [PoBox]; }
    if v.ruralRoute { errs := errs + [RuralRoute]; }
    if v.unknown { errs := errs + [Unknown]; }
    if v.stateText { errs := errs + [StateText]; }
    if v.notNumberSpaceLetter { errs := errs + [MustStart]; }
    if v.mashed { errs := errs + [Mashed]; }
    if v.letterThenDigit { errs := errs + [LetterThenDigit]; }
  }

  lemma {:induction false} RuralRouteScan(s: string, i: nat)
    requires i <= |s| && RuralRouteAt(s[i..])
    ensures HasRuralRoute(s)
  {
    if i > 0 {
      assert s[1..][i - 1..] == s[i..];
      RuralRouteScan(s[1..], i - 1);
    }
  }

  /** Since `RR\s*\d*` accepts zero digits, any "rr" in any case triggers the rural-route rule. */
  lemma AnyDoubleRIsRuralRoute(street: string, i: nat)
    requires i + 2 <= |street| && ToLower(street[i..i + 2]) == "rr"
    ensures RuralRoute in StreetErrors(street)
  {
    assert street[i..][..2] == street[i..i + 2];
    RuralRouteScan(street, i);
  }

  /** A house number glued to a letter breaks both the "number, space, letters" and the "mashed" rule. */
  lemma MashedBreaksTwoRules(street: string)
    requires IsMashed(street)
    ensures MustStart in StreetErrors(street)
    ensures Mashed in StreetErrors(street)
  {
    var d := LeadingDigits(street);
    assert LeadingSpaces(street[d..]) == 0;
  }

  lemma {:induction false} LetterThenDigitScan(s: string, i: nat)
    requires i + 1 < |s| && IsLetter(s[i]) && IsDigit(s[i + 1])
    ensures HasLetterThenDigit(s)
  {
    if i > 0 {
      LetterThenDigitScan(s[1..], i - 1);
    }
  }

  // ---------------------------------------------------------------- the filter

  datatype AddressResult = Accepted(address: string) | Rejected(errors: seq<Reason>)

  /** A part that is neither undefined nor empty (JavaScript truthiness of a string). */
  predicate Present(v: Option<string>) {
    v.Some? && v.value != ""
  }

  function MissingErrors(p: Parts): seq<Reason> {
    Rule(!Present(p.streetAddress), StreetMissing)
    + Rule(!Present(p.city), CityMissing)
    + Rule(!Present(p.zip), ZipMissing)
  }

  /** The geocoding query for a row, or every reason the row is rejected. */
  function FilterAndFormat(row: RawRow): AddressResult {
    var p := PartsOf(row);
    var missing := MissingErrors(p);
    if missing != [] then Rejected(missing)
    else
      var street := CleanStr(p.streetAddress.value);
      var city := CleanStr(p.city.value);
      var zip := CleanStr(p.zip.value);
      var errors := ValidateZip(zip) + ValidateCity(city) + StreetErrors(street);
      if errors != [] then Rejected(errors)
      else Accepted(street + ", " + city + ", GA " + zip)
  }

  /**
   * A missing street, city or zip rejects the row with one "missing" reason per
   * absent part, in the order street, city, zip, and no validation reason.
   */
  lemma MissingPartsRejected(row: RawRow)
    requires var p := PartsOf(row); !Present(p.streetAddress) || !Present(p.city) || !Present(p.zip)
    ensures var p := PartsOf(row); var r := FilterAndFormat(row);
      && r.Rejected?
      && r.errors == Rule(!Present(p.streetAddress), StreetMissing)
                     + Rule(!Present(p.city), CityMissing)
                     + Rule(!Present(p.zip), ZipMissing)
      && 1 <= |r.errors| <= 3
  {
  }

  /**
   * With all three parts present, every validation reason is collected, zip
   * first, then city, then street, and the row is accepted exactly when there is none.
   */
  lemma AllErrorsCollected(row: RawRow)
    requires var p := PartsOf(row); Present(p.streetAddress) && Present(p.city) && Present(p.zip)
    ensures var p := PartsOf(row); var r := FilterAndFormat(row);
      var errors := ValidateZip(CleanStr(p.zip.value)) + ValidateCity(CleanStr(p.city.value))
        + StreetErrors(CleanStr(p.streetAddress.value));
      && (r.Accepted? <==> errors == [])
      && (r.Rejected? ==> r.errors == errors)
  {
  }

  /**
   * A row is accepted exactly when its three parts are present and pass every rule,
   * and the accepted query is "<street>, <city>, GA <zip>" of the cleaned parts.
   */
  lemma AcceptedAddressShape(row: RawRow)
    ensures var p := PartsOf(row); var r := FilterAndFormat(row);
      r.Accepted? <==>
        && Present(p.streetAddress) && Present(p.city) && Present(p.zip)
        && ValidZip(CleanStr(p.zip.value))
        && ValidCity(CleanStr(p.city.value))
        && StreetErrors(CleanStr(p.streetAddress.value)) == []
    ensures var p := PartsOf(row); var r := FilterAndFormat(row);
      r.Accepted? ==>
        && r.address == CleanStr(p.streetAddress.value) + ", " + CleanStr(p.city.value) + ", GA " + CleanStr(p.zip.value)
        && |CleanStr(p.zip.value)| == 5
        && (forall i :: 0 <= i < 5 ==> IsDigit(CleanStr(p.zip.value)[i]))
  {
    var p := PartsOf(row);
    if FilterAndFormat(row).Accepted? {
      var zip := CleanStr(p.zip.value);
      AllCharsMeans(zip, IsDigit);
    }
  }

  /** A cleaned street with a letter right before a digit never reaches the geocoder. */
  lemma LetterThenDigitRejected(row: RawRow, i: nat)
    requires var p := PartsOf(row);
      && p.streetAddress.Some?
      && i + 1 < |CleanStr(p.streetAddress.value)|
      && IsLetter(CleanStr(p.streetAddress.value)[i]) && IsDigit(CleanStr(p.streetAddress.value)[i + 1])
    ensures FilterAndFormat(row).Rejected?
  {
    var street := CleanStr(PartsOf(row).streetAddress.value);
    LetterThenDigitScan(street, i);
  }

  /** The state column is recognised but only street, city and zip decide the outcome. */
  lemma StateNeverConsulted(a: RawRow, b: RawRow)
    requires PartsOf(a).(state := None) == PartsOf(b).(state := None)
    ensures FilterAndFormat(a) == FilterAndFormat(b)
  {
  }
}
