/**
 * The demographic upload route, row by row: which records of the sheet are
 * kept, and the fields the route writes into each kept record (padded ZIP, city,
 * race, income bin, education, employment status and the period labels),
 * together with the running totals. The grouping of the enriched records is in
 * module DemoGroups.
 */
module Demographics {
  import opened Wrappers
  import opened JsText
  import opened JsNum
  import opened JsParse
  import opened Tally
  import opened Counter

  /** A record of the uploaded sheet: column name to (already trimmed) cell text. */
  type Record = map<string, string>

  /** `row[col] || ''` */
  function Cell(r: Record, col: string): string {
    if col in r then r[col] else ""
  }

  /** `row[col] || 'Unknown'` */
  function CellOr(r: Record, col: string): string {
    if Cell(r, col) != "" then Cell(r, col) else "Unknown"
  }

  // ------------------------------------------------------------------ which records are kept

  /** `row['Case #'] || parseFloat(row['Amount']) || (row['Zip code'] && row['Zip code'].trim())` */
  predicate Keep(r: Record) {
    Cell(r, "Case #") != "" || Truthy(ParseFloat(Cell(r, "Amount"))) || Trim(Cell(r, "Zip code")) != ""
  }

  /** A record with no case number, no ZIP and an amount of zero or none is dropped. */
  lemma DropsEmptyRecords(r: Record)
    requires Cell(r, "Case #") == "" && Cell(r, "Zip code") == ""
    requires Cell(r, "Amount") == "" || Cell(r, "Amount") == "0"
    ensures !Keep(r)
  {
    if Cell(r, "Amount") == "0" {
      ParseFloatDecimal(0);
      assert DecimalString(0) == "0";
    }
  }

  /** A positive whole amount is enough to keep a record. */
  lemma KeepsPositiveAmount(r: Record, n: nat)
    requires n > 0 && Cell(r, "Amount") == DecimalString(n)
    ensures Keep(r)
  {
    ParseFloatDecimal(n);
  }

  // ------------------------------------------------------------------ ZIP to city

  /** A row of the ZIP/city mapping file. */
  datatype CityRow = CityRow(zip: string, city: string)

  /** `row.zip.padStart(5, '0').trim()` */
  function MappingKey(zip: string): string {
    Trim(PadStart(zip, 5, '0'))
  }

  /** The `reduce` building the ZIP to city lookup; a later row overwrites an earlier one. */
  function ZipMapOf(rows: seq<CityRow>): map<string, string> {
    if rows == [] then map[]
    else
      var last := rows[|rows| - 1];
      ZipMapOf(rows[..|rows| - 1])[MappingKey(last.zip) := Trim(last.city)]
  }

  /** Each key's city is the trimmed city of the last row with that key. */
  lemma {:induction false} ZipMapLastWins(rows: seq<CityRow>, i: nat)
    requires i < |rows|
    requires forall j :: i < j < |rows| ==> MappingKey(rows[j].zip) != MappingKey(rows[i].zip)
    ensures MappingKey(rows[i].zip) in ZipMapOf(rows)
    ensures ZipMapOf(rows)[MappingKey(rows[i].zip)] == Trim(rows[i].city)
  {
    if i < |rows| - 1 {
      ZipMapLastWins(rows[..|rows| - 1], i);
    }
  }

  function RowKey(row: CityRow): string {
    MappingKey(row.zip)
  }

  /** The lookup has an entry for exactly the keys of the mapping rows. */
  lemma {:induction false} ZipMapDomain(rows: seq<CityRow>)
    ensures forall k :: k in ZipMapOf(rows) <==> k in Keys(rows, RowKey)
  {
    if rows != [] {
      ZipMapDomain(rows[..|rows| - 1]);
    }
  }

  const UnmatchedZip := "Unmatched Zip"

  /** `zipMap[zip] || 'Unmatched Zip'`: an empty city counts as no match. */
  function CityOf(zipMap: map<string, string>, zip: string): (city: string)
    ensures city == UnmatchedZip || (zip in zipMap && city == zipMap[zip])
    ensures zip !in zipMap ==> city == UnmatchedZip
  {
    if zip in zipMap && zipMap[zip] != "" then zipMap[zip] else UnmatchedZip
  }

  /** `(row['Zip code'] || '').padStart(5, '0')` */
  function PaddedZip(r: Record): (zip: string)
    ensures |zip| >= 5
  {
    PadStart(Cell(r, "Zip code"), 5, '0')
  }

  // ------------------------------------------------------------------ first "YES" column

  const RaceColumns: seq<string> := [
    "Asian", "Black or African-American", "Hispanic, Latino, or Spanish Origin",
    "Middle Eastern or North African", "White", "American Indian", "Multiracial",
    "Pacific Islander", "Other", "Prefers not to answer", "Undisclosed",
    "A race/ethnicity not listed here"]

  const EmploymentColumns: seq<string> := [
    "Full time", "Part time", "Unemployed-Seeking", "Unemployed-Not Seeking",
    "Disabled", "Retired", "Prefer not to answer", "College Student",
    "Not applicable", "Unemployed"]

  /** `(row[col] || '').trim().toUpperCase() === 'YES'` */
  predicate IsYes(r: Record, col: string) {
    ToUpper(Trim(Cell(r, col))) == "YES"
  }

  /** `choice` is the first column answered "YES", or "Unknown" when none is. */
  predicate FirstYes(r: Record, columns: seq<string>, choice: string) {
    || (exists i :: 0 <= i < |columns| && columns[i] == choice && IsYes(r, columns[i]) &&
          forall j :: 0 <= j < i ==> !IsYes(r, columns[j]))
    || (choice == "Unknown" && forall j :: 0 <= j < |columns| ==> !IsYes(r, columns[j]))
  }

  /** The first of `columns` answered "YES", or "Unknown". */
  function ChoiceOf(r: Record, columns: seq<string>): string {
    if columns == [] then "Unknown"
    else if IsYes(r, columns[0]) then columns[0]
    else ChoiceOf(r, columns[1..])
  }

  /** Where `ChoiceOf` stops: the index of the first "YES" column, or `|columns|`. */
  lemma {:induction false} ChoiceAt(r: Record, columns: seq<string>) returns (i: nat)
    ensures i <= |columns|
    ensures forall j :: 0 <= j < i ==> !IsYes(r, columns[j])
    ensures i < |columns| ==> IsYes(r, columns[i]) && ChoiceOf(r, columns) == columns[i]
    ensures i == |columns| ==> ChoiceOf(r, columns) == "Unknown"
  {
    if columns != [] && !IsYes(r, columns[0]) {
      var k := ChoiceAt(r, columns[1..]);
      i := k + 1;
      forall j | 0 <= j < i
        ensures !IsYes(r, columns[j])
      {
        if j > 0 {
          assert columns[j] == columns[1..][j - 1];
        }
      }
    } else {
      i := 0;
    }
  }

  /** `ChoiceOf` is the choice `FirstYes` describes. */
  lemma {:induction false} ChoiceOfMeaning(r: Record, columns: seq<string>)
    ensures FirstYes(r, columns, ChoiceOf(r, columns))
  {
    var i := ChoiceAt(r, columns);
  }

  /** The `for ... of` loop with `break` choosing the race or the employment status. */
  method PickColumn(r: Record, columns: seq<string>) returns (choice: string)
    ensures choice == ChoiceOf(r, columns)
    ensures FirstYes(r, columns, choice)
  {
    ChoiceOfMeaning(r, columns);
    choice := "Unknown";
    for i := 0 to |columns|
      invariant ChoiceOf(r, columns[i..]) == ChoiceOf(r, columns)
    {
      assert columns[i..][1..] == columns[i + 1..];
      if IsYes(r, columns[i]) {
        choice := columns[i];
        return;
      }
    }
  }

  lemma FirstYesUnique(r: Record, columns: seq<string>, a: string, b: string)
    requires "Unknown" !in columns
    requires FirstYes(r, columns, a) && FirstYes(r, columns, b)
    ensures a == b
  {
    if a != "Unknown" && b != "Unknown" {
      var i :| 0 <= i < |columns| && columns[i] == a && IsYes(r, columns[i]) &&
        forall j :: 0 <= j < i ==> !IsYes(r, columns[j]);
      var k :| 0 <= k < |columns| && columns[k] == b && IsYes(r, columns[k]) &&
        forall j :: 0 <= j < k ==> !IsYes(r, columns[j]);
      assert i == k;
    }
  }

  // ------------------------------------------------------------------ income bins

  const IncomeLimits: seq<real> := [25000.0, 50000.0, 75000.0, 100000.0, 125000.0]
  const IncomeLabels: seq<string> := ["0-25K", "25K-50K", "50K-75K", "75K-100K", "100K-125K", "125K+"]

  /** The nested conditional on `parseFloat(row['Household Income'])`. */
  function IncomeBin(income: Num): (bin: string)
    ensures income == NaN <==> bin == "Unknown"
    ensures income == PosInf ==> bin == "125K+"
    ensures income == NegInf ==> bin == "0-25K"
  {
    if income == NaN then "Unknown"
    else if !AtLeastNum(income, 25000.0) then "0-25K"
    else if !AtLeastNum(income, 50000.0) then "25K-50K"
    else if !AtLeastNum(income, 75000.0) then "50K-75K"
    else if !AtLeastNum(income, 100000.0) then "75K-100K"
    else if !AtLeastNum(income, 125000.0) then "100K-125K"
    else "125K+"
  }

  /** `!(income < limit)` for a number other than NaN. */
  predicate AtLeastNum(income: Num, limit: real) {
    match income
    case Fin(v) => v >= limit
    case PosInf => true
    case _ => false
  }

  /** How many of the limits a finite income reaches. */
  function LimitsReached(limits: seq<real>, v: real): (n: nat)
    ensures n <= |limits|
  {
    if limits == [] then 0 else (if v >= limits[0] then 1 else 0) + LimitsReached(limits[1..], v)
  }

  /** A finite income falls in the bin after the last limit it reaches. */
  lemma IncomeBinByLimits(v: real)
    ensures IncomeBin(Fin(v)) == IncomeLabels[LimitsReached(IncomeLimits, v)]
  {
    var l1: seq<real> := [50000.0, 75000.0, 100000.0, 125000.0];
    var l2: seq<real> := [75000.0, 100000.0, 125000.0];
    var l3: seq<real> := [100000.0, 125000.0];
    var l4: seq<real> := [125000.0];
    assert IncomeLimits[1..] == l1 && l1[1..] == l2 && l2[1..] == l3 && l3[1..] == l4 && l4[1..] == [];
    var n4 := if v >= 125000.0 then 1 else 0;
    var n3 := (if v >= 100000.0 then 1 else 0) + n4;
    var n2 := (if v >= 75000.0 then 1 else 0) + n3;
    var n1 := (if v >= 50000.0 then 1 else 0) + n2;
    var n0 := (if v >= 25000.0 then 1 else 0) + n1;
    assert LimitsReached(l4, v) == n4;
    assert LimitsReached(l3, v) == n3;
    assert LimitsReached(l2, v) == n2;
    assert LimitsReached(l1, v) == n1;
    assert LimitsReached(IncomeLimits, v) == n0;
  }

  /** A larger income never falls in an earlier bin. */
  lemma {:induction false} LimitsMonotone(limits: seq<real>, v: real, w: real)
    requires v <= w
    ensures LimitsReached(limits, v) <= LimitsReached(limits, w)
  {
    if limits != [] {
      LimitsMonotone(limits[1..], v, w);
    }
  }

  // ------------------------------------------------------------------ county names

  /** `normalizeCountyName`: lower-cased and trimmed, with the misspellings and placeholders mapped. */
  function NormalizeCounty(county: string): string {
    var cleaned := Trim(ToLower(county));
    if cleaned == "gwinett" || cleaned == "gwinette" || cleaned == "gwinnette" then "gwinnett"
    else if cleaned == "0" || cleaned == "other" then "unknown"
    else cleaned
  }

  /** A lower-cased, trimmed name is left as it is by lower-casing and trimming again. */
  lemma CleanedIsFixed(county: string)
    ensures Trim(ToLower(Trim(ToLower(county)))) == Trim(ToLower(county))
  {
    var lower := ToLower(county);
    var cleaned := Trim(lower);
    NoUpperToLower(county);
    TrimSlice(lower);
    var i, j :| 0 <= i <= j <= |lower| && cleaned == lower[i..j];
    assert NoUpper(cleaned) by {
      forall k | 0 <= k < |cleaned|
        ensures !IsUpper(cleaned[k])
      {
        assert cleaned[k] == lower[i + k];
      }
    }
    ToLowerOfNoUpper(cleaned);
    TrimIsTrimmed(lower);
  }

  /** Normalizing twice is normalizing once. */
  lemma NormalizeCountyIdempotent(county: string)
    ensures NormalizeCounty(NormalizeCounty(county)) == NormalizeCounty(county)
  {
    var cleaned := Trim(ToLower(county));
    var n := NormalizeCounty(county);
    if n == "gwinnett" {
      GwinnettIsNormal();
    } else if n == "unknown" {
      UnknownIsNormal();
    } else {
      assert n == cleaned;
      CleanedIsFixed(county);
    }
  }

  lemma GwinnettCleaned()
    ensures Trim(ToLower("gwinnett")) == "gwinnett"
  {
    var g: string := "gwinnett";
    assert NoUpper(g) by {
      forall i | 0 <= i < |g|
        ensures !IsUpper(g[i])
      {
      }
    }
    ToLowerOfNoUpper(g);
    assert IsTrimmed(g);
    TrimOfUnpadded(g);
  }

  lemma GwinnettIsNormal()
    ensures NormalizeCounty("gwinnett") == "gwinnett"
  {
    GwinnettCleaned();
    assert "gwinnett" != "gwinett" && "gwinnett" != "gwinette" && "gwinnett" != "gwinnette";
    assert "gwinnett" != "0" && "gwinnett" != "other";
  }

  lemma UnknownIsNormal()
    ensures NormalizeCounty("unknown") == "unknown"
  {
    UnknownCleaned();
    assert "unknown" != "gwinett" && "unknown" != "gwinette" && "unknown" != "gwinnette";
    assert "unknown" != "0" && "unknown" != "other";
  }

  lemma UnknownCleaned()
    ensures Trim(ToLower("unknown")) == "unknown"
  {
    var u: string := "unknown";
    assert NoUpper(u) by {
      forall i | 0 <= i < |u|
        ensures !IsUpper(u[i])
      {
      }
    }
    ToLowerOfNoUpper(u);
    assert IsTrimmed(u);
    TrimOfUnpadded(u);
  }

  /** A misspelling in another case is corrected. */
  lemma NormalizeMisspelling()
    ensures NormalizeCounty("Gwinett") == "gwinnett"
  {
    assert ToLower("Gwinett") == "gwinett" by {
      ToLowerAt("Gwinett");
    }
    TrimOfUnpadded("gwinett");
  }

  // ------------------------------------------------------------------ periods

  /**
   * The calendar fields of a valid assistance date in the server's time zone:
   * the year, the month (1 to 12) and the week number counted from 1 January.
   */
  datatype Moment = Moment(year: nat, month: nat, week: nat)

  /** The date of a record: None when the cell is empty or the text is not a valid date. */
  function DateOf(r: Record, parseDate: string -> Option<Moment>): Option<Moment> {
    if Cell(r, "Assistance Date") == "" then None else parseDate(Cell(r, "Assistance Date"))
  }

  function YearLabel(d: Option<Moment>): string {
    if d.None? then "Unknown" else DecimalString(d.value.year)
  }

  function MonthLabel(d: Option<Moment>): string {
    if d.None? then "Unknown"
    else DecimalString(d.value.year) + "-" + PadStart(DecimalString(d.value.month), 2, '0')
  }

  function WeekLabel(d: Option<Moment>): string {
    if d.None? then "Unknown"
    else "Week " + DecimalString(d.value.week) + ", " + DecimalString(d.value.year)
  }

  // ------------------------------------------------------------------ one record

  /** The cells the route writes into a record, given the race and employment status chosen for it. */
  function Derivation(r: Record, zipMap: map<string, string>, parseDate: string -> Option<Moment>,
                      race: string, employment: string): map<string, string>
  {
    var zip := PaddedZip(r);
    var d := DateOf(r, parseDate);
    map[
      "Zip code" := zip,
      "City" := CityOf(zipMap, zip),
      "Race" := race,
      "Income Bin" := IncomeBin(ParseFloat(Cell(r, "Household Income"))),
      "Education" := CellOr(r, "Education"),
      "Employment Status" := employment,
      "Year" := YearLabel(d),
      "YearMonth" := MonthLabel(d),
      "Week" := WeekLabel(d)]
  }

  lemma DerivationReadBack(r: Record, zipMap: map<string, string>, parseDate: string -> Option<Moment>,
                           race: string, employment: string)
    ensures var e := r + Derivation(r, zipMap, parseDate, race, employment);
      Cell(e, "Race") == race && Cell(e, "Employment Status") == employment
  {
  }

  /** The record `r` after the route's per-record assignments. */
  function Enrich(r: Record, zipMap: map<string, string>, parseDate: string -> Option<Moment>): Record {
    r + Derivation(r, zipMap, parseDate, ChoiceOf(r, RaceColumns), ChoiceOf(r, EmploymentColumns))
  }

  /** An enriched record keeps every cell of `r` the route does not write. */
  lemma EnrichKeeps(r: Record, zipMap: map<string, string>, parseDate: string -> Option<Moment>, k: string)
    requires k in r
    ensures k in Enrich(r, zipMap, parseDate)
    ensures k !in Derivation(r, zipMap, parseDate, ChoiceOf(r, RaceColumns), ChoiceOf(r, EmploymentColumns)) ==>
      Enrich(r, zipMap, parseDate)[k] == r[k]
  {
  }

  /**
   * The race and employment status of an enriched record are the first columns
   * of `r` answered "YES" (the route writes none of them before reading them).
   */
  lemma EnrichChoices(r: Record, zipMap: map<string, string>, parseDate: string -> Option<Moment>)
    ensures FirstYes(r, RaceColumns, Cell(Enrich(r, zipMap, parseDate), "Race"))
    ensures FirstYes(r, EmploymentColumns, Cell(Enrich(r, zipMap, parseDate), "Employment Status"))
  {
    var race := ChoiceOf(r, RaceColumns);
    var employment := ChoiceOf(r, EmploymentColumns);
    ChoiceOfMeaning(r, RaceColumns);
    ChoiceOfMeaning(r, EmploymentColumns);
    DerivationReadBack(r, zipMap, parseDate, race, employment);
  }

  /** The method the loop body runs on each kept record. */
  method EnrichRecord(r: Record, zipMap: map<string, string>, parseDate: string -> Option<Moment>)
    returns (e: Record)
    ensures e == Enrich(r, zipMap, parseDate)
  {
    var race := PickColumn(r, RaceColumns);
    var employment := PickColumn(r, EmploymentColumns);
    e := r + Derivation(r, zipMap, parseDate, race, employment);
  }

  /** `if (row['Case #']) totalHelped++` */
  predicate Helped(r: Record) {
    Cell(r, "Case #") != ""
  }

  /** `parseInt(row['Household Size']) || 0` */
  function Reached(r: Record): int {
    var n := ParseIntNoRadix(Cell(r, "Household Size"));
    if n.Some? then n.value else 0
  }

  predicate Unmatched(r: Record) {
    Cell(r, "City") == UnmatchedZip
  }

  /** The ZIP column of the records, in order. */
  function ZipsOf(rows: seq<Record>): seq<string> {
    if rows == [] then [] else ZipsOf(rows[..|rows| - 1]) + [Cell(rows[|rows| - 1], "Zip code")]
  }

  /** Every record of `kept`, enriched, in order. */
  function EnrichAll(kept: seq<Record>, zipMap: map<string, string>, parseDate: string -> Option<Moment>): (rows: seq<Record>)
    ensures |rows| == |kept|
    ensures forall i :: 0 <= i < |kept| ==> rows[i] == Enrich(kept[i], zipMap, parseDate)
  {
    MapSeq(kept, (r: Record) => Enrich(r, zipMap, parseDate))
  }

  lemma EnrichAllStep(kept: seq<Record>, i: nat, zipMap: map<string, string>, parseDate: string -> Option<Moment>)
    requires i < |kept|
    ensures EnrichAll(kept[..i + 1], zipMap, parseDate) ==
      EnrichAll(kept[..i], zipMap, parseDate) + [Enrich(kept[i], zipMap, parseDate)]
  {
    MapSeqStep(kept, i, (r: Record) => Enrich(r, zipMap, parseDate));
  }

  datatype RunningTotals = RunningTotals(helped: nat, reached: int, unmatched: seq<LabelCount>)

  /** The totals after one more enriched record. */
  function Account(t: RunningTotals, e: Record): RunningTotals {
    RunningTotals(
      t.helped + (if Helped(e) then 1 else 0),
      t.reached + Reached(e),
      if Unmatched(e) then Bump(t.unmatched, Cell(e, "Zip code")) else t.unmatched)
  }

  /** The totals after every record of `rows`, in order. */
  function TotalsOf(rows: seq<Record>): RunningTotals {
    if rows == [] then RunningTotals(0, 0, [])
    else Account(TotalsOf(rows[..|rows| - 1]), rows[|rows| - 1])
  }

  /** What the running totals say about the records enriched so far. */
  predicate Totals(rows: seq<Record>, t: RunningTotals) {
    && t.helped == |Filter(rows, Helped)|
    && t.reached == Sum(rows, Reached)
    && t.unmatched == TallyOf(ZipsOf(Filter(rows, Unmatched)))
  }

  /** The unmatched tally after one more record. */
  lemma UnmatchedStep(rows: seq<Record>, e: Record)
    ensures var t := TallyOf(ZipsOf(Filter(rows, Unmatched)));
      TallyOf(ZipsOf(Filter(rows + [e], Unmatched))) == if Unmatched(e) then Bump(t, Cell(e, "Zip code")) else t
  {
    FilterStep(rows, e, Unmatched);
    if Unmatched(e) {
      var u := Filter(rows, Unmatched);
      assert (u + [e])[..|u|] == u;
      var z := ZipsOf(u);
      assert ZipsOf(u + [e]) == z + [Cell(e, "Zip code")];
      assert (z + [Cell(e, "Zip code")])[..|z|] == z;
    }
  }

  lemma TotalsStep(rows: seq<Record>, e: Record, t: RunningTotals)
    requires Totals(rows, t)
    ensures Totals(rows + [e], Account(t, e))
  {
    FilterStep(rows, e, Helped);
    SumStep(rows, e, Reached);
    UnmatchedStep(rows, e);
  }

  /**
   * The totals count the records with a case number and the people reached,
   * and tally the unmatched records by ZIP.
   */
  lemma {:induction false} TotalsMeaning(rows: seq<Record>)
    ensures Totals(rows, TotalsOf(rows))
  {
    if rows != [] {
      var p, e := rows[..|rows| - 1], rows[|rows| - 1];
      assert p + [e] == rows;
      assert TotalsOf(rows) == Account(TotalsOf(p), e);
      TotalsMeaning(p);
      TotalsStep(p, e, TotalsOf(p));
    }
  }

  lemma TotalsOfStep(rows: seq<Record>, e: Record)
    ensures TotalsOf(rows + [e]) == Account(TotalsOf(rows), e)
  {
    assert (rows + [e])[..|rows|] == rows;
  }

  /** The counting part of the loop body: `totalHelped`, `totalReached` and `unmatchedZips`. */
  method CountRecord(t: RunningTotals, e: Record) returns (u: RunningTotals)
    ensures u == Account(t, e)
  {
    var helped, reached, unmatched := t.helped, t.reached, t.unmatched;
    if Helped(e) {
      helped := helped + 1;
    }
    reached := reached + Reached(e);
    if Unmatched(e) {
      unmatched := Bump(unmatched, Cell(e, "Zip code"));
    }
    u := RunningTotals(helped, reached, unmatched);
  }

  /**
   * The route up to the grouping: keep the records that carry something, enrich
   * each of them, count the records with a case number and the people reached,
   * and count the unmatched records per padded ZIP.
   */
  method Prepare(records: seq<Record>, zipMap: map<string, string>, parseDate: string -> Option<Moment>)
    returns (rows: seq<Record>, totals: RunningTotals)
    ensures rows == EnrichAll(Filter(records, Keep), zipMap, parseDate)
    ensures totals == TotalsOf(rows)
    ensures Totals(rows, totals)
  {
    var kept := Filter(records, Keep);
    rows, totals := [], RunningTotals(0, 0, []);
    for i := 0 to |kept|
      invariant rows == EnrichAll(kept[..i], zipMap, parseDate)
      invariant totals == TotalsOf(rows)
    {
      var e := EnrichRecord(kept[i], zipMap, parseDate);
      EnrichAllStep(kept, i, zipMap, parseDate);
      TotalsOfStep(rows, e);
      totals := CountRecord(totals, e);
      rows := rows + [e];
    }
    assert kept[..|kept|] == kept;
    TotalsMeaning(rows);
  }
}
