/**
 * The second half of the demographic upload route: the group-by summaries
 * (per week, month, year, ZIP and county), the per-group label counters for
 * race, income, education and employment, and the per-period ZIP and county
 * tables. The floating-point `Amount` sums are not part of the model.
 */
module DemoGroups {
  import opened Tally
  import opened Counter
  import opened Demographics

  // ------------------------------------------------------------------ group-by summaries

  /** One entry of a summary: its key and the people helped and reached. */
  datatype Summary = Summary(key: string, peopleHelped: nat, peopleReached: int)

  function SummaryKey(s: Summary): string { s.key }
  function SummaryHelped(s: Summary): int { s.peopleHelped }
  function SummaryReached(s: Summary): int { s.peopleReached }

  /** 1 for a record with a case number, 0 otherwise. */
  function HelpedWeight(r: Record): int { if Helped(r) then 1 else 0 }

  /** Where the entry for `k` is: its index, or `|s|` when there is none. */
  function KeyIndex(s: seq<Summary>, k: string): (i: nat)
    ensures i <= |s|
    ensures i < |s| ==> s[i].key == k
    ensures forall j :: 0 <= j < i ==> s[j].key != k
  {
    if s == [] then 0
    else if s[0].key == k then 0
    else 1 + KeyIndex(s[1..], k)
  }

  /**
   * One record counted under key `k`: `result[k] ??= {...}` followed by the
   * increments, `helped` (0 or 1) and `reached`.
   */
  function AddRow(s: seq<Summary>, k: string, helped: nat, reached: int): seq<Summary> {
    var i := KeyIndex(s, k);
    if i < |s| then s[i := Summary(k, s[i].peopleHelped + helped, s[i].peopleReached + reached)]
    else s + [Summary(k, helped, reached)]
  }

  /** `r` counted under its key. */
  function AddRecord(s: seq<Summary>, keyOf: Record -> string, r: Record): seq<Summary> {
    AddRow(s, keyOf(r), if Helped(r) then 1 else 0, Reached(r))
  }

  /** The summary of `rows` by `keyOf`, entries in order of first occurrence. */
  function SummariesOf(rows: seq<Record>, keyOf: Record -> string): seq<Summary> {
    if rows == [] then []
    else
      AddRecord(SummariesOf(rows[..|rows| - 1], keyOf), keyOf, rows[|rows| - 1])
  }

  /**
   * What a summary says about the records counted so far: one entry per distinct
   * key, in order of first occurrence, each holding the number of its records
   * with a case number and the sum of their household sizes.
   */
  predicate Summarizes(s: seq<Summary>, rows: seq<Record>, keyOf: Record -> string) {
    && Keys(s, SummaryKey) == Distinct(Keys(rows, keyOf))
    && EntrySums(s, rows, keyOf, SummaryHelped, HelpedWeight)
    && EntrySums(s, rows, keyOf, SummaryReached, Reached)
  }

  /** Counting under a key already present keeps the keys. */
  lemma AddRowFoundKeys(s: seq<Summary>, k: string, h: nat, n: int)
    requires KeyIndex(s, k) < |s|
    ensures k in Keys(s, SummaryKey)
    ensures Keys(AddRow(s, k, h, n), SummaryKey) == Keys(s, SummaryKey)
  {
    var i := KeyIndex(s, k);
    KeysAt(s, SummaryKey);
    assert Keys(s, SummaryKey)[i] == k;
    KeysPointwise(AddRow(s, k, h, n), s, SummaryKey);
  }

  /** Counting under a new key appends it. */
  lemma AddRowNewKeys(s: seq<Summary>, k: string, h: nat, n: int)
    requires KeyIndex(s, k) == |s|
    ensures k !in Keys(s, SummaryKey)
    ensures Keys(AddRow(s, k, h, n), SummaryKey) == Keys(s, SummaryKey) + [k]
  {
    KeysAt(s, SummaryKey);
    KeysStep(s, Summary(k, h, n), SummaryKey);
  }

  lemma SummaryKeysStep(s: seq<Summary>, rows: seq<Record>, r: Record, keyOf: Record -> string, h: nat, n: int)
    requires Keys(s, SummaryKey) == Distinct(Keys(rows, keyOf))
    ensures Keys(AddRow(s, keyOf(r), h, n), SummaryKey) == Distinct(Keys(rows + [r], keyOf))
  {
    var k := keyOf(r);
    KeysStep(rows, r, keyOf);
    DistinctStep(Keys(rows, keyOf), k);
    if KeyIndex(s, k) < |s| {
      AddRowFoundKeys(s, k, h, n);
    } else {
      AddRowNewKeys(s, k, h, n);
    }
  }

  /** The per-entry sums of a summary, for the weight `w` read through `v`. */
  predicate EntrySums(s: seq<Summary>, rows: seq<Record>, keyOf: Record -> string, v: Summary -> int, w: Record -> int) {
    forall i :: 0 <= i < |s| ==> v(s[i]) == SumWhere(rows, keyOf, w, s[i].key)
  }

  lemma SummarySumsStep(s: seq<Summary>, rows: seq<Record>, r: Record, keyOf: Record -> string,
                        v: Summary -> int, w: Record -> int, h: nat, n: int)
    requires Keys(s, SummaryKey) == Distinct(Keys(rows, keyOf))
    requires EntrySums(s, rows, keyOf, v, w)
    requires var s' := AddRow(s, keyOf(r), h, n); var i := KeyIndex(s, keyOf(r));
      && (i < |s| ==> v(s'[i]) == v(s[i]) + w(r))
      && (i == |s| ==> v(s'[i]) == w(r))
    ensures EntrySums(AddRow(s, keyOf(r), h, n), rows + [r], keyOf, v, w)
  {
    var k := keyOf(r);
    forall key: string
      ensures SumWhere(rows + [r], keyOf, w, key) == SumWhere(rows, keyOf, w, key) + (if k == key then w(r) else 0)
    {
      SumWhereStep(rows, r, keyOf, w, key);
    }
    KeysAt(s, SummaryKey);
    if KeyIndex(s, k) < |s| {
      SumsFound(s, rows, r, keyOf, v, w, h, n);
    } else {
      assert k !in Keys(s, SummaryKey);
      SumWhereAbsent(rows, keyOf, w, k);
    }
  }

  /** Under a key already present, only that entry's sum moves, and by the record's weight. */
  lemma SumsFound(s: seq<Summary>, rows: seq<Record>, r: Record, keyOf: Record -> string,
                  v: Summary -> int, w: Record -> int, h: nat, n: int)
    requires NoDuplicates(Keys(s, SummaryKey))
    requires EntrySums(s, rows, keyOf, v, w)
    requires KeyIndex(s, keyOf(r)) < |s|
    requires v(AddRow(s, keyOf(r), h, n)[KeyIndex(s, keyOf(r))]) == v(s[KeyIndex(s, keyOf(r))]) + w(r)
    requires forall key: string ::
      SumWhere(rows + [r], keyOf, w, key) == SumWhere(rows, keyOf, w, key) + (if keyOf(r) == key then w(r) else 0)
    ensures EntrySums(AddRow(s, keyOf(r), h, n), rows + [r], keyOf, v, w)
  {
    var k := keyOf(r);
    var i := KeyIndex(s, k);
    KeysAt(s, SummaryKey);
    forall j | 0 <= j < |s| && j != i
      ensures s[j].key != k
    {
      assert Keys(s, SummaryKey)[j] != Keys(s, SummaryKey)[i];
    }
  }

  lemma SummarizesStep(s: seq<Summary>, rows: seq<Record>, r: Record, keyOf: Record -> string)
    requires Summarizes(s, rows, keyOf)
    ensures Summarizes(AddRecord(s, keyOf, r), rows + [r], keyOf)
  {
    var h: nat := if Helped(r) then 1 else 0;
    SummaryKeysStep(s, rows, r, keyOf, h, Reached(r));
    SummarySumsStep(s, rows, r, keyOf, SummaryHelped, HelpedWeight, h, Reached(r));
    SummarySumsStep(s, rows, r, keyOf, SummaryReached, Reached, h, Reached(r));
  }

  /** `SummariesOf` is a summary of its records. */
  lemma {:induction false} SummariesMeaning(rows: seq<Record>, keyOf: Record -> string)
    ensures Summarizes(SummariesOf(rows, keyOf), rows, keyOf)
  {
    if rows != [] {
      var p, r := rows[..|rows| - 1], rows[|rows| - 1];
      assert p + [r] == rows;
      assert SummariesOf(rows, keyOf) == AddRecord(SummariesOf(p, keyOf), keyOf, r);
      SummariesMeaning(p, keyOf);
      SummarizesStep(SummariesOf(p, keyOf), p, r, keyOf);
    }
  }

  /** Adding up a per-entry value that is a per-key sum gives the sum over those keys. */
  lemma {:induction false} SumOverEntries(s: seq<Summary>, rows: seq<Record>, keyOf: Record -> string,
                                          v: Summary -> int, w: Record -> int)
    requires forall i :: 0 <= i < |s| ==> v(s[i]) == SumWhere(rows, keyOf, w, s[i].key)
    ensures Sum(s, v) == SumOfGroups(Keys(s, SummaryKey), rows, keyOf, w)
  {
    if s != [] {
      var p := s[..|s| - 1];
      SumOverEntries(p, rows, keyOf, v, w);
      assert p + [s[|s| - 1]] == s;
      KeysStep(p, s[|s| - 1], SummaryKey);
      var ks := Keys(s, SummaryKey);
      assert ks[..|ks| - 1] == Keys(p, SummaryKey);
    }
  }

  lemma {:induction false} HelpedWeightCounts(rows: seq<Record>)
    ensures Sum(rows, HelpedWeight) == |Filter(rows, Helped)|
  {
    if rows != [] {
      var p := rows[..|rows| - 1];
      HelpedWeightCounts(p);
      FilterStep(p, rows[|rows| - 1], Helped);
      assert p + [rows[|rows| - 1]] == rows;
    }
  }

  /**
   * Whatever the key, the entries' people helped add up to the route's
   * `total_people_helped` and their people reached to `total_people_reached`.
   */
  lemma GroupTotals(rows: seq<Record>, keyOf: Record -> string)
    ensures Sum(SummariesOf(rows, keyOf), SummaryHelped) == |Filter(rows, Helped)| == TotalsOf(rows).helped
    ensures Sum(SummariesOf(rows, keyOf), SummaryReached) == Sum(rows, Reached) == TotalsOf(rows).reached
  {
    var s := SummariesOf(rows, keyOf);
    SummariesMeaning(rows, keyOf);
    SumOverEntries(s, rows, keyOf, SummaryHelped, HelpedWeight);
    SumOverEntries(s, rows, keyOf, SummaryReached, Reached);
    GroupsPartitionSum(rows, keyOf, HelpedWeight);
    GroupsPartitionSum(rows, keyOf, Reached);
    HelpedWeightCounts(rows);
    TotalsMeaning(rows);
  }

  lemma SummariesOfStep(rows: seq<Record>, i: nat, keyOf: Record -> string)
    requires i < |rows|
    ensures SummariesOf(rows[..i + 1], keyOf) == AddRecord(SummariesOf(rows[..i], keyOf), keyOf, rows[i])
  {
    assert rows[..i + 1][..i] == rows[..i];
  }

  /** `result[k] ??= {...}` and the increments, on the entries so far. */
  method CountUnder(s: seq<Summary>, k: string, helped: nat, reached: int) returns (t: seq<Summary>)
    ensures t == AddRow(s, k, helped, reached)
  {
    var j := KeyIndex(s, k);
    if j < |s| {
      t := s[j := Summary(k, s[j].peopleHelped + helped, s[j].peopleReached + reached)];
    } else {
      t := s + [Summary(k, helped, reached)];
    }
  }

  /** `groupBy(records, key)`: one pass over the records, one entry per key. */
  method GroupBy(rows: seq<Record>, keyOf: Record -> string) returns (s: seq<Summary>)
    ensures s == SummariesOf(rows, keyOf)
  {
    s := [];
    for i := 0 to |rows|
      invariant s == SummariesOf(rows[..i], keyOf)
    {
      var r := rows[i];
      var helped: nat := if Helped(r) then 1 else 0;
      SummariesOfStep(rows, i, keyOf);
      s := CountUnder(s, keyOf(r), helped, Reached(r));
    }
    assert rows[..|rows|] == rows;
  }

  // ------------------------------------------------------------------ label counters

  /** `table[g] || []` */
  function CountsAt<K(==)>(table: map<K, seq<LabelCount>>, g: K): seq<LabelCount> {
    if g in table then table[g] else []
  }

  /**
   * `grouped[g][label] = (grouped[g][label] || 0) + 1` over the records: a
   * label counter per group.
   */
  function LabelTable<K(==)>(rows: seq<Record>, groupOf: Record -> K, labelOf: Record -> string): map<K, seq<LabelCount>> {
    if rows == [] then map[]
    else
      var t := LabelTable(rows[..|rows| - 1], groupOf, labelOf);
      var r := rows[|rows| - 1];
      t[groupOf(r) := Bump(CountsAt(t, groupOf(r)), labelOf(r))]
  }

  /** The labels of the records of group `g`, in order. */
  function LabelsIn<K(==)>(rows: seq<Record>, groupOf: Record -> K, labelOf: Record -> string, g: K): seq<string> {
    if rows == [] then []
    else
      var r := rows[|rows| - 1];
      LabelsIn(rows[..|rows| - 1], groupOf, labelOf, g) + (if groupOf(r) == g then [labelOf(r)] else [])
  }

  lemma TallyOfStep(labels: seq<string>, x: string)
    ensures TallyOf(labels + [x]) == Bump(TallyOf(labels), x)
  {
    assert (labels + [x])[..|labels|] == labels;
  }

  /** A group has a counter exactly when some record falls in it. */
  lemma {:induction false} LabelTableDomain<K(!new)>(rows: seq<Record>, groupOf: Record -> K, labelOf: Record -> string, g: K)
    ensures g in LabelTable(rows, groupOf, labelOf) <==> g in Keys(rows, groupOf)
  {
    if rows != [] {
      var p := rows[..|rows| - 1];
      var r := rows[|rows| - 1];
      LabelTableDomain(p, groupOf, labelOf, g);
      KeysStep(p, r, groupOf);
      assert p + [r] == rows;
    }
  }

  /** A group's counter is the tally of the group's labels. */
  lemma {:induction false} LabelTableCounts<K(!new)>(rows: seq<Record>, groupOf: Record -> K, labelOf: Record -> string, g: K)
    ensures CountsAt(LabelTable(rows, groupOf, labelOf), g) == TallyOf(LabelsIn(rows, groupOf, labelOf, g))
  {
    if rows != [] {
      var p := rows[..|rows| - 1];
      var r := rows[|rows| - 1];
      LabelTableCounts(p, groupOf, labelOf, g);
      var ls := LabelsIn(p, groupOf, labelOf, g);
      if groupOf(r) == g {
        TallyOfStep(ls, labelOf(r));
      } else {
        assert ls + [] == ls;
      }
    }
  }

  /** A group has as many labels as records. */
  lemma {:induction false} LabelsInSize<K(!new)>(rows: seq<Record>, groupOf: Record -> K, labelOf: Record -> string, g: K)
    ensures |LabelsIn(rows, groupOf, labelOf, g)| == Count(Keys(rows, groupOf), g)
  {
    if rows != [] {
      var p := rows[..|rows| - 1];
      var r := rows[|rows| - 1];
      LabelsInSize(p, groupOf, labelOf, g);
      KeysStep(p, r, groupOf);
      assert p + [r] == rows;
      CountStep(Keys(p, groupOf), groupOf(r), g);
    }
  }

  /**
   * In every group, counter entries are the group's distinct labels with
   * their numbers of occurrences, and the counts add up to the number of
   * records in the group (none for a group no record falls in).
   */
  lemma LabelCountsAddUp<K(!new)>(rows: seq<Record>, groupOf: Record -> K, labelOf: Record -> string, g: K)
    ensures Counts(CountsAt(LabelTable(rows, groupOf, labelOf), g), LabelsIn(rows, groupOf, labelOf, g))
    ensures Sum(CountsAt(LabelTable(rows, groupOf, labelOf), g), EntryCount) == Count(Keys(rows, groupOf), g)
  {
    LabelTableCounts(rows, groupOf, labelOf, g);
    LabelsInSize(rows, groupOf, labelOf, g);
    TallyMeaning(LabelsIn(rows, groupOf, labelOf, g));
  }

  lemma LabelTableStep<K>(rows: seq<Record>, i: nat, groupOf: Record -> K, labelOf: Record -> string)
    requires i < |rows|
    ensures var t := LabelTable(rows[..i], groupOf, labelOf);
      LabelTable(rows[..i + 1], groupOf, labelOf) == t[groupOf(rows[i]) := Bump(CountsAt(t, groupOf(rows[i])), labelOf(rows[i]))]
  {
    assert rows[..i + 1][..i] == rows[..i];
  }

  /** The counter loop of `groupDemographicsByPeriod`, `groupZipWithField` and `groupCountyWithField`. */
  method CountLabels<K(==)>(rows: seq<Record>, groupOf: Record -> K, labelOf: Record -> string)
    returns (table: map<K, seq<LabelCount>>)
    ensures table == LabelTable(rows, groupOf, labelOf)
  {
    table := map[];
    for i := 0 to |rows|
      invariant table == LabelTable(rows[..i], groupOf, labelOf)
    {
      var r := rows[i];
      var g := groupOf(r);
      var counts := if g in table then table[g] else [];
      LabelTableStep(rows, i, groupOf, labelOf);
      table := table[g := Bump(counts, labelOf(r))];
    }
    assert rows[..|rows|] == rows;
  }

  // ------------------------------------------------------------------ keys and labels

  function WeekKey(r: Record): string { CellOr(r, "Week") }
  function MonthKey(r: Record): string { CellOr(r, "YearMonth") }
  function YearKey(r: Record): string { CellOr(r, "Year") }
  /** `row['Zip code']`: no fallback, every kept record has a padded ZIP. */
  function ZipKey(r: Record): string { Cell(r, "Zip code") }
  function CountyKey(r: Record): string { NormalizeCounty(CellOr(r, "County")) }

  function RaceLabel(r: Record): string { CellOr(r, "Race") }
  function IncomeLabel(r: Record): string { CellOr(r, "Income Bin") }
  function EducationLabel(r: Record): string { CellOr(r, "Education") }
  function EmploymentLabel(r: Record): string { CellOr(r, "Employment Status") }

  /** The four demographic breakdowns attached to a summary entry. */
  datatype Breakdown = Breakdown(race: seq<LabelCount>, income: seq<LabelCount>,
                                 education: seq<LabelCount>, employment: seq<LabelCount>)

  datatype Detailed = Detailed(summary: Summary, demographics: Breakdown)

  /** The breakdowns of group `g`, each `|| []` when the group has no counter. */
  function BreakdownOf<K(==)>(rows: seq<Record>, groupOf: Record -> K, g: K): Breakdown {
    Breakdown(
      CountsAt(LabelTable(rows, groupOf, RaceLabel), g),
      CountsAt(LabelTable(rows, groupOf, IncomeLabel), g),
      CountsAt(LabelTable(rows, groupOf, EducationLabel), g),
      CountsAt(LabelTable(rows, groupOf, EmploymentLabel), g))
  }

  /**
   * `buildSummaryWithDemographics`, the ZIP summary and the county summary:
   * the group-by entries, each with the breakdowns of its key.
   */
  function WithDemographics(rows: seq<Record>, keyOf: Record -> string): (d: seq<Detailed>)
    ensures |d| == |SummariesOf(rows, keyOf)|
  {
    var s := SummariesOf(rows, keyOf);
    seq(|s|, i requires 0 <= i < |s| => Detailed(s[i], BreakdownOf(rows, keyOf, s[i].key)))
  }

  /** The people helped in a group never exceed its number of records. */
  lemma {:induction false} HelpedAtMostGroupSize(rows: seq<Record>, keyOf: Record -> string, k: string)
    ensures SumWhere(rows, keyOf, HelpedWeight, k) <= Count(Keys(rows, keyOf), k)
  {
    if rows != [] {
      var p := rows[..|rows| - 1];
      var r := rows[|rows| - 1];
      HelpedAtMostGroupSize(p, keyOf, k);
      assert p + [r] == rows;
      KeysStep(p, r, keyOf);
      CountStep(Keys(p, keyOf), keyOf(r), k);
    }
  }

  /** Every breakdown of a group counts each of the group's records once. */
  predicate BreakdownAddsUp(b: Breakdown, n: nat) {
    && Sum(b.race, EntryCount) == n
    && Sum(b.income, EntryCount) == n
    && Sum(b.education, EntryCount) == n
    && Sum(b.employment, EntryCount) == n
  }

  lemma BreakdownOfAddsUp<K(!new)>(rows: seq<Record>, groupOf: Record -> K, g: K)
    ensures BreakdownAddsUp(BreakdownOf(rows, groupOf, g), Count(Keys(rows, groupOf), g))
  {
    LabelCountsAddUp(rows, groupOf, RaceLabel, g);
    LabelCountsAddUp(rows, groupOf, IncomeLabel, g);
    LabelCountsAddUp(rows, groupOf, EducationLabel, g);
    LabelCountsAddUp(rows, groupOf, EmploymentLabel, g);
  }

  /**
   * Each entry's four breakdowns add up to the number of records under its
   * key, which is at least one and at least the entry's people helped.
   */
  lemma DemographicsAddUp(rows: seq<Record>, keyOf: Record -> string, i: nat)
    requires i < |WithDemographics(rows, keyOf)|
    ensures var e := WithDemographics(rows, keyOf)[i];
      var n := Count(Keys(rows, keyOf), e.summary.key);
      && BreakdownAddsUp(e.demographics, n)
      && 0 < n
      && e.summary.peopleHelped <= n
  {
    var s := SummariesOf(rows, keyOf);
    SummariesMeaning(rows, keyOf);
    KeysAt(s, SummaryKey);
    assert s[i].key in Distinct(Keys(rows, keyOf));
    BreakdownOfAddsUp(rows, keyOf, s[i].key);
    HelpedAtMostGroupSize(rows, keyOf, s[i].key);
  }

  // ------------------------------------------------------------------ per-period tables

  /** `result[period] ?? []` */
  function SummariesAt(m: map<string, seq<Summary>>, p: string): seq<Summary> {
    if p in m then m[p] else []
  }

  /**
   * `groupZipPeriod` and `groupCountyPeriod`: one pass over the records that
   * fills `result[period][key]`.
   */
  function PeriodTable(rows: seq<Record>, periodOf: Record -> string, keyOf: Record -> string): map<string, seq<Summary>> {
    if rows == [] then map[]
    else
      var m := PeriodTable(rows[..|rows| - 1], periodOf, keyOf);
      var r := rows[|rows| - 1];
      m[periodOf(r) := AddRecord(SummariesAt(m, periodOf(r)), keyOf, r)]
  }

  function InPeriod(periodOf: Record -> string, p: string): Record -> bool {
    (r: Record) => periodOf(r) == p
  }

  lemma SummariesOfSnoc(f: seq<Record>, r: Record, keyOf: Record -> string)
    ensures SummariesOf(f + [r], keyOf) == AddRecord(SummariesOf(f, keyOf), keyOf, r)
  {
    assert (f + [r])[..|f|] == f;
  }

  lemma {:induction false} PeriodTableDomain(rows: seq<Record>, periodOf: Record -> string, keyOf: Record -> string, p: string)
    ensures p in PeriodTable(rows, periodOf, keyOf) <==> p in Keys(rows, periodOf)
  {
    if rows != [] {
      var q := rows[..|rows| - 1];
      var r := rows[|rows| - 1];
      PeriodTableDomain(q, periodOf, keyOf, p);
      assert q + [r] == rows;
      KeysStep(q, r, periodOf);
    }
  }

  lemma {:induction false} PeriodTableContents(rows: seq<Record>, periodOf: Record -> string, keyOf: Record -> string, p: string)
    ensures SummariesAt(PeriodTable(rows, periodOf, keyOf), p) == SummariesOf(Filter(rows, InPeriod(periodOf, p)), keyOf)
  {
    if rows != [] {
      var q := rows[..|rows| - 1];
      var r := rows[|rows| - 1];
      PeriodTableContents(q, periodOf, keyOf, p);
      assert q + [r] == rows;
      FilterStep(q, r, InPeriod(periodOf, p));
      if periodOf(r) == p {
        SummariesOfSnoc(Filter(q, InPeriod(periodOf, p)), r, keyOf);
      }
    }
  }

  /**
   * The one-pass nested table holds, for each period that occurs, exactly the
   * summary of that period's records.
   */
  lemma PeriodTableMeaning(rows: seq<Record>, periodOf: Record -> string, keyOf: Record -> string, p: string)
    ensures p in PeriodTable(rows, periodOf, keyOf) <==> p in Keys(rows, periodOf)
    ensures SummariesAt(PeriodTable(rows, periodOf, keyOf), p) == SummariesOf(Filter(rows, InPeriod(periodOf, p)), keyOf)
  {
    PeriodTableDomain(rows, periodOf, keyOf, p);
    PeriodTableContents(rows, periodOf, keyOf, p);
  }

  /** Within a period, the entries' people helped add up to that period's records with a case number. */
  lemma PeriodTotals(rows: seq<Record>, periodOf: Record -> string, keyOf: Record -> string, p: string)
    ensures Sum(SummariesAt(PeriodTable(rows, periodOf, keyOf), p), SummaryHelped)
      == |Filter(Filter(rows, InPeriod(periodOf, p)), Helped)|
  {
    PeriodTableMeaning(rows, periodOf, keyOf, p);
    GroupTotals(Filter(rows, InPeriod(periodOf, p)), keyOf);
  }

  /** The loop of `groupZipPeriod` and `groupCountyPeriod` that fills the nested summaries. */
  method GroupByPeriod(rows: seq<Record>, periodOf: Record -> string, keyOf: Record -> string)
    returns (result: map<string, seq<Summary>>)
    ensures result == PeriodTable(rows, periodOf, keyOf)
  {
    result := map[];
    for i := 0 to |rows|
      invariant result == PeriodTable(rows[..i], periodOf, keyOf)
    {
      var r := rows[i];
      var p := periodOf(r);
      ghost var before := result;
      if p !in result {
        result := result[p := []];
      }
      result := result[p := AddRecord(result[p], keyOf, r)];
      assert result == before[p := AddRecord(SummariesAt(before, p), keyOf, r)];
      assert rows[..i + 1][..i] == rows[..i];
    }
    assert rows[..|rows|] == rows;
  }

  /** The key of a record in the nested demographic counters: its period, then its ZIP or county. */
  function PairOf(periodOf: Record -> string, keyOf: Record -> string): Record -> (string, string) {
    (r: Record) => (periodOf(r), keyOf(r))
  }

  /**
   * The structured result: for each period, its entries in order, each with
   * the breakdowns counted under `demos[key][period][entry]`, `|| {}` when
   * there are none.
   */
  function PeriodDetails(rows: seq<Record>, periodOf: Record -> string, keyOf: Record -> string, p: string): (d: seq<Detailed>)
    ensures |d| == |SummariesAt(PeriodTable(rows, periodOf, keyOf), p)|
  {
    var s := SummariesAt(PeriodTable(rows, periodOf, keyOf), p);
    seq(|s|, i requires 0 <= i < |s| => Detailed(s[i], BreakdownOf(rows, PairOf(periodOf, keyOf), (p, s[i].key))))
  }

  /**
   * The breakdowns attached to an entry of a period add up to the number of
   * records of that period under the entry's key.
   */
  lemma PeriodDemographicsAddUp(rows: seq<Record>, periodOf: Record -> string, keyOf: Record -> string, p: string, i: nat)
    requires i < |PeriodDetails(rows, periodOf, keyOf, p)|
    ensures var e := PeriodDetails(rows, periodOf, keyOf, p)[i];
      BreakdownAddsUp(e.demographics, Count(Keys(rows, PairOf(periodOf, keyOf)), (p, e.summary.key)))
  {
    var s := SummariesAt(PeriodTable(rows, periodOf, keyOf), p);
    BreakdownOfAddsUp(rows, PairOf(periodOf, keyOf), (p, s[i].key));
  }
}
