/**
 * The demographic charts: which entry of the published results feeds the
 * four charts for the current selection, how the overall view adds up the
 * per-ZIP breakdowns label by label, and the order of the income and
 * employment bars.
 */
module Charts {
  import opened Wrappers
  import opened JsText
  import opened JsParse
  import opened Tally
  import opened Sorting
  import opened Counter
  import Demographics
  import DemoGroups

  type Breakdown = DemoGroups.Breakdown

  /**
   * One entry of a published list. `key` is the field the list is searched
   * by (`County`, `ZipCode`, `Zip code`, `YearMonth` or `Year`), absent when
   * the entry lacks it; a missing breakdown reads as an empty one.
   */
  datatype Entry = Entry(
    key: Option<string>,
    race: Option<seq<LabelCount>>,
    income: Option<seq<LabelCount>>,
    education: Option<seq<LabelCount>>,
    employment: Option<seq<LabelCount>>)

  /**
   * The published results. A period table maps a month or year to its list;
   * a table or list missing from the results reads as empty, which is what
   * the optional chaining and `|| []` make of it.
   */
  datatype Results = Results(
    countyMonthly: map<string, seq<Entry>>,
    countyYearly: map<string, seq<Entry>>,
    countySummary: seq<Entry>,
    zipMonthly: map<string, seq<Entry>>,
    zipYearly: map<string, seq<Entry>>,
    zipSummary: seq<Entry>,
    monthlySummary: seq<Entry>,
    yearlySummary: seq<Entry>)

  datatype Category = Race | Income | Education | Employment

  const Empty: Breakdown := DemoGroups.Breakdown([], [], [], [])

  /** A selection that is set: present and not the empty string. */
  predicate Truthy(s: Option<string>) {
    s.Some? && s.value != []
  }

  /** `s?.toLowerCase().trim()`. */
  function Normalize(s: string): string {
    Trim(ToLower(s))
  }

  /** `table?.[time] || []`; an absent time is looked up under the key "undefined". */
  function Lookup(table: map<string, seq<Entry>>, time: Option<string>): seq<Entry> {
    var k := time.GetOr("undefined");
    if k in table then table[k] else []
  }

  /** How an entry is recognised: by normalised county name, or by exact equality of its key. */
  datatype Matcher = SameCounty(county: string) | SameKey(target: Option<string>)

  predicate Matches(m: Matcher, e: Entry) {
    match m
    case SameCounty(c) => e.key.Some? && Normalize(e.key.value) == Normalize(c)
    case SameKey(t) => e.key == t
  }

  /** `list.find(...)`: the index of the first matching entry, or `|xs|` when none matches. */
  function FindEntry(xs: seq<Entry>, m: Matcher): (i: nat)
    ensures i <= |xs|
    ensures i < |xs| ==> Matches(m, xs[i])
    ensures forall j :: 0 <= j < i ==> !Matches(m, xs[j])
  {
    if xs == [] then 0
    else if Matches(m, xs[0]) then 0
    else 1 + FindEntry(xs[1..], m)
  }

  /** Two matchers that agree on every entry find the same one. */
  lemma {:induction false} FindEntrySame(xs: seq<Entry>, m: Matcher, n: Matcher)
    requires forall e :: Matches(m, e) <==> Matches(n, e)
    ensures FindEntry(xs, m) == FindEntry(xs, n)
  {
    if xs != [] && !Matches(m, xs[0]) {
      FindEntrySame(xs[1..], m, n);
    }
  }

  function StatsOf(e: Entry): Breakdown {
    DemoGroups.Breakdown(e.race.GetOr([]), e.income.GetOr([]), e.education.GetOr([]), e.employment.GetOr([]))
  }

  /**
   * The list searched and how, for every selection but the overall
   * summary (None): a set county wins over a set ZIP code, and the
   * timeframe picks the monthly table, the yearly table or the summary.
   */
  function Query(data: Results, zip: Option<string>, county: Option<string>, timeframe: string, time: Option<string>)
    : Option<(seq<Entry>, Matcher)>
  {
    if Truthy(county) then
      var m := SameCounty(county.value);
      if timeframe == "monthly" then Some((Lookup(data.countyMonthly, time), m))
      else if timeframe == "yearly" then Some((Lookup(data.countyYearly, time), m))
      else Some((data.countySummary, m))
    else if Truthy(zip) then
      var m := SameKey(zip);
      if timeframe == "monthly" then Some((Lookup(data.zipMonthly, time), m))
      else if timeframe == "yearly" then Some((Lookup(data.zipYearly, time), m))
      else Some((data.zipSummary, m))
    else if timeframe == "monthly" then Some((data.monthlySummary, SameKey(time)))
    else if timeframe == "yearly" then Some((data.yearlySummary, SameKey(time)))
    else None
  }

  /** One category of an entry, `zip[field] || []`. */
  function CategoryOf(e: Entry, c: Category): seq<LabelCount> {
    match c
    case Race => e.race.GetOr([])
    case Income => e.income.GetOr([])
    case Education => e.education.GetOr([])
    case Employment => e.employment.GetOr([])
  }

  /** Every item of one category, entry after entry. */
  function ItemsOf(entries: seq<Entry>, c: Category): seq<LabelCount> {
    if entries == [] then []
    else ItemsOf(entries[..|entries| - 1], c) + CategoryOf(entries[|entries| - 1], c)
  }

  /** `countMap[label] = (countMap[label] || 0) + count` on the association list of entries. */
  function AddCount(ts: seq<LabelCount>, item: LabelCount): (r: seq<LabelCount>)
    ensures Sum(r, EntryCount) == Sum(ts, EntryCount) + item.count
  {
    var i := IndexOf(ts, item.name);
    if i < |ts| then
      SumUpdate(ts, i, LabelCount(item.name, ts[i].count + item.count), EntryCount);
      ts[i := LabelCount(item.name, ts[i].count + item.count)]
    else
      SumStep(ts, item, EntryCount);
      ts + [LabelCount(item.name, item.count)]
  }

  function AddAll(items: seq<LabelCount>): seq<LabelCount> {
    if items == [] then [] else AddCount(AddAll(items[..|items| - 1]), items[|items| - 1])
  }

  /** `aggregate(field)`: the items of every entry, added up by label. */
  function Aggregate(entries: seq<Entry>, c: Category): seq<LabelCount> {
    AddAll(ItemsOf(entries, c))
  }

  /**
   * The charts' data: the breakdowns of the first entry the selection
   * matches (empty when none does), or the overall aggregate when neither a
   * county nor a ZIP code is set and the timeframe is neither monthly nor
   * yearly.
   */
  function SelectStats(data: Results, zip: Option<string>, county: Option<string>, timeframe: string, time: Option<string>)
    : (r: Breakdown)
    ensures var q := Query(data, zip, county, timeframe, time);
      q.None? ==> r == DemoGroups.Breakdown(
        Aggregate(data.zipSummary, Race), Aggregate(data.zipSummary, Income),
        Aggregate(data.zipSummary, Education), Aggregate(data.zipSummary, Employment))
    ensures var q := Query(data, zip, county, timeframe, time);
      q.Some? && (forall e :: e in q.value.0 ==> !Matches(q.value.1, e)) ==> r == Empty
    ensures var q := Query(data, zip, county, timeframe, time);
      q.Some? && (exists e :: e in q.value.0 && Matches(q.value.1, e)) ==>
        exists i :: 0 <= i < |q.value.0| && Matches(q.value.1, q.value.0[i])
          && (forall j :: 0 <= j < i ==> !Matches(q.value.1, q.value.0[j]))
          && r == StatsOf(q.value.0[i])
  {
    var q := Query(data, zip, county, timeframe, time);
    if q.None? then
      DemoGroups.Breakdown(
        Aggregate(data.zipSummary, Race), Aggregate(data.zipSummary, Income),
        Aggregate(data.zipSummary, Education), Aggregate(data.zipSummary, Employment))
    else
      var i := FindEntry(q.value.0, q.value.1);
      if i < |q.value.0| then StatsOf(q.value.0[i]) else Empty
  }

  /** A set county takes precedence: the ZIP selection then has no effect. */
  lemma CountyTakesPrecedence(data: Results, zip: Option<string>, county: Option<string>, timeframe: string, time: Option<string>)
    requires Truthy(county)
    ensures SelectStats(data, zip, county, timeframe, time) == SelectStats(data, None, county, timeframe, time)
    ensures Query(data, zip, county, timeframe, time).value.1 == SameCounty(county.value)
  {
    assert Query(data, zip, county, timeframe, time) == Query(data, None, county, timeframe, time);
  }

  /** County names match whatever their letter case. */
  lemma CountyMatchIgnoresCase(data: Results, zip: Option<string>, c: string, timeframe: string, time: Option<string>)
    requires c != []
    ensures SelectStats(data, zip, Some(c), timeframe, time) == SelectStats(data, zip, Some(ToUpper(c)), timeframe, time)
  {
    LowerOfUpper(c);
    var q := Query(data, zip, Some(c), timeframe, time);
    var q' := Query(data, zip, Some(ToUpper(c)), timeframe, time);
    assert q.value.0 == q'.value.0;
    FindEntrySame(q.value.0, q.value.1, q'.value.1);
  }

  /** What the aggregate says about the items it added up. */
  predicate Aggregates(t: seq<LabelCount>, items: seq<LabelCount>) {
    && Keys(t, EntryLabel) == Distinct(Keys(items, EntryLabel))
    && (forall i :: 0 <= i < |t| ==> t[i].count == SumWhere(items, EntryLabel, EntryCount, t[i].name))
    && Sum(t, EntryCount) == Sum(items, EntryCount)
  }

  /** A label already counted keeps the labels as they are; a new one is appended. */
  lemma AddCountKeys(t: seq<LabelCount>, x: LabelCount)
    ensures Keys(AddCount(t, x), EntryLabel)
      == if x.name in Keys(t, EntryLabel) then Keys(t, EntryLabel) else Keys(t, EntryLabel) + [x.name]
  {
    KeysAt(t, EntryLabel);
    if IndexOf(t, x.name) < |t| {
      KeysPointwise(AddCount(t, x), t, EntryLabel);
    } else {
      assert x.name !in Keys(t, EntryLabel);
      KeysStep(t, LabelCount(x.name, x.count), EntryLabel);
    }
  }

  lemma AggregatesKeysStep(t: seq<LabelCount>, items: seq<LabelCount>, x: LabelCount)
    requires Keys(t, EntryLabel) == Distinct(Keys(items, EntryLabel))
    ensures Keys(AddCount(t, x), EntryLabel) == Distinct(Keys(items + [x], EntryLabel))
  {
    AddCountKeys(t, x);
    KeysStep(items, x, EntryLabel);
    DistinctStep(Keys(items, EntryLabel), x.name);
  }

  lemma AggregatesCountsStep(t: seq<LabelCount>, items: seq<LabelCount>, x: LabelCount)
    requires Keys(t, EntryLabel) == Distinct(Keys(items, EntryLabel))
    requires forall i :: 0 <= i < |t| ==> t[i].count == SumWhere(items, EntryLabel, EntryCount, t[i].name)
    ensures var t' := AddCount(t, x);
      forall i :: 0 <= i < |t'| ==> t'[i].count == SumWhere(items + [x], EntryLabel, EntryCount, t'[i].name)
  {
    forall y
      ensures SumWhere(items + [x], EntryLabel, EntryCount, y)
        == SumWhere(items, EntryLabel, EntryCount, y) + (if x.name == y then x.count else 0)
    {
      SumWhereStep(items, x, EntryLabel, EntryCount, y);
    }
    if IndexOf(t, x.name) < |t| {
      AddCountFound(t, items, x);
    } else {
      AddCountNew(t, items, x);
    }
  }

  /** A new label: the existing entries keep their sums and the new one holds the item's count. */
  lemma AddCountNew(t: seq<LabelCount>, items: seq<LabelCount>, x: LabelCount)
    requires Keys(t, EntryLabel) == Distinct(Keys(items, EntryLabel)) && IndexOf(t, x.name) == |t|
    requires forall i :: 0 <= i < |t| ==> t[i].count == SumWhere(items, EntryLabel, EntryCount, t[i].name)
    requires forall y :: (SumWhere(items + [x], EntryLabel, EntryCount, y)
        == SumWhere(items, EntryLabel, EntryCount, y) + (if x.name == y then x.count else 0))
    ensures var t' := AddCount(t, x);
      forall i :: 0 <= i < |t'| ==> t'[i].count == SumWhere(items + [x], EntryLabel, EntryCount, t'[i].name)
  {
    KeysAt(t, EntryLabel);
    assert x.name !in Distinct(Keys(items, EntryLabel));
    SumWhereAbsent(items, EntryLabel, EntryCount, x.name);
  }

  /** A label already present: only its entry moves, by the item's count. */
  lemma AddCountFound(t: seq<LabelCount>, items: seq<LabelCount>, x: LabelCount)
    requires NoDuplicates(Keys(t, EntryLabel)) && IndexOf(t, x.name) < |t|
    requires forall i :: 0 <= i < |t| ==> t[i].count == SumWhere(items, EntryLabel, EntryCount, t[i].name)
    requires forall y :: (SumWhere(items + [x], EntryLabel, EntryCount, y)
        == SumWhere(items, EntryLabel, EntryCount, y) + (if x.name == y then x.count else 0))
    ensures var t' := AddCount(t, x);
      forall i :: 0 <= i < |t'| ==> t'[i].count == SumWhere(items + [x], EntryLabel, EntryCount, t'[i].name)
  {
    var k := IndexOf(t, x.name);
    KeysAt(t, EntryLabel);
    forall j | 0 <= j < |t| && j != k
      ensures t[j].name != x.name
    {
      assert Keys(t, EntryLabel)[j] != Keys(t, EntryLabel)[k];
    }
  }

  lemma AggregatesStep(t: seq<LabelCount>, items: seq<LabelCount>, x: LabelCount)
    requires Aggregates(t, items)
    ensures Aggregates(AddCount(t, x), items + [x])
  {
    AggregatesKeysStep(t, items, x);
    AggregatesCountsStep(t, items, x);
    SumStep(items, x, EntryCount);
  }

  /**
   * The aggregate has one entry per distinct label, in order of first
   * occurrence; each entry's count is the sum of that label's counts over
   * all the items; and the grand total is kept.
   */
  lemma {:induction false} AddAllMeaning(items: seq<LabelCount>)
    ensures Aggregates(AddAll(items), items)
  {
    if items != [] {
      var p := items[..|items| - 1];
      assert items == p + [items[|items| - 1]];
      AddAllMeaning(p);
      AggregatesStep(AddAll(p), p, items[|items| - 1]);
    }
  }

  lemma AggregateMeaning(entries: seq<Entry>, c: Category)
    ensures Aggregates(Aggregate(entries, c), ItemsOf(entries, c))
  {
    AddAllMeaning(ItemsOf(entries, c));
  }

  lemma AddAllStep(items: seq<LabelCount>, x: LabelCount)
    ensures AddAll(items + [x]) == AddCount(AddAll(items), x)
  {
    assert (items + [x])[..|items|] == items;
  }

  lemma ItemsOfStep(entries: seq<Entry>, i: nat, c: Category)
    requires i < |entries|
    ensures ItemsOf(entries[..i + 1], c) == ItemsOf(entries[..i], c) + CategoryOf(entries[i], c)
  {
    assert entries[..i + 1][..i] == entries[..i];
  }

  lemma PrefixStep<T>(a: seq<T>, xs: seq<T>, j: nat)
    requires j < |xs|
    ensures a + xs[..j + 1] == (a + xs[..j]) + [xs[j]]
  {
    assert xs[..j + 1] == xs[..j] + [xs[j]];
  }

  /** The inner `forEach`: one entry's items added to the counts so far. */
  method AddItems(t: seq<LabelCount>, ghost before: seq<LabelCount>, items: seq<LabelCount>)
    returns (u: seq<LabelCount>)
    requires t == AddAll(before)
    ensures u == AddAll(before + items)
  {
    u := t;
    var j := 0;
    ghost var done := before;
    assert before + items[..0] == before;
    while j < |items|
      invariant 0 <= j <= |items|
      invariant done == before + items[..j]
      invariant u == AddAll(done)
    {
      AddAllStep(done, items[j]);
      PrefixStep(before, items, j);
      done := done + [items[j]];
      u := AddCount(u, items[j]);
      j := j + 1;
    }
    assert items[..|items|] == items;
  }

  /** `aggregate(field)` as the nested `forEach` computes it. */
  method AggregateCategory(entries: seq<Entry>, c: Category) returns (t: seq<LabelCount>)
    ensures t == Aggregate(entries, c)
  {
    t := [];
    var i := 0;
    while i < |entries|
      invariant 0 <= i <= |entries|
      invariant t == AddAll(ItemsOf(entries[..i], c))
    {
      ghost var done := ItemsOf(entries[..i], c);
      var items := CategoryOf(entries[i], c);
      t := AddItems(t, done, items);
      ItemsOfStep(entries, i, c);
      assert t == AddAll(ItemsOf(entries[..i + 1], c));
      i := i + 1;
    }
    assert entries[..|entries|] == entries;
  }

  /** Where an income label sorts: by its leading integer (0 without one); "Unknown" and "Total" last. */
  datatype Rank = At(n: nat) | Last

  function IncomeRank(name: string): (r: Rank)
    ensures name == "Unknown" || name == "Total" <==> r.Last?
  {
    if name == "Unknown" || name == "Total" then Last
    else
      var n := LeadingDigits(name);
      LeadingDigitsShape(name);
      At(DigitsValue(name[..n]))
  }

  /**
   * `getMinValue(a) - getMinValue(b) < 0`. "Unknown" ranks `Infinity - 1`,
   * which is `Infinity`, so it ties with "Total" (their difference is NaN,
   * which the sort treats as equal).
   */
  predicate RankLess(a: Rank, b: Rank) {
    a.At? && (b.Last? || a.n < b.n)
  }

  predicate IncomeLess(a: LabelCount, b: LabelCount) {
    RankLess(IncomeRank(a.name), IncomeRank(b.name))
  }

  /** Rows of equal rank are tied and no others, so the comparator is consistent. */
  lemma IncomeLessIsStrictOrder()
    ensures StrictWeakOrder(IncomeLess)
  {
  }

  lemma {:induction false} FilterSorted<T(!new)>(xs: seq<T>, lt: (T, T) -> bool, p: T -> bool)
    requires SortedBy(xs, lt)
    ensures SortedBy(Filter(xs, p), lt)
  {
    if xs != [] {
      var init := xs[..|xs| - 1];
      var x := xs[|xs| - 1];
      assert xs == init + [x];
      FilterSorted(init, lt, p);
      FilterStep(init, x, p);
      if p(x) {
        var f := Filter(init, p);
        forall i | 0 <= i < |f|
          ensures !lt(x, f[i])
        {
          assert f[i] in init;
        }
      }
    }
  }

  function NotTotal(e: LabelCount): bool { e.name != "Total" }

  /**
   * The income chart's bars: sorted by income rank (so every bin with a
   * number comes before "Unknown"), with the "Total" row removed and every
   * other row kept.
   */
  function IncomeChartData(data: seq<LabelCount>): (r: seq<LabelCount>)
    ensures SortedBy(r, IncomeLess)
    ensures multiset(r) == multiset(Filter(data, NotTotal))
    ensures forall e :: e in r <==> e in data && e.name != "Total"
    ensures forall i, j :: 0 <= i < j < |r| && r[i].name == "Unknown" ==> r[j].name == "Unknown"
  {
    IncomeLessIsStrictOrder();
    SortSorted(data, IncomeLess);
    FilterSorted(Sort(data, IncomeLess), IncomeLess, NotTotal);
    FilterSameElements(Sort(data, IncomeLess), data, NotTotal);
    Filter(Sort(data, IncomeLess), NotTotal)
  }

  /** The upload route's income bins rank in bin order, all before "Unknown". */
  lemma IncomeBinsInOrder(i: nat, j: nat)
    requires i < j < |Demographics.IncomeLabels|
    ensures RankLess(IncomeRank(Demographics.IncomeLabels[i]), IncomeRank(Demographics.IncomeLabels[j]))
    ensures RankLess(IncomeRank(Demographics.IncomeLabels[i]), Last)
  {
    BinRank(i);
    BinRank(j);
  }

  /** The rank of the `k`-th bin label of the upload route: the bin's lower bound in thousands, 25 per bin. */
  lemma BinRank(k: nat)
    requires k < |Demographics.IncomeLabels|
    ensures IncomeRank(Demographics.IncomeLabels[k]) == At(25 * k)
  {
    if k < 3 {
      LowerBinRank(k);
    } else {
      UpperBinRank(k);
    }
  }

  /** The first three bins. */
  lemma LowerBinRank(k: nat)
    requires 0 <= k < 3
    ensures IncomeRank(Demographics.IncomeLabels[k]) == At(25 * k)
  {
    var s := Demographics.IncomeLabels[k];
    if k == 0 {
      assert s == "0-25K";
      assert IncomeRank(s) == At(0) by {
        assert s[..1] == "0";
        assert DigitsValue("0") == 0;
        RankOf(s, 1, 0);
      }
    } else if k == 1 {
      assert s == "25K-50K";
      assert IncomeRank(s) == At(25) by {
        assert s[..2] == "25";
        assert "25"[..1] == "2" && DigitsValue("2") == 2;
        assert DigitsValue("25") == 25;
        RankOf(s, 2, 25);
      }
    } else if k == 2 {
      assert s == "50K-75K";
      assert IncomeRank(s) == At(50) by {
        assert s[..2] == "50";
        assert "50"[..1] == "5" && DigitsValue("5") == 5;
        assert DigitsValue("50") == 50;
        RankOf(s, 2, 50);
      }
    }
  }

  /** The last three bins. */
  lemma UpperBinRank(k: nat)
    requires 3 <= k < 6
    ensures IncomeRank(Demographics.IncomeLabels[k]) == At(25 * k)
  {
    if k == 3 {
      Rank75();
    } else if k == 4 {
      Rank100();
    } else {
      Rank125();
    }
  }

  lemma Rank75()
    ensures IncomeRank(Demographics.IncomeLabels[3]) == At(75)
  {
    var s := Demographics.IncomeLabels[3];
    assert s == "75K-100K";
    assert s[..2] == "75";
    assert "75"[..1] == "7" && DigitsValue("7") == 7;
    assert DigitsValue("75") == 75;
    RankOf(s, 2, 75);
  }

  lemma Rank100()
    ensures IncomeRank(Demographics.IncomeLabels[4]) == At(100)
  {
    var s := Demographics.IncomeLabels[4];
    assert s == "100K-125K";
    assert s[..3] == "100";
    assert "100"[..1] == "1" && DigitsValue("1") == 1;
    assert "100"[..2] == "10" && DigitsValue("10") == 10;
    assert DigitsValue("100") == 100;
    RankOf(s, 3, 100);
  }

  lemma Rank125()
    ensures IncomeRank(Demographics.IncomeLabels[5]) == At(125)
  {
    var s := Demographics.IncomeLabels[5];
    assert s == "125K+";
    assert s[..3] == "125";
    assert "125"[..1] == "1" && DigitsValue("1") == 1;
    assert "125"[..2] == "12" && DigitsValue("12") == 12;
    assert DigitsValue("125") == 125;
    RankOf(s, 3, 125);
  }

  lemma RankOf(name: string, k: nat, n: nat)
    requires k < |name| && name != "Unknown" && name != "Total"
    requires forall i :: 0 <= i < k ==> IsDigit(name[i])
    requires !IsDigit(name[k])
    requires DigitsValue(name[..k]) == n
    ensures IncomeRank(name) == At(n)
  {
    LeadingDigitsOfConcat(name[..k], name[k..]);
    assert name[..k] + name[k..] == name;
  }

  predicate MoreFirst(a: LabelCount, b: LabelCount) {
    a.count > b.count
  }

  /** The employment chart's bars: every row, largest count first. */
  function EmploymentChartData(data: seq<LabelCount>): (r: seq<LabelCount>)
    ensures multiset(r) == multiset(data)
    ensures forall i, j :: 0 <= i < j < |r| ==> r[i].count >= r[j].count
  {
    SortSorted(data, MoreFirst);
    Sort(data, MoreFirst)
  }
}
