/**
 * The dry-run upload endpoint: parse the CSV, run every row through the address
 * filter, count the accepted addresses and report a summary with the 100 most
 * frequent addresses, without contacting the geocoder.
 */
module DryRun {
  import opened Wrappers
  import opened Tally
  import opened Sorting
  import opened Aggregate
  import opened AddressFilter
  import CsvParse

  /** The `file` field of the posted form, or the failure that made reading the form throw. */
  datatype Upload =
    | NoFile
    | NotAFile
    | File(name: string, content: CsvParse.Parsed)
    | Unreadable(message: Option<string>)

  datatype SampleEntry = SampleEntry(address: string, count: int)

  datatype Summary = Summary(
    filename: string,
    totalRows: int,
    keptRows: int,
    droppedRows: int,
    duplicateRows: int,
    uniqueToSend: int,
    sample: seq<SampleEntry>)

  datatype Response = BadRequest(error: string) | Done(summary: Summary) | ServerError(error: string) {
    function Status(): int {
      match this
      case BadRequest(_) => 400
      case Done(_) => 200
      case ServerError(_) => 500
    }
  }

  const NoCsvUploaded: string := "No CSV uploaded"
  const DryRunFailed: string := "Dry-run failed"
  const SampleSize: nat := 100

  // ------------------------------------------------------------------ specification

  /** The accepted addresses of `rows`, in row order. */
  function KeptAddresses(rows: seq<RawRow>): seq<string> {
    if rows == [] then []
    else
      var r := FilterAndFormat(rows[|rows| - 1]);
      KeptAddresses(rows[..|rows| - 1]) + (if r.Accepted? then [r.address] else [])
  }

  /** How many of `rows` the filter rejects. */
  function DroppedRows(rows: seq<RawRow>): int {
    if rows == [] then 0
    else DroppedRows(rows[..|rows| - 1]) + (if FilterAndFormat(rows[|rows| - 1]).Accepted? then 0 else 1)
  }

  /** The comparator of the sample: higher count first, then the address in ascending order. */
  predicate Before(x: SampleEntry, y: SampleEntry) {
    x.count > y.count || (x.count == y.count && StringLess(x.address, y.address))
  }

  /** `Array.from(counts.entries())` */
  function Entries(c: Counts): (es: seq<SampleEntry>)
    requires forall a :: a in c.keys ==> a in c.count
    ensures |es| == |c.keys|
  {
    seq(|c.keys|, j requires 0 <= j < |c.keys| => SampleEntry(c.keys[j], c.count[c.keys[j]]))
  }

  function SampleOf(c: Counts): seq<SampleEntry>
    requires forall a :: a in c.keys ==> a in c.count
  {
    Take(Sort(Entries(c), Before), SampleSize)
  }

  /** The summary the endpoint reports for the parsed rows. */
  function SummaryOf(filename: string, rows: seq<RawRow>): Summary {
    var kept := KeptAddresses(rows);
    var counts := AddressCounts(kept, false);
    Summary(filename, |rows|, |kept|, DroppedRows(rows), |kept| - |counts.keys|, |counts.keys|, SampleOf(counts))
  }

  // ------------------------------------------------------------------ the endpoint

  /** The POST handler of the dry run. */
  method DryRunPost(upload: Upload) returns (resp: Response)
    ensures upload.NoFile? || upload.NotAFile? ==> resp == BadRequest(NoCsvUploaded)
    ensures upload.Unreadable? ==> resp == ServerError(upload.message.GetOr(DryRunFailed))
    ensures upload.File? ==> resp == Done(SummaryOf(upload.name, CsvParse.ParsedRows(upload.content.data)))
  {
    match upload
    case Unreadable(message) =>
      return ServerError(message.GetOr(DryRunFailed));
    case NoFile =>
      return BadRequest(NoCsvUploaded);
    case NotAFile =>
      return BadRequest(NoCsvUploaded);
    case File(name, content) =>
      var rows := CsvParse.ParseCsv(content);
      var summary := Summarize(name, rows);
      return Done(summary);
  }

  /** Everything the handler does after parsing: filter, count, sample. */
  method Summarize(filename: string, rows: seq<RawRow>) returns (summary: Summary)
    ensures summary == SummaryOf(filename, rows)
  {
    var kept, dropped := FilterRows(rows);
    var counts := BuildAddressCounts(kept, false);
    var uniqueToSend := |counts.keys|;
    var duplicateRows := |kept| - uniqueToSend;
    var sample := Take(Sort(Entries(counts), Before), SampleSize);
    summary := Summary(filename, |rows|, |kept|, dropped, duplicateRows, uniqueToSend, sample);
  }

  /** The row loop: push each accepted address onto `kept`, count the others. */
  method FilterRows(rows: seq<RawRow>) returns (kept: seq<string>, dropped: int)
    ensures kept == KeptAddresses(rows)
    ensures dropped == DroppedRows(rows)
  {
    kept := [];
    dropped := 0;
    for i := 0 to |rows|
      invariant kept == KeptAddresses(rows[..i])
      invariant dropped == DroppedRows(rows[..i])
    {
      assert rows[..i + 1][..i] == rows[..i];
      var res := FilterAndFormat(rows[i]);
      if res.Accepted? {
        kept := kept + [res.address];
      } else {
        dropped := dropped + 1;
      }
    }
    assert rows[..|rows|] == rows;
  }

  // ------------------------------------------------------------------ properties

  /** Every parsed row is either kept or dropped. */
  lemma {:induction false} RowsAccountedFor(rows: seq<RawRow>)
    ensures |KeptAddresses(rows)| + DroppedRows(rows) == |rows|
    ensures DroppedRows(rows) >= 0
  {
    if rows != [] {
      RowsAccountedFor(rows[..|rows| - 1]);
    }
  }

  /** An accepted address is never empty, so the frequency table records every kept address. */
  lemma {:induction false} KeptAreNonEmpty(rows: seq<RawRow>)
    ensures forall i :: 0 <= i < |KeptAddresses(rows)| ==> KeptAddresses(rows)[i] != ""
  {
    if rows != [] {
      KeptAreNonEmpty(rows[..|rows| - 1]);
      AcceptedAddressShape(rows[|rows| - 1]);
    }
  }

  lemma {:induction false} FilterKeepsAll<T(!new)>(xs: seq<T>, p: T -> bool)
    requires forall i :: 0 <= i < |xs| ==> p(xs[i])
    ensures Filter(xs, p) == xs
  {
    if xs != [] {
      FilterKeepsAll(xs[..|xs| - 1], p);
    }
  }

  /**
   * The summary's arithmetic: kept + dropped = total, uniqueToSend is the number
   * of distinct kept addresses, and duplicateRows = kept - unique is never negative.
   */
  lemma SummaryCounts(filename: string, rows: seq<RawRow>)
    ensures var s := SummaryOf(filename, rows);
      && s.keptRows + s.droppedRows == s.totalRows == |rows|
      && s.uniqueToSend == |Distinct(KeptAddresses(rows))|
      && s.duplicateRows == s.keptRows - s.uniqueToSend >= 0
  {
    RowsAccountedFor(rows);
    var kept := KeptAddresses(rows);
    KeptAreNonEmpty(rows);
    FilterKeepsAll(kept, NonEmpty);
  }

  /** The comparator is consistent (only equal entries tie), so the stable sort produces an ordered list. */
  lemma BeforeIsStrictOrder()
    ensures StrictWeakOrder(Before)
  {
    forall a: SampleEntry
      ensures !Before(a, a)
    {
      StringLessIrreflexive(a.address);
    }
    forall a: SampleEntry, b: SampleEntry, c: SampleEntry | Before(a, b) && Before(b, c)
      ensures Before(a, c)
    {
      if a.count == b.count == c.count {
        StringLessTransitive(a.address, b.address, c.address);
      }
    }
    forall a: SampleEntry, b: SampleEntry | Tied(Before, a, b)
      ensures a == b
    {
      StringLessTotal(a.address, b.address);
    }
  }

  /** The sample has at most 100 entries, and each is a kept address paired with how often it was kept. */
  lemma SampleEntriesCounted(filename: string, rows: seq<RawRow>, e: SampleEntry)
    requires e in SummaryOf(filename, rows).sample
    ensures |SummaryOf(filename, rows).sample| <= SampleSize
    ensures e.address in KeptAddresses(rows)
    ensures e.count == Count(KeptAddresses(rows), e.address) >= 1
  {
    var kept := KeptAddresses(rows);
    var c := AddressCounts(kept, false);
    var es := Entries(c);
    var sorted := Sort(es, Before);
    assert e in sorted;
    assert e in multiset(sorted);
    assert e in es;
    var j :| 0 <= j < |es| && es[j] == e;
    assert e.address == c.keys[j];
    KeysAreTheNonEmptyAddresses(kept, false, e.address);
    UncappedValueIsOccurrences(kept, e.address);
  }

  /** The sample runs from the highest count down, equal counts in ascending address order. */
  lemma SampleOrdered(filename: string, rows: seq<RawRow>, i: nat, j: nat)
    requires i < j < |SummaryOf(filename, rows).sample|
    ensures var s := SummaryOf(filename, rows).sample;
      && s[i].count >= s[j].count
      && (s[i].count == s[j].count ==> !StringLess(s[j].address, s[i].address))
  {
    var c := AddressCounts(KeptAddresses(rows), false);
    BeforeIsStrictOrder();
    SortSorted(Entries(c), Before);
    var sorted := Sort(Entries(c), Before);
    assert !Before(sorted[j], sorted[i]);
  }

  /** In a sorted sequence, nothing past the first `SampleSize` comes before anything in them. */
  lemma SortedPrefixIsTop(sorted: seq<SampleEntry>, e: SampleEntry, s: SampleEntry)
    requires SortedBy(sorted, Before)
    requires e in sorted && e !in Take(sorted, SampleSize) && s in Take(sorted, SampleSize)
    ensures !Before(e, s)
  {
    var k :| 0 <= k < |sorted| && sorted[k] == e;
    var sample := Take(sorted, SampleSize);
    var i :| 0 <= i < |sample| && sample[i] == s;
    assert sorted[i] == s;
    assert k >= |sample|;
  }

  /** No entry left out of the sample comes before an entry in it: the sample is the top of the order. */
  lemma SampleIsTop(filename: string, rows: seq<RawRow>, e: SampleEntry, s: SampleEntry)
    requires var c := AddressCounts(KeptAddresses(rows), false); e in Entries(c)
    requires e !in SummaryOf(filename, rows).sample
    requires s in SummaryOf(filename, rows).sample
    ensures !Before(e, s)
  {
    var c := AddressCounts(KeptAddresses(rows), false);
    var es := Entries(c);
    assert SummaryOf(filename, rows).sample == Take(Sort(es, Before), SampleSize);
    BeforeIsStrictOrder();
    SortSorted(es, Before);
    assert e in multiset(es);
    SortedPrefixIsTop(Sort(es, Before), e, s);
  }
}
