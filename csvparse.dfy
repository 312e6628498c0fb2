/**
 * The clean-up `parseCSV` applies to the rows the CSV tokeniser returns: every
 * string value is trimmed, every other value becomes undefined, and rows left
 * without a non-empty value are dropped.
 */
module CsvParse {
  import opened Wrappers
  import opened JsText
  import opened Tally
  import AddressFilter

  /** A cell as the tokeniser delivers it: a string, or anything else (undefined, an array of extra fields). */
  datatype Cell = Text(s: string) | NonText

  /** A tokenised row: its `Object.keys` in order, each with its cell. */
  type ParsedRow = seq<(string, Cell)>

  /** The tokeniser's result: the rows and the errors it reports. */
  datatype Parsed = Parsed(data: seq<ParsedRow>, errors: seq<string>)

  type RawRow = AddressFilter.RawRow

  /** `typeof v === "string" ? v.trim() : undefined` */
  function CleanCell(c: Cell): Option<string> {
    match c
    case Text(s) => Some(Trim(s))
    case NonText => None
  }

  /** The row `parseCSV` builds from a tokenised row. */
  function Cleaned(row: ParsedRow): (r: RawRow)
    ensures |r| == |row|
  {
    seq(|row|, j requires 0 <= j < |row| => (row[j].0, CleanCell(row[j].1)))
  }

  /** `Object.values(row).some(v => v && v.length > 0)` */
  predicate HasValue(row: RawRow) {
    exists j :: 0 <= j < |row| && row[j].1.Some? && row[j].1.value != ""
  }

  function CleanedRows(data: seq<ParsedRow>): (rows: seq<RawRow>)
    ensures |rows| == |data|
  {
    seq(|data|, i requires 0 <= i < |data| => Cleaned(data[i]))
  }

  /** What `parseCSV` returns for the tokenised rows. */
  function ParsedRows(data: seq<ParsedRow>): seq<RawRow> {
    Filter(CleanedRows(data), HasValue)
  }

  /** The inner loop of `parseCSV`: fill `out` key by key. */
  method CleanRow(row: ParsedRow) returns (out: RawRow)
    ensures out == Cleaned(row)
  {
    out := [];
    for i := 0 to |row|
      invariant |out| == i
      invariant forall j :: 0 <= j < i ==> out[j] == (row[j].0, CleanCell(row[j].1))
    {
      var (k, v) := row[i];
      var cell := if v.Text? then Some(Trim(v.s)) else None;
      out := out + [(k, cell)];
    }
  }

  /** `parseCSV` after tokenising: clean each row, then keep the rows with a value. Errors are not consulted. */
  method ParseCsv(parsed: Parsed) returns (rows: seq<RawRow>)
    ensures rows == ParsedRows(parsed.data)
  {
    var data := parsed.data;
    var cleaned: seq<RawRow> := [];
    for i := 0 to |data|
      invariant |cleaned| == i
      invariant forall j :: 0 <= j < i ==> cleaned[j] == Cleaned(data[j])
    {
      var out := CleanRow(data[i]);
      cleaned := cleaned + [out];
    }
    assert cleaned == CleanedRows(data);
    rows := Filter(cleaned, HasValue);
  }

  /**
   * A cleaned row has the parsed row's keys in the same order; each value is
   * the trimmed string when the cell was a string and undefined otherwise.
   */
  lemma CleanedEntry(row: ParsedRow, j: nat)
    requires j < |row|
    ensures Cleaned(row)[j].0 == row[j].0
    ensures Cleaned(row)[j].1.Some? <==> row[j].1.Text?
    ensures Cleaned(row)[j].1.Some? ==> IsTrimmed(Cleaned(row)[j].1.value)
    ensures Cleaned(row)[j].1.Some? ==> Cleaned(row)[j].1.value == Trim(row[j].1.s)
  {
    if row[j].1.Text? {
      TrimIsTrimmed(row[j].1.s);
    }
  }

  /** A row all of whose cells are non-strings or blank after trimming is dropped. */
  lemma BlankRowDropped(row: ParsedRow)
    requires forall j :: 0 <= j < |row| ==> row[j].1.NonText? || Trim(row[j].1.s) == ""
    ensures !HasValue(Cleaned(row))
  {
  }

  /** A row with a cell that is non-blank after trimming is kept. */
  lemma RowWithTextKept(row: ParsedRow, j: nat)
    requires j < |row| && row[j].1.Text? && Trim(row[j].1.s) != ""
    ensures HasValue(Cleaned(row))
  {
    assert Cleaned(row)[j].1 == Some(Trim(row[j].1.s));
  }

  /** Exactly the cleaned rows with a value survive, and every survivor has one. */
  lemma KeptExactly(data: seq<ParsedRow>, r: RawRow)
    ensures r in ParsedRows(data) <==> (exists i :: 0 <= i < |data| && Cleaned(data[i]) == r) && HasValue(r)
  {
    var cleaned := CleanedRows(data);
    if r in cleaned {
      var i :| 0 <= i < |cleaned| && cleaned[i] == r;
      assert Cleaned(data[i]) == r;
    }
    if exists i :: 0 <= i < |data| && Cleaned(data[i]) == r {
      var i :| 0 <= i < |data| && Cleaned(data[i]) == r;
      assert cleaned[i] == r;
    }
  }

  /** Rows are handled independently, so the survivors keep their relative order. */
  lemma OrderKept(a: seq<ParsedRow>, b: seq<ParsedRow>)
    ensures ParsedRows(a + b) == ParsedRows(a) + ParsedRows(b)
  {
    assert CleanedRows(a + b) == CleanedRows(a) + CleanedRows(b);
    FilterAppend(CleanedRows(a), CleanedRows(b), HasValue);
  }

  /** Every tokenised row is either kept or dropped. */
  lemma KeptPlusDropped(data: seq<ParsedRow>)
    ensures |ParsedRows(data)| + |Filter(CleanedRows(data), (r: RawRow) => !HasValue(r))| == |data|
  {
    FilterPartition(CleanedRows(data), HasValue, (r: RawRow) => !HasValue(r));
  }
}
