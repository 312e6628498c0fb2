/**
 * Heatmap aggregation: the frequency table of accepted addresses, rounding of
 * coordinates to three decimals, and binning of geocoded points by rounded
 * cell with per-cell weight sums and an optional k-anonymity threshold.
 */
module Aggregate {
  import opened Wrappers
  import opened Tally
  import opened JsNum

  // ---------------------------------------------------------------------------
  // Frequency table of addresses (buildAddressCounts)
  // ---------------------------------------------------------------------------

  /**
   * A `Map<string, number>`: the keys in insertion order and the value
   * stored under each key.
   */
  datatype Counts = Counts(keys: seq<string>, count: map<string, int>)

  predicate NonEmpty(a: string) { a != "" }

  /** The addresses that the table records: every non-empty one. */
  function Recorded(addresses: seq<string>): seq<string> {
    Filter(addresses, NonEmpty)
  }

  /**
   * What the frequency table holds: one key per distinct non-empty address,
   * in order of first occurrence; its value is 1 under the cap and its number
   * of occurrences otherwise.
   */
  function AddressCounts(addresses: seq<string>, cap: bool): (c: Counts)
    ensures NoDuplicates(c.keys)
    ensures forall a :: a in c.count <==> a in c.keys
  {
    var keys := Distinct(Recorded(addresses));
    Counts(keys, map a | a in keys :: if cap then 1 else Count(Recorded(addresses), a))
  }

  /** `keys` and `m` are the `Map` filled from the non-empty addresses `recorded`. */
  ghost predicate Tabulates(keys: seq<string>, m: map<string, int>, recorded: seq<string>, cap: bool) {
    && keys == Distinct(recorded)
    && (forall b :: b in m <==> b in keys)
    && (forall b :: b in m ==> m[b] == if cap then 1 else Count(recorded, b))
  }

  /** The loop that fills a `Map` from the addresses, skipping empty ones. */
  method BuildAddressCounts(addresses: seq<string>, capPerAddressToOne: bool) returns (counts: Counts)
    ensures counts == AddressCounts(addresses, capPerAddressToOne)
  {
    var keys: seq<string> := [];
    var m: map<string, int> := map[];
    ghost var recorded: seq<string> := [];
    for i := 0 to |addresses|
      invariant recorded == Recorded(addresses[..i])
      invariant Tabulates(keys, m, recorded, capPerAddressToOne)
    {
      var a := addresses[i];
      assert addresses[..i + 1] == addresses[..i] + [a];
      FilterStep(addresses[..i], a, NonEmpty);
      if a == "" {
        continue;
      }
      keys, m := CountAddress(keys, m, a, capPerAddressToOne, recorded);
      recorded := recorded + [a];
    }
    assert addresses[..|addresses|] == addresses;
    TableIs(addresses, capPerAddressToOne, keys, m);
    counts := Counts(keys, m);
  }

  /** One address into the `Map`: `1` under the cap when new, otherwise the count so far plus one. */
  method CountAddress(keys: seq<string>, m: map<string, int>, a: string, cap: bool, ghost recorded: seq<string>)
    returns (keys': seq<string>, m': map<string, int>)
    requires Tabulates(keys, m, recorded, cap)
    ensures Tabulates(keys', m', recorded + [a], cap)
  {
    DistinctStep(recorded, a);
    CountAll(recorded, a);
    keys' := if a in m then keys else keys + [a];
    if cap {
      m' := if a in m then m else m[a := 1];
    } else {
      var prev := if a in m then m[a] else 0;
      m' := m[a := prev + 1];
    }
  }

  lemma CountAll(xs: seq<string>, a: string)
    ensures forall b :: Count(xs + [a], b) == Count(xs, b) + (if a == b then 1 else 0)
  {
    forall b
      ensures Count(xs + [a], b) == Count(xs, b) + (if a == b then 1 else 0)
    {
      CountStep(xs, a, b);
    }
  }

  lemma TableIs(addresses: seq<string>, cap: bool, keys: seq<string>, m: map<string, int>)
    requires Tabulates(keys, m, Recorded(addresses), cap)
    ensures Counts(keys, m) == AddressCounts(addresses, cap)
  {
    var c := AddressCounts(addresses, cap);
    assert forall a :: a in c.count ==> c.count[a] == m[a];
  }

  /** The values of a table added up over its keys. */
  function Total(c: Counts): int {
    TotalOver(c.keys, c.count)
  }

  function TotalOver(keys: seq<string>, count: map<string, int>): int {
    if keys == [] then 0
    else TotalOver(keys[..|keys| - 1], count) + (if keys[|keys| - 1] in count then count[keys[|keys| - 1]] else 0)
  }

  /** Empty strings never occur; the other addresses occur with their count. */
  lemma {:induction false} CountRecorded(addresses: seq<string>, a: string)
    requires a != ""
    ensures Count(Recorded(addresses), a) == Count(addresses, a)
  {
    if addresses != [] {
      var p := addresses[..|addresses| - 1];
      var x := addresses[|addresses| - 1];
      assert addresses == p + [x];
      FilterAppend(p, [x], NonEmpty);
      CountRecorded(p, a);
      var r := Recorded(p);
      if x != "" {
        assert (r + [x])[..|r|] == r;
      } else {
        assert Recorded(addresses) == r;
      }
    }
  }

  /** The empty string is never a key, and every other address is a key exactly when it occurs. */
  lemma KeysAreTheNonEmptyAddresses(addresses: seq<string>, cap: bool, a: string)
    ensures a in AddressCounts(addresses, cap).keys <==> a != "" && a in addresses
  {
  }

  /** Without the cap each key maps to its number of occurrences, which is at least 1. */
  lemma UncappedValueIsOccurrences(addresses: seq<string>, a: string)
    requires a in AddressCounts(addresses, false).keys
    ensures AddressCounts(addresses, false).count[a] == Count(addresses, a) >= 1
  {
    CountRecorded(addresses, a);
  }

  /** The cap changes the values but not the keys or their order. */
  lemma CapKeepsKeys(addresses: seq<string>)
    ensures AddressCounts(addresses, true).keys == AddressCounts(addresses, false).keys
    ensures forall a :: a in AddressCounts(addresses, true).keys ==> AddressCounts(addresses, true).count[a] == 1
  {
  }

  lemma {:induction false} TotalOverSumOfCounts(keys: seq<string>, count: map<string, int>, xs: seq<string>)
    requires forall a :: a in keys ==> a in count && count[a] == Count(xs, a)
    ensures TotalOver(keys, count) == SumOfCounts(keys, xs)
  {
    if keys != [] {
      var p := keys[..|keys| - 1];
      assert forall a :: a in p ==> a in keys;
      TotalOverSumOfCounts(p, count, xs);
      assert keys[|keys| - 1] in keys;
    }
  }

  /** Without the cap the counts add up to the number of non-empty addresses. */
  lemma UncappedTotal(addresses: seq<string>)
    ensures Total(AddressCounts(addresses, false)) == |Recorded(addresses)|
  {
    var c := AddressCounts(addresses, false);
    TotalOverSumOfCounts(c.keys, c.count, Recorded(addresses));
    CountsPartitionLength(Recorded(addresses));
  }

  lemma {:induction false} TotalOfOnes(keys: seq<string>, count: map<string, int>)
    requires forall a :: a in keys ==> a in count && count[a] == 1
    ensures TotalOver(keys, count) == |keys|
  {
    if keys != [] {
      TotalOfOnes(keys[..|keys| - 1], count);
    }
  }

  /** With the cap the values add up to the number of distinct addresses. */
  lemma CappedTotal(addresses: seq<string>)
    ensures Total(AddressCounts(addresses, true)) == |AddressCounts(addresses, true).keys|
  {
    var c := AddressCounts(addresses, true);
    TotalOfOnes(c.keys, c.count);
  }

  // ---------------------------------------------------------------------------
  // Rounding to three decimals (round3)
  // ---------------------------------------------------------------------------

  /** `Math.round(x * 1000)`: the coordinate in thousandths of a degree. */
  function Thousandths(x: real): int {
    Round(x * 1000.0)
  }

  /** `round3`: the nearest multiple of 0.001, halves going toward +∞. */
  function Round3(x: real): real {
    Thousandths(x) as real / 1000.0
  }

  /** The rounded value is within half a thousandth of the input. */
  lemma Round3Close(x: real)
    ensures x - 0.0005 < Round3(x) <= x + 0.0005
  {
    RoundBounds(x * 1000.0);
  }

  /** Rounding a rounded value changes nothing. */
  lemma Round3Idempotent(x: real)
    ensures Round3(Round3(x)) == Round3(x)
  {
    var n := Thousandths(x);
    assert Round3(x) * 1000.0 == n as real;
    RoundOfInteger(n);
  }

  lemma RoundOfInteger(n: int)
    ensures Round(n as real) == n
  {
  }

  /** An exact half rounds up, also below zero: -0.0005 becomes 0 and 0.0005 becomes 0.001. */
  lemma Round3TiesUp(n: int)
    ensures Round3(n as real / 1000.0 + 0.0005) == (n + 1) as real / 1000.0
  {
    assert (n as real / 1000.0 + 0.0005) * 1000.0 == n as real + 0.5;
  }

  // ---------------------------------------------------------------------------
  // Binning (binByRounded)
  // ---------------------------------------------------------------------------

  datatype Geocoded = Geocoded(lat: real, lon: real, count: int)
  datatype Bin = Bin(lat: real, lon: real, weight: int)

  /**
   * The cell of a point: its rounded longitude and latitude, in thousandths of
   * a degree. The source keys its `Map` by the string `lon,lat` of the two
   * rounded numbers; distinct finite numbers print differently and contain no
   * comma, so the pair identifies the same cell.
   */
  type Cell = (int, int)

  function CellOf(g: Geocoded): Cell {
    (Thousandths(g.lon), Thousandths(g.lat))
  }

  /** A whole number of thousandths, in degrees. */
  function Degrees(t: int): real {
    t as real / 1000.0
  }

  function Weight(g: Geocoded): int { g.count }

  /** The bin of one cell: its rounded coordinates and the counts of all its points summed. */
  function BinOf(c: Cell, gs: seq<Geocoded>): Bin {
    Bin(Degrees(c.1), Degrees(c.0), SumWhere(gs, CellOf, Weight, c))
  }

  function BinsOf(cells: seq<Cell>, gs: seq<Geocoded>): (bins: seq<Bin>)
    ensures |bins| == |cells|
    ensures forall i :: 0 <= i < |cells| ==> bins[i] == BinOf(cells[i], gs)
  {
    if cells == [] then [] else BinsOf(cells[..|cells| - 1], gs) + [BinOf(cells[|cells| - 1], gs)]
  }

  /** The merged bins: one per distinct cell, in order of the cell's first point. */
  function Merged(gs: seq<Geocoded>): seq<Bin> {
    BinsOf(Distinct(Keys(gs, CellOf)), gs)
  }

  /** Whether the threshold applies: `typeof requireK === "number" && requireK > 1`. */
  predicate Applies(requireK: Option<Num>) {
    requireK.Some? && Greater(requireK.value, 1.0)
  }

  /** The bins that survive the threshold. */
  function KFiltered(bins: seq<Bin>, requireK: Option<Num>): seq<Bin> {
    if Applies(requireK) then Filter(bins, (b: Bin) => AtLeast(b.weight as real, requireK.value)) else bins
  }

  /** The loop over the points updating a `Map` of bins in place, then the threshold. */
  method BinByRounded(geocoded: seq<Geocoded>, requireK: Option<Num>) returns (arr: seq<Bin>)
    ensures arr == KFiltered(Merged(geocoded), requireK)
  {
    var order: seq<Cell> := [];
    var bins: map<Cell, Bin> := map[];
    for i := 0 to |geocoded|
      invariant order == Distinct(Keys(geocoded[..i], CellOf))
      invariant bins == BinTable(geocoded[..i])
    {
      BinsLoopStep(geocoded, i, order, bins);
      order, bins := AddPoint(order, bins, geocoded[i]);
    }
    assert geocoded[..|geocoded|] == geocoded;
    OrderInTable(geocoded, order, bins);
    arr := Values(order, bins);
    ValuesInOrder(order, bins, geocoded, arr);
    arr := KFiltered(arr, requireK);
  }

  /** `Array.from(bins.values())`: the values in key insertion order. */
  method Values(order: seq<Cell>, bins: map<Cell, Bin>) returns (values: seq<Bin>)
    requires forall j :: 0 <= j < |order| ==> order[j] in bins
    ensures |values| == |order| && forall j :: 0 <= j < |order| ==> order[j] in bins && values[j] == bins[order[j]]
  {
    values := seq(|order|, j requires 0 <= j < |order| => bins[order[j]]);
  }

  /** One turn of the loop: the new key order and the new table. */
  lemma BinsLoopStep(gs: seq<Geocoded>, i: nat, order: seq<Cell>, bins: map<Cell, Bin>)
    requires i < |gs|
    requires order == Distinct(Keys(gs[..i], CellOf)) && bins == BinTable(gs[..i])
    ensures var k := CellOf(gs[i]);
      && Distinct(Keys(gs[..i + 1], CellOf)) == (if k in bins then order else order + [k])
      && BinTable(gs[..i + 1]) == AddToTable(bins, gs[i])
  {
    var g := gs[i];
    var k := CellOf(g);
    assert gs[..i + 1] == gs[..i] + [g];
    assert gs[..i + 1][..i] == gs[..i];
    KeysStep(gs[..i], g, CellOf);
    DistinctStep(Keys(gs[..i], CellOf), k);
    TableDomain(gs[..i], k);
  }

  /** The body of the loop: `bins.get(key)` updated in place, or a new bin set under a new key. */
  method AddPoint(order: seq<Cell>, bins: map<Cell, Bin>, g: Geocoded) returns (order': seq<Cell>, bins': map<Cell, Bin>)
    ensures order' == if CellOf(g) in bins then order else order + [CellOf(g)]
    ensures bins' == AddToTable(bins, g)
  {
    var k := CellOf(g);
    if k in bins {
      var prev := bins[k];
      order', bins' := order, bins[k := prev.(weight := prev.weight + g.count)];
    } else {
      order', bins' := order + [k], bins[k := Bin(Round3(g.lat), Round3(g.lon), g.count)];
    }
  }

  lemma OrderInTable(gs: seq<Geocoded>, order: seq<Cell>, bins: map<Cell, Bin>)
    requires order == Distinct(Keys(gs, CellOf)) && bins == BinTable(gs)
    ensures forall j :: 0 <= j < |order| ==> order[j] in bins
  {
    BinTableMeaning(gs);
  }

  /** One point into the `Map`: its cell's bin gains its count, or a new bin starts at its rounded position. */
  function AddToTable(bins: map<Cell, Bin>, g: Geocoded): map<Cell, Bin> {
    var k := CellOf(g);
    if k in bins then bins[k := bins[k].(weight := bins[k].weight + g.count)]
    else bins[k := Bin(Round3(g.lat), Round3(g.lon), g.count)]
  }

  /** The `Map` of bins after the points `gs`, one point at a time. */
  ghost function BinTable(gs: seq<Geocoded>): map<Cell, Bin> {
    if gs == [] then map[]
    else AddToTable(BinTable(gs[..|gs| - 1]), gs[|gs| - 1])
  }

  lemma TableDomain(gs: seq<Geocoded>, c: Cell)
    ensures c in BinTable(gs) <==> c in Distinct(Keys(gs, CellOf))
  {
    BinTableMeaning(gs);
  }

  /** The table holds one bin per cell of the points, with that cell's merged bin. */
  lemma {:induction false} BinTableMeaning(gs: seq<Geocoded>)
    ensures forall c :: c in BinTable(gs) <==> c in Keys(gs, CellOf)
    ensures forall c :: c in BinTable(gs) ==> BinTable(gs)[c] == BinOf(c, gs)
  {
    if gs != [] {
      var p := gs[..|gs| - 1];
      var g := gs[|gs| - 1];
      assert gs == p + [g];
      BinTableMeaning(p);
      KeysStep(p, g, CellOf);
      BinStep(p, g, BinTable(p));
    }
  }

  /** The values of the finished table in insertion order are the merged bins. */
  lemma ValuesInOrder(order: seq<Cell>, bins: map<Cell, Bin>, gs: seq<Geocoded>, values: seq<Bin>)
    requires order == Distinct(Keys(gs, CellOf)) && bins == BinTable(gs)
    requires |values| == |order| && forall j :: 0 <= j < |order| ==> order[j] in bins && values[j] == bins[order[j]]
    ensures values == Merged(gs)
  {
    BinTableMeaning(gs);
  }

  /** Adding one point to the bins of `gs`: its cell's bin gains its count, or a new bin starts. */
  lemma BinStep(gs: seq<Geocoded>, g: Geocoded, bins: map<Cell, Bin>)
    requires forall c :: c in bins <==> c in Keys(gs, CellOf)
    requires forall c :: c in bins ==> bins[c] == BinOf(c, gs)
    ensures var k := CellOf(g);
      var updated := if k in bins then bins[k := bins[k].(weight := bins[k].weight + g.count)]
                     else bins[k := Bin(Round3(g.lat), Round3(g.lon), g.count)];
      forall c :: c in updated ==> updated[c] == BinOf(c, gs + [g])
  {
    var k := CellOf(g);
    var updated := if k in bins then bins[k := bins[k].(weight := bins[k].weight + g.count)]
                   else bins[k := Bin(Round3(g.lat), Round3(g.lon), g.count)];
    forall c | c in updated
      ensures updated[c] == BinOf(c, gs + [g])
    {
      SumWhereStep(gs, g, CellOf, Weight, c);
      if c !in bins {
        SumWhereAbsent(gs, CellOf, Weight, c);
      }
    }
  }

  lemma DegreesInjective(a: int, b: int)
    ensures Degrees(a) == Degrees(b) <==> a == b
  {
  }

  /** At most one bin per rounded position. */
  lemma OneBinPerCell(gs: seq<Geocoded>)
    ensures forall i, j :: 0 <= i < j < |Merged(gs)| ==>
      Merged(gs)[i].lon != Merged(gs)[j].lon || Merged(gs)[i].lat != Merged(gs)[j].lat
  {
    var d := Distinct(Keys(gs, CellOf));
    forall i, j | 0 <= i < j < |d|
      ensures Merged(gs)[i].lon != Merged(gs)[j].lon || Merged(gs)[i].lat != Merged(gs)[j].lat
    {
      DegreesInjective(d[i].0, d[j].0);
      DegreesInjective(d[i].1, d[j].1);
    }
  }

  /**
   * Every bin sits at the rounded position of one of the points, so rounding
   * its coordinates again changes nothing.
   */
  lemma BinsAreRounded(gs: seq<Geocoded>, i: nat)
    requires i < |Merged(gs)|
    ensures exists j :: 0 <= j < |gs| && Round3(gs[j].lon) == Merged(gs)[i].lon && Round3(gs[j].lat) == Merged(gs)[i].lat
    ensures Round3(Merged(gs)[i].lon) == Merged(gs)[i].lon && Round3(Merged(gs)[i].lat) == Merged(gs)[i].lat
  {
    var c := Distinct(Keys(gs, CellOf))[i];
    assert Merged(gs)[i] == BinOf(c, gs);
    assert c in Keys(gs, CellOf);
    KeysAt(gs, CellOf);
    var j :| 0 <= j < |gs| && Keys(gs, CellOf)[j] == c;
    CellIsRounded(gs[j]);
  }

  /** The bin position of a point's cell is the point's rounded position, which rounding keeps. */
  lemma CellIsRounded(g: Geocoded)
    ensures Degrees(CellOf(g).0) == Round3(g.lon) && Degrees(CellOf(g).1) == Round3(g.lat)
    ensures Round3(Round3(g.lon)) == Round3(g.lon) && Round3(Round3(g.lat)) == Round3(g.lat)
  {
    Round3Idempotent(g.lon);
    Round3Idempotent(g.lat);
  }

  function BinWeight(b: Bin): int { b.weight }

  lemma {:induction false} BinsOfWeight(cells: seq<Cell>, gs: seq<Geocoded>)
    ensures Sum(BinsOf(cells, gs), BinWeight) == SumOfGroups(cells, gs, CellOf, Weight)
  {
    if cells != [] {
      var p := cells[..|cells| - 1];
      BinsOfWeight(p, gs);
      assert BinsOf(cells, gs)[..|cells| - 1] == BinsOf(p, gs);
    }
  }

  /** Merging keeps the total weight and never makes more bins than points. */
  lemma MergeKeepsWeight(gs: seq<Geocoded>)
    ensures Sum(Merged(gs), BinWeight) == Sum(gs, Weight)
    ensures |Merged(gs)| <= |gs|
  {
    BinsOfWeight(Distinct(Keys(gs, CellOf)), gs);
    GroupsPartitionSum(gs, CellOf, Weight);
  }

  /** Without an applicable threshold the merged bins are the result. */
  lemma NoThresholdKeepsAll(gs: seq<Geocoded>, requireK: Option<Num>)
    requires !Applies(requireK)
    ensures KFiltered(Merged(gs), requireK) == Merged(gs)
    ensures Sum(KFiltered(Merged(gs), requireK), BinWeight) == Sum(gs, Weight)
  {
    MergeKeepsWeight(gs);
  }

  /** The threshold applies exactly to a number above 1: a finite one or +∞, never NaN. */
  lemma AppliesExactly(requireK: Option<Num>)
    ensures Applies(requireK) <==> requireK == Some(PosInf) || (requireK.Some? && requireK.value.Fin? && requireK.value.value > 1.0)
  {
  }

  /** With k > 1 exactly the merged bins of weight at least k survive, unchanged. */
  lemma ThresholdDropsLightBins(gs: seq<Geocoded>, k: real, b: Bin)
    requires k > 1.0
    ensures b in KFiltered(Merged(gs), Some(Fin(k))) <==> b in Merged(gs) && b.weight as real >= k
  {
  }
}
