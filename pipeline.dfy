/**
 * The full heatmap endpoint: decode the query options, parse and filter the CSV,
 * count the addresses, geocode each distinct one, merge the positions with the
 * counts (dropping the addresses), bin, emit GeoJSON, store it under a
 * timestamped name and report a few numbers.
 */
module Pipeline {
  import opened Wrappers
  import opened JsNum
  import opened Tally
  import opened Aggregate
  import opened AddressFilter
  import opened LocationIq
  import opened GeoJson
  import CsvParse
  import DryRun

  /** The decoded query string: its parameters in order. */
  type Query = seq<(string, string)>

  /** `searchParams.get(name)`: the first value given for `name`, or null. */
  function Get(q: Query, name: string): (v: Option<string>)
    ensures v.Some? ==> (name, v.value) in q
  {
    if q == [] then None
    else if q[0].0 == name then Some(q[0].1)
    else Get(q[1..], name)
  }

  datatype Options = Options(cap: bool, rps: Num, kNum: Option<Num>)

  /**
   * The request's surroundings: the LocationIQ key, the service's answer per
   * address, the current time as `toISOString` prints it, whether writing the
   * GeoJSON file throws (and with which message), and JavaScript's `Number(text)`
   * and number-to-text conversions.
   */
  datatype Env = Env(
    apiKey: Option<string>,
    respond: string -> FetchOutcome,
    now: string,
    writeFailure: Option<Option<string>>,
    number: string -> Num,
    show: Num -> string)

  datatype Report = Report(
    filename: string,
    uniqueAddresses: int,
    geocoded: int,
    bins: int,
    kAnonymity: Option<Num>,
    geojsonUrl: string)

  datatype Outcome = BadRequest(error: string) | Done(report: Report) | ServerError(error: string)

  const NoCsvUploaded: string := "No CSV uploaded"
  const PipelineFailed: string := "Pipeline failed"
  const DefaultRps: string := "2"

  /** `cap === "1"`, `Number(rps || "2")`, `k ? Number(k) : undefined` */
  function DecodeOptions(q: Query, number: string -> Num): Options {
    var rps := Get(q, "rps");
    var k := Get(q, "k");
    Options(
      Get(q, "cap") == Some("1"),
      number(if rps.None? || rps.value == "" then DefaultRps else rps.value),
      if k.None? || k.value == "" then None else Some(number(k.value)))
  }

  /** The cap is on only for `cap=1`; an absent or empty rps means 2; an absent or empty k means no threshold. */
  lemma OptionDefaults(q: Query, number: string -> Num)
    ensures DecodeOptions(q, number).cap <==> Get(q, "cap") == Some("1")
    ensures Get(q, "rps") in {None, Some("")} ==> DecodeOptions(q, number).rps == number("2")
    ensures DecodeOptions(q, number).kNum.None? <==> Get(q, "k") in {None, Some("")}
    ensures Get(q, "cap") == None ==> !DecodeOptions(q, number).cap
  {
  }

  /** The first value of a repeated parameter is the one that counts. */
  lemma FirstValueWins(q: Query, name: string, v: string, w: string)
    requires Get(q, name) == None
    ensures Get(q + [(name, v), (name, w)], name) == Some(v)
  {
    GetAfterMiss(q, [(name, v), (name, w)], name);
  }

  lemma {:induction false} GetAfterMiss(q: Query, r: Query, name: string)
    requires Get(q, name) == None
    ensures Get(q + r, name) == Get(r, name)
  {
    if q == [] {
      assert q + r == r;
    } else {
      assert (q + r)[0] == q[0] && (q + r)[1..] == q[1..] + r;
      GetAfterMiss(q[1..], r, name);
    }
  }

  // ------------------------------------------------------------------ merge

  /** The answer the service gave for an address, as `geocodeOne` resolves it. */
  function Lookup(env: Env, a: string): Option<LatLon> {
    Resolve(env.respond(a))
  }

  /** The merged points: one per key, in key order, whose geocode is not null, carrying its count. */
  function Merge(keys: seq<string>, count: map<string, int>, env: Env): seq<Geocoded>
    requires forall a :: a in keys ==> a in count
  {
    if keys == [] then []
    else
      var a := keys[|keys| - 1];
      var ll := Lookup(env, a);
      Merge(keys[..|keys| - 1], count, env) + (if ll.Some? then [Geocoded(ll.value.lat, ll.value.lon, count[a])] else [])
  }

  /** The keys whose geocode succeeded, in key order. */
  function Found(keys: seq<string>, env: Env): (f: seq<string>)
    ensures |f| <= |keys|
  {
    if keys == [] then []
    else Found(keys[..|keys| - 1], env) + (if Lookup(env, keys[|keys| - 1]).Some? then [keys[|keys| - 1]] else [])
  }

  /** The merge loop: look each counted address up and keep position and count, not the address. */
  method MergeGeocodes(counts: Counts, geocodedMap: Geocodes, ghost env: Env) returns (merged: seq<Geocoded>)
    requires forall a :: a in counts.keys ==> a in counts.count
    requires forall a :: a in counts.keys ==> a in geocodedMap.at && geocodedMap.at[a] == Lookup(env, a)
    ensures merged == Merge(counts.keys, counts.count, env)
  {
    var keys := counts.keys;
    merged := [];
    for i := 0 to |keys|
      invariant merged == Merge(keys[..i], counts.count, env)
    {
      var addr := keys[i];
      assert keys[..i + 1][..i] == keys[..i];
      if addr !in geocodedMap.at || geocodedMap.at[addr].None? {
        continue;
      }
      var ll := geocodedMap.at[addr].value;
      merged := merged + [Geocoded(ll.lat, ll.lon, counts.count[addr])];
    }
    assert keys[..|keys|] == keys;
  }

  /**
   * Failed geocodes are skipped and nothing else is: the merged points are the
   * successful keys' positions with their counts, so there are at most as many
   * points as distinct addresses.
   */
  lemma {:induction false} MergeIsFoundPoints(keys: seq<string>, count: map<string, int>, env: Env)
    requires forall a :: a in keys ==> a in count
    ensures |Merge(keys, count, env)| == |Found(keys, env)| <= |keys|
    ensures forall i :: 0 <= i < |Found(keys, env)| ==>
      var a := Found(keys, env)[i];
      && a in keys && Lookup(env, a).Some?
      && Merge(keys, count, env)[i] == Geocoded(Lookup(env, a).value.lat, Lookup(env, a).value.lon, count[a])
  {
    if keys != [] {
      var p := keys[..|keys| - 1];
      assert forall a :: a in p ==> a in keys;
      MergeIsFoundPoints(p, count, env);
    }
  }

  /** A key is among the found ones exactly when its geocode succeeded. */
  lemma {:induction false} FoundExactly(keys: seq<string>, env: Env, a: string)
    ensures a in Found(keys, env) <==> a in keys && Lookup(env, a).Some?
  {
    if keys != [] {
      var p := keys[..|keys| - 1];
      FoundExactly(p, env, a);
      assert keys == p + [keys[|keys| - 1]];
    }
  }

  // ------------------------------------------------------------------ file name

  /** `toISOString().replace(/[:.]/g, "-")` */
  function Stamp(iso: string): (s: string)
    ensures |s| == |iso|
  {
    seq(|iso|, i requires 0 <= i < |iso| => if iso[i] == ':' || iso[i] == '.' then '-' else iso[i])
  }

  /** The stamp has no colon or dot left; every other character is the timestamp's own. */
  lemma StampSafe(iso: string)
    ensures forall i :: 0 <= i < |iso| ==> Stamp(iso)[i] != ':' && Stamp(iso)[i] != '.'
    ensures forall i :: 0 <= i < |iso| && iso[i] != ':' && iso[i] != '.' ==> Stamp(iso)[i] == iso[i]
  {
  }

  /** `heatmap-${stamp}-k${kNum ?? 0}-r${rps}-cap${cap ? 1 : 0}.geojson` */
  function FileName(now: string, o: Options, show: Num -> string): string {
    "heatmap-" + Stamp(now) + "-k" + show(o.kNum.GetOr(Fin(0.0))) + "-r" + show(o.rps)
      + "-cap" + (if o.cap then "1" else "0") + ".geojson"
  }

  // ------------------------------------------------------------------ the endpoint

  /** The loop that collects the accepted addresses, in row order. */
  method CollectCleaned(rows: seq<RawRow>) returns (cleaned: seq<string>)
    ensures cleaned == DryRun.KeptAddresses(rows)
  {
    cleaned := [];
    for i := 0 to |rows|
      invariant cleaned == DryRun.KeptAddresses(rows[..i])
    {
      assert rows[..i + 1][..i] == rows[..i];
      var res := FilterAndFormat(rows[i]);
      if res.Accepted? {
        cleaned := cleaned + [res.address];
      }
    }
    assert rows[..|rows|] == rows;
  }

  /** The distinct addresses the endpoint geocodes, with their (possibly capped) counts. */
  function CountsOf(content: CsvParse.Parsed, o: Options): Counts {
    AddressCounts(DryRun.KeptAddresses(CsvParse.ParsedRows(content.data)), o.cap)
  }

  /** Everything after reading the file: returns the response and the GeoJSON file written, if any. */
  method Run(name: string, content: CsvParse.Parsed, o: Options, env: Env)
    returns (resp: Outcome, written: Option<(string, FeatureCollection)>)
    ensures var c := CountsOf(content, o);
      c.keys != [] && KeyAbsent(env.apiKey) ==> resp == ServerError(KeyMissing) && written == None
    ensures var c := CountsOf(content, o);
      (c.keys == [] || !KeyAbsent(env.apiKey)) && env.writeFailure.Some? ==>
        resp == ServerError(env.writeFailure.value.GetOr(PipelineFailed)) && written == None
    ensures var c := CountsOf(content, o);
      (c.keys == [] || !KeyAbsent(env.apiKey)) && env.writeFailure.None? ==>
        var merged := Merge(c.keys, c.count, env);
        var bins := KFiltered(Aggregate.Merged(merged), o.kNum);
        var fname := FileName(env.now, o, env.show);
        && resp == Done(Report(name, 0, |merged|, |bins|, o.kNum, "/data/" + fname))
        && written == Some((fname, ToFeatureCollection(bins)))
  {
    var rows := CsvParse.ParseCsv(content);
    var cleaned := CollectCleaned(rows);
    var counts := BuildAddressCounts(cleaned, o.cap);
    var batch, _ := GeocodeBatch(counts, o.rps, env.apiKey, env.respond);
    if batch.Err? {
      return ServerError(batch.message), None;
    }
    var geocodedMap := batch.value;
    var merged := MergeGeocodes(counts, geocodedMap, env);
    // The two maps holding addresses are emptied before the report is assembled.
    counts := Counts([], map[]);
    geocodedMap := Geocodes([], map[]);
    var bins := BinByRounded(merged, o.kNum);
    var fc := ToFeatureCollection(bins);
    var fname := FileName(env.now, o, env.show);
    if env.writeFailure.Some? {
      return ServerError(env.writeFailure.value.GetOr(PipelineFailed)), None;
    }
    written := Some((fname, fc));
    resp := Done(Report(name, |counts.keys|, |merged|, |bins|, o.kNum, "/data/" + fname));
  }

  /** The POST handler: options first, then the form; a missing file is a 400, any throw a 500. */
  method PipelinePost(query: Query, upload: DryRun.Upload, env: Env)
    returns (resp: Outcome, written: Option<(string, FeatureCollection)>)
    ensures upload.NoFile? || upload.NotAFile? ==> resp == BadRequest(NoCsvUploaded) && written == None
    ensures upload.Unreadable? ==> resp == ServerError(upload.message.GetOr(PipelineFailed)) && written == None
    ensures upload.File? && resp.Done? ==>
      var o := DecodeOptions(query, env.number);
      && written.Some?
      && resp.report.filename == upload.name
      && resp.report.uniqueAddresses == 0
      && resp.report.kAnonymity == o.kNum
      && resp.report.geojsonUrl == "/data/" + written.value.0
      && written.value.0 == FileName(env.now, o, env.show)
  {
    var o := DecodeOptions(query, env.number);
    match upload
    case Unreadable(message) =>
      return ServerError(message.GetOr(PipelineFailed)), None;
    case NoFile =>
      return BadRequest(NoCsvUploaded), None;
    case NotAFile =>
      return BadRequest(NoCsvUploaded), None;
    case File(name, content) =>
      resp, written := Run(name, content, o, env);
  }

  // ------------------------------------------------------------------ properties of the report

  /**
   * When the run succeeds the report counts at most one geocoded point per distinct
   * address, the bins field is the number of bins after the k filter, and the
   * stored file holds exactly those bins as features.
   */
  lemma ReportCounts(content: CsvParse.Parsed, o: Options, env: Env)
    ensures var c := CountsOf(content, o);
      var merged := Merge(c.keys, c.count, env);
      && |merged| <= |c.keys|
      && |KFiltered(Aggregate.Merged(merged), o.kNum)| <= |merged|
      && |ToFeatureCollection(KFiltered(Aggregate.Merged(merged), o.kNum)).features| == |KFiltered(Aggregate.Merged(merged), o.kNum)|
  {
    var c := CountsOf(content, o);
    MergeIsFoundPoints(c.keys, c.count, env);
    var merged := Merge(c.keys, c.count, env);
    MergeKeepsWeight(merged);
  }
}
