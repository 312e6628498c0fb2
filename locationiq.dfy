/**
 * Geocoding through LocationIQ: one address per request, a validated first hit
 * or null, and a sequential batch over the distinct addresses with a fixed pause
 * between requests and a progress line every hundred. The HTTP exchange is an
 * input: `respond(address)` is what the request for that address came back with.
 */
module LocationIq {
  import opened Wrappers
  import opened JsNum
  import opened Tally
  import opened Aggregate

  /** `parseFloat(best.lat)`, `parseFloat(best.lon)` of one search hit. */
  datatype Place = Place(lat: Num, lon: Num)

  /** What `res.json()` yields: it throws, it is not an array, or it is the list of hits. */
  datatype Body = Unparsable | NotAnArray | Places(items: seq<Place>)

  /** The outcome of `fetch`: it throws, or it answers with `res.ok` and a body. */
  datatype FetchOutcome = Threw | Answered(ok: bool, body: Body)

  datatype LatLon = LatLon(lat: real, lon: real)

  const KeyMissing: string := "LOCATIONIQ_KEY missing in env"

  /** `!key`: the environment variable is unset or empty. */
  predicate KeyAbsent(key: Option<string>) {
    key.None? || key.value == ""
  }

  /** The answer is usable: an ok response whose first hit has finite coordinates. */
  predicate Usable(o: FetchOutcome) {
    && o.Answered? && o.ok && o.body.Places? && o.body.items != []
    && o.body.items[0].lat.Fin? && o.body.items[0].lon.Fin?
  }

  /** The value the `try` block produces: null for every failure, else the first hit. */
  function Resolve(o: FetchOutcome): Option<LatLon> {
    match o
    case Threw => None
    case Answered(ok, body) =>
      if !ok then None
      else
        match body
        case Unparsable => None
        case NotAnArray => None
        case Places(items) =>
          if items == [] then None
          else
            var best := items[0];
            if best.lat.Fin? && best.lon.Fin? then Some(LatLon(best.lat.value, best.lon.value)) else None
  }

  /** `geocodeOne`: the key is checked before anything is sent; then the request's outcome is resolved. */
  function GeocodeOne(key: Option<string>, outcome: FetchOutcome): Result<Option<LatLon>> {
    if KeyAbsent(key) then Err(KeyMissing) else Ok(Resolve(outcome))
  }

  /** Without a key `geocodeOne` throws whatever the service would have answered. */
  lemma KeyCheckedFirst(key: Option<string>, a: FetchOutcome, b: FetchOutcome)
    requires KeyAbsent(key)
    ensures GeocodeOne(key, a) == GeocodeOne(key, b) == Err(KeyMissing)
  {
  }

  /**
   * With a key the result is null exactly when the answer is not usable (a throw,
   * a non-ok status, a body that is not a non-empty array, non-finite coordinates),
   * and otherwise it is the first hit's position.
   */
  lemma NullExactlyOnFailure(key: Option<string>, o: FetchOutcome)
    requires !KeyAbsent(key)
    ensures GeocodeOne(key, o).Ok?
    ensures GeocodeOne(key, o).value.None? <==> !Usable(o)
    ensures Usable(o) ==> GeocodeOne(key, o).value == Some(LatLon(o.body.items[0].lat.value, o.body.items[0].lon.value))
  {
  }

  /** Only the first hit is read. */
  lemma OnlyFirstHit(key: Option<string>, ok: bool, items: seq<Place>, more: seq<Place>)
    requires items != []
    ensures GeocodeOne(key, Answered(ok, Places(items + more))) == GeocodeOne(key, Answered(ok, Places(items[..1])))
  {
    assert (items + more)[0] == items[..1][0];
  }

  // ---------------------------------------------------------------- the batch

  /** What the batch does besides filling the map: requests, progress lines and pauses, in order. */
  datatype Event = Request(address: string) | ProgressLine(done: int, total: int) | Pause(ms: Option<int>)

  /** A `Map<string, LatLon | null>`: its keys in insertion order and the value under each. */
  datatype Geocodes = Geocodes(keys: seq<string>, at: map<string, Option<LatLon>>)

  /**
   * `Math.ceil(1000 / Math.max(1, rps))` in milliseconds; None stands for NaN
   * (a non-numeric rps), which the timer treats as no delay.
   */
  function PauseMs(rps: Num): Option<int> {
    match rps
    case NaN => None
    case PosInf => Some(0)
    case NegInf => Some(1000)
    case Fin(v) => Some(Ceil(1000.0 / (if v > 1.0 then v else 1.0)))
  }

  /** The pause is undefined only for NaN, and otherwise lies between 0 and 1000 ms. */
  lemma PauseBounded(rps: Num)
    ensures PauseMs(rps).None? <==> rps.NaN?
    ensures PauseMs(rps).Some? ==> 0 <= PauseMs(rps).value <= 1000
    ensures rps.Fin? && rps.value >= 1.0 ==> PauseMs(rps) == Some(Ceil(1000.0 / rps.value))
    ensures rps.Fin? && rps.value <= 1.0 ==> PauseMs(rps) == Some(1000)
    ensures rps == Fin(2.0) ==> PauseMs(rps) == Some(500)
  {
    if rps.Fin? {
      var m := if rps.value > 1.0 then rps.value else 1.0;
      assert 0.0 < 1000.0 / m <= 1000.0;
      CeilBounds(1000.0 / m);
    }
  }

  /** The events of the request for key number `i` of `n`. */
  function StepEvents(i: nat, n: nat, address: string, pause: Option<int>): seq<Event> {
    [Request(address)]
    + (if (i + 1) % 100 == 0 || i + 1 == n then [ProgressLine(i + 1, n)] else [])
    + (if i < n - 1 then [Pause(pause)] else [])
  }

  /** The events after the first `|done|` of `n` keys have been handled. */
  function Trace(done: seq<string>, n: nat, pause: Option<int>): seq<Event> {
    if done == [] then []
    else Trace(done[..|done| - 1], n, pause) + StepEvents(|done| - 1, n, done[|done| - 1], pause)
  }

  /** `geocodeBatch`: one request per key of `uniq`, in key order, each result stored under its key. */
  method GeocodeBatch(uniq: Counts, rps: Num, key: Option<string>, respond: string -> FetchOutcome)
    returns (out: Result<Geocodes>, trace: seq<Event>)
    requires NoDuplicates(uniq.keys)
    ensures uniq.keys != [] && KeyAbsent(key) ==> out == Err(KeyMissing) && trace == []
    ensures uniq.keys == [] || !KeyAbsent(key) ==>
      && out.Ok?
      && out.value.keys == uniq.keys
      && (forall a :: a in out.value.at <==> a in uniq.keys)
      && (forall a :: a in out.value.at ==> out.value.at[a] == Resolve(respond(a)))
      && trace == Trace(uniq.keys, |uniq.keys|, PauseMs(rps))
  {
    var pause := PauseMs(rps);
    var entries := uniq.keys;
    var n := |entries|;
    var keys: seq<string> := [];
    var at: map<string, Option<LatLon>> := map[];
    trace := [];
    for i := 0 to n
      invariant keys == entries[..i]
      invariant forall a :: a in at <==> a in keys
      invariant forall a :: a in at ==> at[a] == Resolve(respond(a))
      invariant trace == Trace(entries[..i], n, pause)
      invariant i > 0 ==> !KeyAbsent(key)
    {
      var address := entries[i];
      var res := GeocodeOne(key, respond(address));
      if res.Err? {
        return Err(res.message), [];
      }
      assert address !in keys by {
        assert forall j :: 0 <= j < i ==> entries[j] != entries[i];
      }
      keys := keys + [address];
      at := at[address := res.value];
      TraceStep(entries, i, n, pause);
      trace := LogStep(trace, i, n, address, pause);
    }
    assert entries[..n] == entries;
    out := Ok(Geocodes(keys, at));
  }

  /** The request, the progress line every 100 keys and at the end, and the pause between requests. */
  method LogStep(trace: seq<Event>, i: nat, n: nat, address: string, pause: Option<int>) returns (trace': seq<Event>)
    ensures trace' == trace + StepEvents(i, n, address, pause)
  {
    trace' := trace + [Request(address)];
    var done := i + 1;
    if done % 100 == 0 || done == n {
      trace' := trace' + [ProgressLine(done, n)];
    }
    if i < n - 1 {
      trace' := trace' + [Pause(pause)];
    }
  }

  lemma TraceStep(entries: seq<string>, i: nat, n: nat, pause: Option<int>)
    requires i < |entries|
    ensures Trace(entries[..i + 1], n, pause) == Trace(entries[..i], n, pause) + StepEvents(i, n, entries[i], pause)
  {
    assert entries[..i + 1][..i] == entries[..i];
  }

  // ---------------------------------------------------------------- the trace

  function Requests(events: seq<Event>): seq<string> {
    if events == [] then []
    else Requests(events[..|events| - 1]) + (if events[|events| - 1].Request? then [events[|events| - 1].address] else [])
  }

  function Pauses(events: seq<Event>): nat {
    if events == [] then 0
    else Pauses(events[..|events| - 1]) + (if events[|events| - 1].Pause? then 1 else 0)
  }

  predicate HasProgress(events: seq<Event>, done: int, total: int) {
    exists j :: 0 <= j < |events| && events[j] == ProgressLine(done, total)
  }

  lemma {:induction false} RequestsAppend(a: seq<Event>, b: seq<Event>)
    ensures Requests(a + b) == Requests(a) + Requests(b)
    ensures Pauses(a + b) == Pauses(a) + Pauses(b)
    decreases |b|
  {
    if b == [] {
      assert a + b == a;
    } else {
      assert (a + b)[..|a + b| - 1] == a + b[..|b| - 1];
      RequestsAppend(a, b[..|b| - 1]);
    }
  }

  lemma StepCounts(i: nat, n: nat, address: string, pause: Option<int>)
    ensures Requests(StepEvents(i, n, address, pause)) == [address]
    ensures Pauses(StepEvents(i, n, address, pause)) == if i < n - 1 then 1 else 0
  {
    var r := [Request(address)];
    var p := if (i + 1) % 100 == 0 || i + 1 == n then [ProgressLine(i + 1, n)] else [];
    var q := if i < n - 1 then [Pause(pause)] else [];
    RequestsAppend(r, p);
    RequestsAppend(r + p, q);
    assert Requests(r) == [address] by {
      assert r[..0] == [];
    }
    if p != [] {
      assert p[..0] == [];
    }
    if q != [] {
      assert q[..0] == [];
    }
  }

  /**
   * Every key is requested exactly once, in key order, and a pause follows every
   * request but the last: n - 1 pauses for n keys.
   */
  lemma {:induction false} TraceRequestsAndPauses(done: seq<string>, n: nat, pause: Option<int>)
    requires |done| <= n
    ensures Requests(Trace(done, n, pause)) == done
    ensures Pauses(Trace(done, n, pause)) == if |done| == n && n > 0 then n - 1 else |done|
  {
    TraceRequests(done, n, pause);
    TracePauses(done, n, pause);
  }

  lemma {:induction false} TraceRequests(done: seq<string>, n: nat, pause: Option<int>)
    ensures Requests(Trace(done, n, pause)) == done
  {
    if done != [] {
      var p, x := done[..|done| - 1], done[|done| - 1];
      var s := StepEvents(|p|, n, x, pause);
      var t := Trace(p, n, pause);
      assert Trace(done, n, pause) == t + s;
      TraceRequests(p, n, pause);
      RequestsAppend(t, s);
      StepCounts(|p|, n, x, pause);
      calc {
        Requests(t + s);
        Requests(t) + Requests(s);
        p + [x];
        { assert p + [x] == done; }
        done;
      }
    }
  }

  lemma {:induction false} TracePauses(done: seq<string>, n: nat, pause: Option<int>)
    requires |done| <= n
    ensures Pauses(Trace(done, n, pause)) == if |done| == n && n > 0 then n - 1 else |done|
  {
    if done != [] {
      var p, x := done[..|done| - 1], done[|done| - 1];
      var s := StepEvents(|p|, n, x, pause);
      assert Trace(done, n, pause) == Trace(p, n, pause) + s;
      TracePauses(p, n, pause);
      RequestsAppend(Trace(p, n, pause), s);
      StepCounts(|p|, n, x, pause);
    }
  }

  /** A progress line is printed exactly after request number d when d is a multiple of 100 or the last. */
  lemma {:induction false} ProgressExactly(done: seq<string>, n: nat, pause: Option<int>, d: int, total: int)
    requires |done| <= n
    ensures HasProgress(Trace(done, n, pause), d, total) <==>
      total == n && 1 <= d <= |done| && (d % 100 == 0 || d == n)
  {
    if done != [] {
      var p := done[..|done| - 1];
      ProgressExactly(p, n, pause, d, total);
      var t := Trace(p, n, pause);
      var s := StepEvents(|done| - 1, n, done[|done| - 1], pause);
      assert Trace(done, n, pause) == t + s;
      if HasProgress(t + s, d, total) {
        var j :| 0 <= j < |t + s| && (t + s)[j] == ProgressLine(d, total);
        if j < |t| {
          assert t[j] == ProgressLine(d, total);
        } else {
          assert s[j - |t|] == ProgressLine(d, total);
        }
      }
      if total == n && 1 <= d <= |done| && (d % 100 == 0 || d == n) {
        if d <= |p| {
          var j :| 0 <= j < |t| && t[j] == ProgressLine(d, total);
          assert (t + s)[j] == ProgressLine(d, total);
        } else {
          assert (t + s)[|t| + 1] == ProgressLine(d, total);
        }
      }
    }
  }
}
