/**
 * The schools map's Georgia bounds: the bounding box the map may not be
 * panned out of, and the clamp that moves any requested centre into it.
 * Degrees are reals; `Math.min`/`Math.max` on finite numbers are `min`/`max`.
 */
module SchoolsMap {

  datatype LngLat = LngLat(lng: real, lat: real)

  /** South-west and north-east corners, as `[[west, south], [east, north]]`. */
  datatype Bounds = Bounds(sw: LngLat, ne: LngLat)

  function West(b: Bounds): real { b.sw.lng }
  function South(b: Bounds): real { b.sw.lat }
  function East(b: Bounds): real { b.ne.lng }
  function North(b: Bounds): real { b.ne.lat }

  /** `GA_BOUNDS`. */
  const GaBounds := Bounds(LngLat(-85.6052, 30.3556), LngLat(-80.7514, 35.0007))

  /** The centre and zoom the map opens at when none is given. */
  const DefaultCenter := LngLat(-84.07, 33.95)
  const DefaultZoom := 11

  predicate Within(p: LngLat, b: Bounds) {
    West(b) <= p.lng <= East(b) && South(b) <= p.lat <= North(b)
  }

  /** `Math.min(Math.max(v, lo), hi)`. */
  function Clamp(v: real, lo: real, hi: real): (r: real)
    ensures lo <= hi ==> lo <= r <= hi
    ensures lo <= v <= hi ==> r == v
  {
    var up := if v > lo then v else lo;
    if up < hi then up else hi
  }

  /** No point of `[lo, hi]` is nearer to `v` than its clamp. */
  lemma ClampNearest(v: real, lo: real, hi: real, x: real)
    requires lo <= x <= hi
    ensures var r := Clamp(v, lo, hi);
      (if r >= v then r - v else v - r) <= (if x >= v then x - v else v - x)
  {
  }

  /** `clampToGeorgia`: each axis clamped into the Georgia box on its own. */
  function ClampToGeorgia(c: LngLat): (r: LngLat)
    ensures Within(r, GaBounds)
    ensures Within(c, GaBounds) ==> r == c
  {
    LngLat(Clamp(c.lng, West(GaBounds), East(GaBounds)), Clamp(c.lat, South(GaBounds), North(GaBounds)))
  }

  /** The two axes are clamped independently: a point's longitude never moves its clamped latitude, nor the reverse. */
  lemma ClampAxesIndependent(a: LngLat, b: LngLat)
    ensures a.lng == b.lng ==> ClampToGeorgia(a).lng == ClampToGeorgia(b).lng
    ensures a.lat == b.lat ==> ClampToGeorgia(a).lat == ClampToGeorgia(b).lat
  {
  }

  /** Clamping is idempotent, and the clamped point is the point of the box nearest to the request on each axis. */
  lemma ClampToGeorgiaBest(c: LngLat, p: LngLat)
    requires Within(p, GaBounds)
    ensures ClampToGeorgia(ClampToGeorgia(c)) == ClampToGeorgia(c)
    ensures var r := ClampToGeorgia(c);
      && (if r.lng >= c.lng then r.lng - c.lng else c.lng - r.lng) <= (if p.lng >= c.lng then p.lng - c.lng else c.lng - p.lng)
      && (if r.lat >= c.lat then r.lat - c.lat else c.lat - r.lat) <= (if p.lat >= c.lat then p.lat - c.lat else c.lat - p.lat)
  {
    ClampNearest(c.lng, West(GaBounds), East(GaBounds), p.lng);
    ClampNearest(c.lat, South(GaBounds), North(GaBounds), p.lat);
  }

  /** What the map is constructed with. */
  datatype MapOptions = MapOptions(center: LngLat, zoom: int, maxBounds: Bounds, renderWorldCopies: bool)

  /** The constructor's options: the given centre and zoom, panning locked to Georgia, no wrapped world copies. */
  function InitialOptions(center: LngLat, zoom: int): (o: MapOptions)
    ensures o.maxBounds == GaBounds && !o.renderWorldCopies
    ensures o.center == center && o.zoom == zoom
  {
    MapOptions(center, zoom, GaBounds, false)
  }

  /** The default centre lies inside Georgia, so clamping it changes nothing. */
  lemma DefaultCenterInGeorgia()
    ensures Within(DefaultCenter, GaBounds)
    ensures ClampToGeorgia(DefaultCenter) == DefaultCenter
  {
  }

  /** The bounds the unit test expects the map to be constructed with. */
  const TestedBounds := Bounds(LngLat(-86.33327, 29.658835), LngLat(-80.02333, 35.697465))

  /**
   * The unit test's expectation and the constant disagree: the tested box is
   * wider on every side, so the default options do not carry the bounds the
   * test expects, while its centre and world-copy expectations do hold.
   */
  lemma TestedBoundsDiffer()
    ensures InitialOptions(DefaultCenter, DefaultZoom).maxBounds != TestedBounds
    ensures West(TestedBounds) < West(GaBounds) && East(GaBounds) < East(TestedBounds)
    ensures South(TestedBounds) < South(GaBounds) && North(GaBounds) < North(TestedBounds)
    ensures InitialOptions(DefaultCenter, DefaultZoom).center == LngLat(-84.07, 33.95)
    ensures !InitialOptions(DefaultCenter, DefaultZoom).renderWorldCopies
  {
  }
}
