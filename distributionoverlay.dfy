/**
 * The household distribution overlay: the count of household points inside a
 * selected area, reported through a callback, and the privacy jitter applied to
 * each point before it is drawn. The drawing itself (buffers, dissolve, layers)
 * is not modelled.
 */
module DistributionOverlay {
  import opened Wrappers
  import opened JsNum
  import opened Boundary

  /**
   * The count effect. It runs only when the map, the selected area's geometry
   * and the callback are all present; `points` is None when fetching or reading
   * the dataset throws, in which case the callback is not called. The result is
   * the value passed to the callback, None when it is not called.
   */
  method HouseholdCount(
    hasMap: bool,
    area: Option<Geometry>,
    hasCallback: bool,
    points: Option<seq<PointFeature>>,
    inside: (Pos, Geometry) -> bool)
    returns (reported: Option<int>)
    ensures !hasMap || area.None? || !hasCallback || points.None? ==> reported == None
    ensures hasMap && area.Some? && hasCallback && points.Some? ==>
      reported == Some(CountInside(points.value, area.value, inside))
  {
    if !hasMap || area.None? || !hasCallback {
      return None;
    }
    if points.None? {
      return None;
    }
    var fs := points.value;
    var count := 0;
    for i := 0 to |fs|
      invariant count == CountInside(fs[..i], area.value, inside)
    {
      var f := fs[i];
      assert fs[..i + 1] == fs[..i] + [f];
      CountInsideStep(fs[..i], f, area.value, inside);
      if !IsPoint(f) {
        continue;
      }
      if inside(f.geometry.value.at, area.value) {
        count := count + 1;
      }
    }
    assert fs[..|fs|] == fs;
    reported := Some(count);
  }

  /**
   * Null features and non-Point geometries are skipped: they never change the
   * count, wherever they sit among the points.
   */
  lemma SkippedFeatures(a: seq<PointFeature>, b: seq<PointFeature>, f: PointFeature, area: Geometry, inside: (Pos, Geometry) -> bool)
    requires !IsPoint(f)
    ensures CountInside(a + [f] + b, area, inside) == CountInside(a + b, area, inside)
  {
    CountInsideAppend(a + [f], b, area, inside);
    CountInsideAppend(a, b, area, inside);
    CountInsideStep(a, f, area, inside);
  }

  /** Two of three points fall in the unit square: the count is 2. */
  lemma SquareExample(square: Geometry, inside: (Pos, Geometry) -> bool)
    requires inside(Pos(0.25, 0.25), square) && inside(Pos(0.75, 0.75), square) && !inside(Pos(2.0, 2.0), square)
    ensures var pts := [
      PointFeature(Some(PointShape(Pos(0.25, 0.25)))),
      PointFeature(Some(PointShape(Pos(0.75, 0.75)))),
      PointFeature(Some(PointShape(Pos(2.0, 2.0))))];
      CountInside(pts, square, inside) == 2
  {
    var p0 := PointFeature(Some(PointShape(Pos(0.25, 0.25))));
    var p1 := PointFeature(Some(PointShape(Pos(0.75, 0.75))));
    var p2 := PointFeature(Some(PointShape(Pos(2.0, 2.0))));
    CountInsideStep([], p0, square, inside);
    CountInsideStep([p0], p1, square, inside);
    CountInsideStep([p0, p1], p2, square, inside);
    assert [] + [p0] == [p0];
    assert [p0] + [p1] == [p0, p1];
    assert [p0, p1] + [p2] == [p0, p1, p2];
  }

  /**
   * `jitterLonLatMeters`: with a radius that is not a positive number (`!meters
   * || meters <= 0`, which also covers NaN) the point is returned as it is;
   * otherwise it moves by `offset`, the random displacement in degrees.
   */
  function Jitter(lon: real, lat: real, meters: Num, offset: (real, real)): (r: (real, real))
    ensures !Greater(meters, 0.0) ==> r == (lon, lat)
  {
    if !Greater(meters, 0.0) then (lon, lat) else (lon + offset.0, lat + offset.1)
  }

  /** Zero, a negative radius, NaN and -Infinity leave every point in place, whatever the random draw. */
  lemma JitterIdentity(lon: real, lat: real, v: real, offset: (real, real))
    requires v <= 0.0
    ensures Jitter(lon, lat, Fin(v), offset) == (lon, lat)
    ensures Jitter(lon, lat, NaN, offset) == (lon, lat)
    ensures Jitter(lon, lat, NegInf, offset) == (lon, lat)
  {
  }
}
