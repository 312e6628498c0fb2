/**
 * The map overlay that outlines the selected county or ZIP: it looks the
 * boundary up, shows it as the single boundary on the map and fits the camera to
 * its bounding box, skipping the work when the same selection arrives twice.
 * The map itself is reduced to what the overlay leaves on it: the boundary
 * feature shown and the box the camera was last fitted to.
 */
module CountyOverlay {
  import opened Wrappers
  import opened JsNum
  import opened Boundary

  // ------------------------------------------------------------------ bounding box

  /** `minX, minY, maxX, maxY` while the vertices are being pushed. */
  datatype Bounds = Bounds(minX: Num, minY: Num, maxX: Num, maxY: Num)

  /** `[minX, minY, maxX, maxY]` */
  datatype Box = Box(minX: real, minY: real, maxX: real, maxY: real)

  /** The start: minima at Infinity, maxima at -Infinity. */
  const Unset: Bounds := Bounds(PosInf, PosInf, NegInf, NegInf)

  /** `push(pt)`: each bound moves only when the vertex lies beyond it. */
  function Push(b: Bounds, p: Pos): Bounds {
    Bounds(
      if Below(p.x, b.minX) then Fin(p.x) else b.minX,
      if Below(p.y, b.minY) then Fin(p.y) else b.minY,
      if Above(p.x, b.maxX) then Fin(p.x) else b.maxX,
      if Above(p.y, b.maxY) then Fin(p.y) else b.maxY)
  }

  /** Pushing the vertices in order. */
  function PushAll(b: Bounds, pts: seq<Pos>): Bounds {
    if pts == [] then b else Push(PushAll(b, pts[..|pts| - 1]), pts[|pts| - 1])
  }

  /** A polygon's vertices, ring after ring. */
  function Flatten(rings: seq<seq<Pos>>): seq<Pos> {
    if rings == [] then [] else Flatten(rings[..|rings| - 1]) + rings[|rings| - 1]
  }

  /** A multipolygon's vertices, polygon after polygon. */
  function FlattenAll(polys: seq<seq<seq<Pos>>>): seq<Pos> {
    if polys == [] then [] else FlattenAll(polys[..|polys| - 1]) + Flatten(polys[|polys| - 1])
  }

  function Vertices(g: Geometry): seq<Pos> {
    match g
    case Polygon(rings) => Flatten(rings)
    case MultiPolygon(polys) => FlattenAll(polys)
    case OtherGeometry(_) => []
  }

  predicate AllFinite(b: Bounds) {
    b.minX.Fin? && b.minY.Fin? && b.maxX.Fin? && b.maxY.Fin?
  }

  /** The value `geometryBBox` returns. */
  function BBox(geom: Option<Geometry>): Option<Box> {
    if geom.None? || geom.value.OtherGeometry? then None
    else
      var b := PushAll(Unset, Vertices(geom.value));
      if AllFinite(b) then Some(Box(b.minX.value, b.minY.value, b.maxX.value, b.maxY.value)) else None
  }

  lemma PushAllStep(b: Bounds, pts: seq<Pos>, p: Pos)
    ensures PushAll(b, pts + [p]) == Push(PushAll(b, pts), p)
  {
    assert (pts + [p])[..|pts|] == pts;
  }

  /** `for (const p of ring) push(p)` */
  method PushRing(b: Bounds, ring: seq<Pos>) returns (r: Bounds)
    ensures r == PushAll(b, ring)
  {
    r := b;
    for j := 0 to |ring|
      invariant r == PushAll(b, ring[..j])
    {
      PushAllStep(b, ring[..j], ring[j]);
      assert ring[..j + 1] == ring[..j] + [ring[j]];
      r := Push(r, ring[j]);
    }
    assert ring[..|ring|] == ring;
  }

  lemma {:induction false} PushAllAppend(b: Bounds, xs: seq<Pos>, ys: seq<Pos>)
    ensures PushAll(b, xs + ys) == PushAll(PushAll(b, xs), ys)
    decreases |ys|
  {
    if ys == [] {
      assert xs + ys == xs;
    } else {
      var p := ys[..|ys| - 1];
      assert xs + ys == (xs + p) + [ys[|ys| - 1]];
      PushAllAppend(b, xs, p);
      PushAllStep(b, xs + p, ys[|ys| - 1]);
    }
  }

  /** `for (const ring of rings) for (const p of ring) push(p)` */
  method PushRings(b: Bounds, rings: seq<seq<Pos>>) returns (r: Bounds)
    ensures r == PushAll(b, Flatten(rings))
  {
    r := b;
    for i := 0 to |rings|
      invariant r == PushAll(b, Flatten(rings[..i]))
    {
      assert rings[..i + 1][..i] == rings[..i];
      PushAllAppend(b, Flatten(rings[..i]), rings[i]);
      r := PushRing(r, rings[i]);
    }
    assert rings[..|rings|] == rings;
  }

  /** `geometryBBox` */
  method GeometryBBox(geom: Option<Geometry>) returns (r: Option<Box>)
    ensures r == BBox(geom)
  {
    if geom.None? {
      return None;
    }
    var b := Unset;
    match geom.value {
      case Polygon(rings) =>
        b := PushRings(b, rings);
      case MultiPolygon(polys) =>
        for i := 0 to |polys|
          invariant b == PushAll(Unset, FlattenAll(polys[..i]))
        {
          assert polys[..i + 1][..i] == polys[..i];
          PushAllAppend(Unset, FlattenAll(polys[..i]), Flatten(polys[i]));
          b := PushRings(b, polys[i]);
        }
        assert polys[..|polys|] == polys;
      case OtherGeometry(_) =>
        return None;
    }
    if !AllFinite(b) {
      return None;
    }
    r := Some(Box(b.minX.value, b.minY.value, b.maxX.value, b.maxY.value));
  }

  /**
   * What the pushed bounds say about the vertices: nothing pushed leaves the
   * start values; otherwise every bound is finite, every vertex lies within them
   * and each bound is some vertex's coordinate.
   */
  predicate Summarizes(b: Bounds, pts: seq<Pos>) {
    && (pts == [] ==> b == Unset)
    && (pts != [] ==>
      && AllFinite(b)
      && (forall i :: 0 <= i < |pts| ==>
            b.minX.value <= pts[i].x <= b.maxX.value && b.minY.value <= pts[i].y <= b.maxY.value)
      && (exists i :: 0 <= i < |pts| && pts[i].x == b.minX.value)
      && (exists i :: 0 <= i < |pts| && pts[i].y == b.minY.value)
      && (exists i :: 0 <= i < |pts| && pts[i].x == b.maxX.value)
      && (exists i :: 0 <= i < |pts| && pts[i].y == b.maxY.value))
  }

  lemma {:induction false} PushAllSummarizes(pts: seq<Pos>)
    ensures Summarizes(PushAll(Unset, pts), pts)
  {
    if pts != [] {
      var q := pts[..|pts| - 1];
      var p := pts[|pts| - 1];
      PushAllSummarizes(q);
      var b := PushAll(Unset, q);
      var c := Push(b, p);
      assert forall i :: 0 <= i < |q| ==> pts[i] == q[i];
      if q == [] {
        assert pts[0] == p;
      } else {
        var i0 :| 0 <= i0 < |q| && q[i0].x == b.minX.value;
        var i1 :| 0 <= i1 < |q| && q[i1].y == b.minY.value;
        var i2 :| 0 <= i2 < |q| && q[i2].x == b.maxX.value;
        var i3 :| 0 <= i3 < |q| && q[i3].y == b.maxY.value;
        var n := |pts| - 1;
        assert pts[if c.minX.value == p.x then n else i0].x == c.minX.value;
        assert pts[if c.minY.value == p.y then n else i1].y == c.minY.value;
        assert pts[if c.maxX.value == p.x then n else i2].x == c.maxX.value;
        assert pts[if c.maxY.value == p.y then n else i3].y == c.maxY.value;
      }
    }
  }

  /**
   * The box of a polygon or multipolygon: null when it has no vertex; otherwise
   * every vertex lies within [minX, maxX] x [minY, maxY] and each of the four
   * bounds is attained by a vertex.
   */
  lemma BBoxCovers(g: Geometry)
    requires g.Polygon? || g.MultiPolygon?
    ensures var r := BBox(Some(g)); var vs := Vertices(g);
      && (r.None? <==> vs == [])
      && (r.Some? ==>
        && (forall i :: 0 <= i < |vs| ==>
              r.value.minX <= vs[i].x <= r.value.maxX && r.value.minY <= vs[i].y <= r.value.maxY)
        && (exists i :: 0 <= i < |vs| && vs[i].x == r.value.minX)
        && (exists i :: 0 <= i < |vs| && vs[i].y == r.value.minY)
        && (exists i :: 0 <= i < |vs| && vs[i].x == r.value.maxX)
        && (exists i :: 0 <= i < |vs| && vs[i].y == r.value.maxY))
  {
    PushAllSummarizes(Vertices(g));
  }

  /** A null geometry and every type other than Polygon and MultiPolygon give null. */
  lemma BBoxNullCases(kind: string)
    ensures BBox(None) == None
    ensures BBox(Some(OtherGeometry(kind))) == None
    ensures BBox(Some(Polygon([]))) == None && BBox(Some(Polygon([[]]))) == None
  {
    var rings: seq<seq<Pos>> := [[]];
    assert rings[..0] == [];
  }

  /** The closed unit square has the box [0, 0, 1, 1]. */
  lemma UnitSquare()
    ensures BBox(Some(Polygon([[Pos(0.0, 0.0), Pos(1.0, 0.0), Pos(1.0, 1.0), Pos(0.0, 1.0), Pos(0.0, 0.0)]])))
      == Some(Box(0.0, 0.0, 1.0, 1.0))
  {
    var ring := [Pos(0.0, 0.0), Pos(1.0, 0.0), Pos(1.0, 1.0), Pos(0.0, 1.0), Pos(0.0, 0.0)];
    var rings: seq<seq<Pos>> := [ring];
    assert Flatten(rings) == ring by {
      assert rings[..0] == [];
    }
    SquareBounds(ring);
  }

  lemma SquareBounds(ring: seq<Pos>)
    requires ring == [Pos(0.0, 0.0), Pos(1.0, 0.0), Pos(1.0, 1.0), Pos(0.0, 1.0), Pos(0.0, 0.0)]
    ensures PushAll(Unset, ring) == Bounds(Fin(0.0), Fin(0.0), Fin(1.0), Fin(1.0))
  {
    var b1 := Bounds(Fin(0.0), Fin(0.0), Fin(0.0), Fin(0.0));
    var b2 := Bounds(Fin(0.0), Fin(0.0), Fin(1.0), Fin(0.0));
    var b3 := Bounds(Fin(0.0), Fin(0.0), Fin(1.0), Fin(1.0));
    assert PushAll(Unset, ring[..1]) == b1 by {
      PushAllStep(Unset, [], ring[0]);
      assert ring[..1] == [] + [ring[0]];
    }
    assert PushAll(Unset, ring[..2]) == b2 by {
      PushAllStep(Unset, ring[..1], ring[1]);
      assert ring[..2] == ring[..1] + [ring[1]];
    }
    assert PushAll(Unset, ring[..3]) == b3 by {
      PushAllStep(Unset, ring[..2], ring[2]);
      assert ring[..3] == ring[..2] + [ring[2]];
    }
    assert PushAll(Unset, ring[..4]) == b3 by {
      PushAllStep(Unset, ring[..3], ring[3]);
      assert ring[..4] == ring[..3] + [ring[3]];
    }
    PushAllStep(Unset, ring[..4], ring[4]);
    assert ring == ring[..4] + [ring[4]];
  }

  // ------------------------------------------------------------------ the overlay

  /** `county:<name>` or `zip:<name>:<zcta>` */
  function SelectionKey(sel: Selection): string {
    match sel
    case County(name) => "county:" + name
    case Zip(name, zcta) => "zip:" + name + ":" + zcta
  }

  /**
   * A key is never empty, so after a null selection has reset the remembered
   * key, the next selection is always loaded. Keys of different counties differ,
   * and so do keys of ZIP selections whose county names contain no ':'.
   */
  lemma KeysDistinguish(a: Selection, b: Selection)
    requires ':' !in a.countyName && ':' !in b.countyName
    ensures SelectionKey(a) != ""
    ensures SelectionKey(a) == SelectionKey(b) <==> a == b
  {
    var ka, kb := SelectionKey(a), SelectionKey(b);
    KeyParts(a);
    KeyParts(b);
    if ka == kb && a.Zip? && b.Zip? {
      assert |a.countyName| == |b.countyName|;
    }
  }

  /** Where the parts of a key sit. */
  lemma KeyParts(s: Selection)
    ensures var k := SelectionKey(s); var n := |s.countyName|;
      && k[0] == (if s.County? then 'c' else 'z')
      && (s.County? ==> k[..7] == "county:" && k[7..] == s.countyName)
      && (s.Zip? ==> k[..4] == "zip:" && k[4..4 + n] == s.countyName && k[4 + n] == ':' && k[5 + n..] == s.zcta)
      && (s.Zip? ==> forall i :: 0 <= i < n ==> k[4 + i] == s.countyName[i])
  {
  }

  /** A colon in a county name lets two different ZIP selections share a key. */
  lemma ColonCollision()
    ensures SelectionKey(Zip("a:b", "c")) == SelectionKey(Zip("a", "b:c"))
  {
  }

  /**
   * The overlay's lookup: the first matching feature, or nothing when the fetch
   * fails or is not ok (the overlay throws there and only logs the error).
   */
  function OverlayFeature(sel: Selection, fetch: string -> Fetched<seq<Feature>>): Option<Feature> {
    var r := BoundaryFeature(sel, fetch);
    if r.Ok? && r.value.Some? && r.value.value.geometry.Some? then r.value else None
  }

  /** The boundary overlay on one map. */
  class CountyOverlay {
    /** `lastKeyRef.current` */
    var lastKey: string
    /** The feature in the boundary source, when the source and its two layers are on the map. */
    var shown: Option<Feature>
    /** The box the camera was last fitted to. */
    var fitted: Option<Box>

    constructor ()
      ensures lastKey == "" && shown == None && fitted == None
    {
      lastKey := "";
      shown := None;
      fitted := None;
    }

    /** `clearLayers`: remove the boundary layers and source. */
    method ClearLayers()
      modifies this
      ensures shown == None && lastKey == old(lastKey) && fitted == old(fitted)
    {
      shown := None;
    }

    /**
     * The effect run when the selection changes. A null selection clears the
     * boundary and forgets the key; the remembered key makes a repeated selection
     * do nothing; any other selection replaces the boundary with the looked-up
     * feature (none when the lookup fails) and fits the camera to its box when
     * it has one.
     */
    method Select(sel: Option<Selection>, fetch: string -> Fetched<seq<Feature>>)
      modifies this
      ensures sel.None? ==> lastKey == "" && shown == None && fitted == old(fitted)
      ensures sel.Some? && SelectionKey(sel.value) == old(lastKey) ==>
        lastKey == old(lastKey) && shown == old(shown) && fitted == old(fitted)
      ensures sel.Some? && SelectionKey(sel.value) != old(lastKey) ==>
        && lastKey == SelectionKey(sel.value)
        && shown == OverlayFeature(sel.value, fetch)
        && fitted == (if shown.Some? && BBox(shown.value.geometry).Some? then BBox(shown.value.geometry) else old(fitted))
    {
      if sel.None? {
        ClearLayers();
        lastKey := "";
        return;
      }
      var key := SelectionKey(sel.value);
      if key == lastKey {
        return;
      }
      lastKey := key;
      ClearLayers();
      var feature := OverlayFeature(sel.value, fetch);
      if feature.None? {
        return;
      }
      shown := feature;
      var bbox := GeometryBBox(feature.value.geometry);
      if bbox.Some? {
        fitted := bbox;
      }
    }
  }
}
