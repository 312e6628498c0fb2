/**
 * The libraries dashboard's boundary statistics: the households inside the
 * selected county or ZIP.
 */
module LibraryDisplay {
  import opened Wrappers
  import opened Boundary

  /** The household count the library dashboard shows for the current selection. */
  class LibraryDisplay {
    var households: Option<int>

    constructor ()
      ensures households == None
    {
      households := None;
    }

    /**
     * The effect run when the selection changes: cleared without a selection or
     * without a polygonal boundary, left as it was when the boundary lookup
     * throws, and otherwise the household count inside the boundary.
     */
    method Refresh(
      sel: Option<Selection>,
      fetch: string -> Fetched<seq<Feature>>,
      points: Fetched<seq<PointFeature>>,
      inside: (Pos, Geometry) -> bool)
      modifies this
      ensures sel.None? ==> households == None
      ensures sel.Some? && BoundaryFeature(sel.value, fetch).Err? ==> households == old(households)
      ensures sel.Some? && BoundaryFeature(sel.value, fetch).Ok? ==>
        var poly := Polygonal(BoundaryFeature(sel.value, fetch).value);
        && (poly.None? ==> households == None)
        && (poly.Some? ==> households == Households(points, poly.value, inside))
    {
      if sel.None? {
        households := None;
        return;
      }
      var feature := BoundaryFeature(sel.value, fetch);
      if feature.Err? {
        return;
      }
      var poly := Polygonal(feature.value);
      if poly.None? {
        households := None;
        return;
      }
      households := CountHouseholds(points, poly.value, inside);
    }
  }
}
