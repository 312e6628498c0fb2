/**
 * GeoJSON emission for the heatmap: every bin becomes a Point feature whose
 * coordinates are [longitude, latitude] and whose only property is the weight.
 */
module GeoJson {
  import opened Aggregate

  const FeatureCollectionTag: string := "FeatureCollection"
  const FeatureTag: string := "Feature"
  const PointTag: string := "Point"

  datatype Geometry = Geometry(kind: string, coordinates: seq<real>)
  datatype Properties = Properties(weight: int)
  datatype Feature = Feature(kind: string, geometry: Geometry, properties: Properties)
  datatype FeatureCollection = FeatureCollection(kind: string, features: seq<Feature>)

  /** The feature one bin is mapped to. */
  function PointFeature(b: Bin): Feature {
    Feature(FeatureTag, Geometry(PointTag, [b.lon, b.lat]), Properties(b.weight))
  }

  /** `toFeatureCollection`: one feature per bin, in the same order. */
  function ToFeatureCollection(bins: seq<Bin>): (fc: FeatureCollection)
    ensures |fc.features| == |bins|
  {
    FeatureCollection(FeatureCollectionTag, seq(|bins|, i requires 0 <= i < |bins| => PointFeature(bins[i])))
  }

  /** The shape every emitted collection has: the three constant type tags and 2-element positions. */
  predicate WellFormedFeature(f: Feature) {
    f.kind == FeatureTag && f.geometry.kind == PointTag && |f.geometry.coordinates| == 2
  }

  predicate WellFormed(fc: FeatureCollection) {
    fc.kind == FeatureCollectionTag && forall i :: 0 <= i < |fc.features| ==> WellFormedFeature(fc.features[i])
  }

  /** Reads a bin back from a feature: latitude is the second coordinate. */
  function FeatureBin(f: Feature): Bin
    requires |f.geometry.coordinates| == 2
  {
    Bin(f.geometry.coordinates[1], f.geometry.coordinates[0], f.properties.weight)
  }

  function FeatureBins(fc: FeatureCollection): (bins: seq<Bin>)
    requires WellFormed(fc)
    ensures |bins| == |fc.features|
  {
    seq(|fc.features|, i requires 0 <= i < |fc.features| => FeatureBin(fc.features[i]))
  }

  /** Feature i is a Point at [lon, lat] of bin i, weighted by that bin's weight. */
  lemma FeatureOfBin(bins: seq<Bin>, i: nat)
    requires i < |bins|
    ensures ToFeatureCollection(bins).features[i].geometry.coordinates == [bins[i].lon, bins[i].lat]
    ensures ToFeatureCollection(bins).features[i].properties.weight == bins[i].weight
    ensures ToFeatureCollection(bins).features[i].kind == FeatureTag
    ensures ToFeatureCollection(bins).features[i].geometry.kind == PointTag
  {
  }

  /** The emitted collection always carries the constant tags. */
  lemma EmittedIsWellFormed(bins: seq<Bin>)
    ensures WellFormed(ToFeatureCollection(bins))
  {
  }

  /** No bin is dropped, reordered or altered: the bins can be read back exactly. */
  lemma BinsRecovered(bins: seq<Bin>)
    ensures WellFormed(ToFeatureCollection(bins))
    ensures FeatureBins(ToFeatureCollection(bins)) == bins
  {
    var fc := ToFeatureCollection(bins);
    EmittedIsWellFormed(bins);
    forall i | 0 <= i < |bins|
      ensures FeatureBins(fc)[i] == bins[i]
    {
      FeatureOfBin(bins, i);
    }
  }

  /** Conversely every well-formed collection is the emission of the bins it holds. */
  lemma FeaturesRecovered(fc: FeatureCollection)
    requires WellFormed(fc)
    ensures ToFeatureCollection(FeatureBins(fc)) == fc
  {
    var bins := FeatureBins(fc);
    var out := ToFeatureCollection(bins);
    forall i | 0 <= i < |fc.features|
      ensures out.features[i] == fc.features[i]
    {
      var f := fc.features[i];
      assert WellFormedFeature(f);
      assert f.geometry.coordinates == [f.geometry.coordinates[0], f.geometry.coordinates[1]];
    }
  }

  /** Emission distributes over concatenation, so the features keep the bins' relative order. */
  lemma EmissionOfConcat(a: seq<Bin>, b: seq<Bin>)
    ensures ToFeatureCollection(a + b).features == ToFeatureCollection(a).features + ToFeatureCollection(b).features
  {
  }
}
