/**
 * The schools dashboard's boundary statistics: for the selected county or ZIP,
 * the households inside it and the schools inside it broken down by level, the
 * level being guessed from the school's name.
 */
module SchoolDisplay {
  import opened Wrappers
  import opened JsText
  import opened Boundary

  datatype Level = Elementary | Middle | High | Other

  /** `w` occurs in `s` at `i` with no word character (letter, digit or underscore) immediately before or after it. */
  predicate WordAt(s: string, w: string, i: int) {
    && 0 <= i <= |s| - |w|
    && s[i..i + |w|] == w
    && (i == 0 || !IsWordChar(s[i - 1]))
    && (i + |w| == |s| || !IsWordChar(s[i + |w|]))
  }

  /** `\bw\b` on `s` */
  predicate HasWord(s: string, w: string) {
    exists i :: 0 <= i <= |s| - |w| && WordAt(s, w, i)
  }

  /** `classifySchoolType`: the first of elementary, middle, high (as a word or "hs") found in the lower-cased name. */
  function Classify(name: Option<string>): Level {
    var n := ToLower(name.GetOr(""));
    if Contains(n, "elementary") then Elementary
    else if Contains(n, "middle") then Middle
    else if HasWord(n, "hs") || HasWord(n, "high") then High
    else Other
  }

  lemma {:induction false} LowerCharIdempotent(c: char)
    ensures LowerChar(LowerChar(c)) == LowerChar(c)
  {
  }

  lemma {:induction false} ToLowerIdempotent(s: string)
    ensures ToLower(ToLower(s)) == ToLower(s)
  {
    if s != [] {
      ToLowerIdempotent(s[1..]);
      LowerCharIdempotent(s[0]);
    }
  }

  /** The classifier ignores case: a name and its lower-cased spelling get the same level. */
  lemma ClassifyIgnoresCase(name: string)
    ensures Classify(Some(name)) == Classify(Some(ToLower(name)))
  {
    ToLowerIdempotent(name);
  }

  /** A missing name and an empty one both classify as other. */
  lemma NamelessIsOther()
    ensures Classify(None) == Other
    ensures Classify(Some("")) == Other
  {
    assert !HasWord("", "hs") && !HasWord("", "high");
  }

  /** "high" inside a longer word is not a high school: "highland" has no word boundary after it. */
  lemma HighNeedsWordBoundary()
    ensures !HasWord("highland", "high")
    ensures HasWord("north high", "high")
  {
    assert WordAt("north high", "high", 6);
    forall i | 0 <= i <= 4
      ensures !WordAt("highland", "high", i)
    {
      if i == 0 {
        assert "highland"[4] == 'l';
      } else {
        assert "highland"[i..i + 4] != "high" by {
          assert "highland"[i..i + 4][0] == "highland"[i];
        }
      }
    }
  }

  /** A school document: its name, and `coords.lat`/`coords.lng` when they are numbers. */
  datatype SchoolDoc = SchoolDoc(name: Option<string>, lat: Option<real>, lng: Option<real>)

  datatype Breakdown = Breakdown(total: int, elementary: int, middle: int, high: int, other: int)

  const NoSchools: Breakdown := Breakdown(0, 0, 0, 0, 0)

  /** A school is counted when both coordinates are numbers and the point `[lng, lat]` is inside. */
  predicate Counted(d: SchoolDoc, poly: Geometry, inside: (Pos, Geometry) -> bool) {
    d.lat.Some? && d.lng.Some? && inside(Pos(d.lng.value, d.lat.value), poly)
  }

  /** `acc.total++; acc[level]++` */
  function Bump(acc: Breakdown, level: Level): Breakdown {
    var acc := acc.(total := acc.total + 1);
    match level
    case Elementary => acc.(elementary := acc.elementary + 1)
    case Middle => acc.(middle := acc.middle + 1)
    case High => acc.(high := acc.high + 1)
    case Other => acc.(other := acc.other + 1)
  }

  /** The breakdown of the documents, in the order the loop visits them. */
  function BreakdownOf(docs: seq<SchoolDoc>, poly: Geometry, inside: (Pos, Geometry) -> bool): Breakdown {
    if docs == [] then NoSchools
    else
      var acc := BreakdownOf(docs[..|docs| - 1], poly, inside);
      var d := docs[|docs| - 1];
      if Counted(d, poly, inside) then Bump(acc, Classify(d.name)) else acc
  }

  /** The number of counted schools of one level, an independent count. */
  function LevelCount(docs: seq<SchoolDoc>, poly: Geometry, inside: (Pos, Geometry) -> bool, level: Level): nat {
    if docs == [] then 0
    else
      var d := docs[|docs| - 1];
      LevelCount(docs[..|docs| - 1], poly, inside, level)
        + (if Counted(d, poly, inside) && Classify(d.name) == level then 1 else 0)
  }

  /** The number of counted schools. */
  function CountedSchools(docs: seq<SchoolDoc>, poly: Geometry, inside: (Pos, Geometry) -> bool): nat {
    if docs == [] then 0
    else
      CountedSchools(docs[..|docs| - 1], poly, inside)
        + (if Counted(docs[|docs| - 1], poly, inside) then 1 else 0)
  }

  /** The school loop. */
  method CountSchools(docs: seq<SchoolDoc>, poly: Geometry, inside: (Pos, Geometry) -> bool) returns (acc: Breakdown)
    ensures acc == BreakdownOf(docs, poly, inside)
  {
    acc := NoSchools;
    for i := 0 to |docs|
      invariant acc == BreakdownOf(docs[..i], poly, inside)
    {
      assert docs[..i + 1][..i] == docs[..i];
      var d := docs[i];
      if d.lat.None? || d.lng.None? {
        continue;
      }
      if !inside(Pos(d.lng.value, d.lat.value), poly) {
        continue;
      }
      acc := Bump(acc, Classify(d.name));
    }
    assert docs[..|docs|] == docs;
  }

  /**
   * Every counted school lands in exactly one level: each level's field is the
   * number of counted schools of that level, the total is the number of counted
   * schools, and the total is the sum of the four levels.
   */
  lemma {:induction false} BreakdownCounts(docs: seq<SchoolDoc>, poly: Geometry, inside: (Pos, Geometry) -> bool)
    ensures var b := BreakdownOf(docs, poly, inside);
      && b.elementary == LevelCount(docs, poly, inside, Elementary)
      && b.middle == LevelCount(docs, poly, inside, Middle)
      && b.high == LevelCount(docs, poly, inside, High)
      && b.other == LevelCount(docs, poly, inside, Other)
      && b.total == CountedSchools(docs, poly, inside)
      && b.total == b.elementary + b.middle + b.high + b.other
  {
    if docs != [] {
      var p, d := docs[..|docs| - 1], docs[|docs| - 1];
      BreakdownCounts(p, poly, inside);
      if Counted(d, poly, inside) {
        BumpFields(BreakdownOf(p, poly, inside), Classify(d.name));
      }
    }
  }

  lemma BumpFields(acc: Breakdown, level: Level)
    ensures var b := Bump(acc, level);
      && b.total == acc.total + 1
      && b.elementary == acc.elementary + (if level == Elementary then 1 else 0)
      && b.middle == acc.middle + (if level == Middle then 1 else 0)
      && b.high == acc.high + (if level == High then 1 else 0)
      && b.other == acc.other + (if level == Other then 1 else 0)
  {
  }

  /** No more schools are counted than there are documents, and none without numeric coordinates. */
  lemma {:induction false} CountedBounded(docs: seq<SchoolDoc>, poly: Geometry, inside: (Pos, Geometry) -> bool)
    ensures CountedSchools(docs, poly, inside) <= |docs|
    ensures (forall i :: 0 <= i < |docs| ==> docs[i].lat.None? || docs[i].lng.None?)
      ==> CountedSchools(docs, poly, inside) == 0
  {
    if docs != [] {
      CountedBounded(docs[..|docs| - 1], poly, inside);
    }
  }

  /** The statistics the school dashboard shows for the current selection. */
  class SchoolDisplay {
    var households: Option<int>
    var schools: Option<Breakdown>

    constructor ()
      ensures households == None && schools == None
    {
      households := None;
      schools := None;
    }

    /**
     * The effect run when the selection changes. A lookup whose fetch throws
     * leaves both values as they were; a missing boundary, or one that is not a
     * polygon, clears both; otherwise households and schools are counted
     * independently, each null when its own load fails (`docs` is None when
     * reading the schools collection throws).
     */
    method Refresh(
      sel: Option<Selection>,
      fetch: string -> Fetched<seq<Feature>>,
      points: Fetched<seq<PointFeature>>,
      docs: Option<seq<SchoolDoc>>,
      inside: (Pos, Geometry) -> bool)
      modifies this
      ensures sel.None? ==> households == None && schools == None
      ensures sel.Some? && BoundaryFeature(sel.value, fetch).Err? ==>
        households == old(households) && schools == old(schools)
      ensures sel.Some? && BoundaryFeature(sel.value, fetch).Ok? ==>
        var poly := Polygonal(BoundaryFeature(sel.value, fetch).value);
        && (poly.None? ==> households == None && schools == None)
        && (poly.Some? ==> households == Households(points, poly.value, inside))
        && (poly.Some? && docs.None? ==> schools == None)
        && (poly.Some? && docs.Some? ==> schools == Some(BreakdownOf(docs.value, poly.value, inside)))
    {
      if sel.None? {
        households, schools := None, None;
        return;
      }
      var feature := BoundaryFeature(sel.value, fetch);
      if feature.Err? {
        return;
      }
      var poly := Polygonal(feature.value);
      if poly.None? {
        households, schools := None, None;
        return;
      }
      households := CountHouseholds(points, poly.value, inside);
      if docs.None? {
        schools := None;
      } else {
        var acc := CountSchools(docs.value, poly.value, inside);
        schools := Some(acc);
      }
    }
  }
}
