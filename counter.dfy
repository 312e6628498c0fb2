/**
 * A label counter: a JavaScript object used as `counts[label] = (counts[label]
 * || 0) + 1`, read back with `Object.entries` as `{ label, count }` pairs. The
 * object is an association list in insertion order.
 */
module Counter {
  import opened Tally

  datatype LabelCount = LabelCount(name: string, count: nat)

  function EntryLabel(e: LabelCount): string { e.name }
  function EntryCount(e: LabelCount): int { e.count }

  lemma SumStep<T>(xs: seq<T>, x: T, w: T -> int)
    ensures Sum(xs + [x], w) == Sum(xs, w) + w(x)
  {
    assert (xs + [x])[..|xs|] == xs;
  }

  /** Where `name`'s entry is: its index, or `|ts|` when there is none. */
  function IndexOf(ts: seq<LabelCount>, name: string): (i: nat)
    ensures i <= |ts|
    ensures i < |ts| ==> ts[i].name == name
    ensures forall j :: 0 <= j < i ==> ts[j].name != name
  {
    if ts == [] then 0
    else if ts[0].name == name then 0
    else 1 + IndexOf(ts[1..], name)
  }

  lemma {:induction false} SumUpdate<T>(xs: seq<T>, i: nat, x: T, w: T -> int)
    requires i < |xs|
    ensures Sum(xs[i := x], w) == Sum(xs, w) - w(xs[i]) + w(x)
  {
    var init := xs[..|xs| - 1];
    if i == |xs| - 1 {
      assert xs[i := x][..|xs| - 1] == init;
    } else {
      SumUpdate(init, i, x, w);
      assert xs[i := x][..|xs| - 1] == init[i := x];
    }
  }

  /** One more occurrence of `name`: its entry goes up by one, or an entry with count 1 is appended. */
  function Bump(ts: seq<LabelCount>, name: string): (r: seq<LabelCount>)
    ensures Sum(r, EntryCount) == Sum(ts, EntryCount) + 1
  {
    var i := IndexOf(ts, name);
    if i < |ts| then
      SumUpdate(ts, i, LabelCount(name, ts[i].count + 1), EntryCount);
      ts[i := LabelCount(name, ts[i].count + 1)]
    else
      SumStep(ts, LabelCount(name, 1), EntryCount);
      ts + [LabelCount(name, 1)]
  }

  /** The counter after counting every label of `labels`, in order. */
  function TallyOf(labels: seq<string>): seq<LabelCount>
  {
    if labels == [] then [] else Bump(TallyOf(labels[..|labels| - 1]), labels[|labels| - 1])
  }

  lemma KeysPointwise<T, K>(xs: seq<T>, ys: seq<T>, key: T -> K)
    requires |xs| == |ys|
    requires forall i :: 0 <= i < |xs| ==> key(xs[i]) == key(ys[i])
    ensures Keys(xs, key) == Keys(ys, key)
  {
    KeysAt(xs, key);
    KeysAt(ys, key);
  }

  /** What the counter says about the labels counted so far. */
  predicate Counts(t: seq<LabelCount>, labels: seq<string>) {
    && Keys(t, EntryLabel) == Distinct(labels)
    && (forall i :: 0 <= i < |t| ==> t[i].count == Count(labels, t[i].name))
    && Sum(t, EntryCount) == |labels|
  }

  /** Counting one more label keeps `Counts`. */
  lemma CountsStep(t: seq<LabelCount>, p: seq<string>, x: string)
    requires Counts(t, p)
    ensures Counts(Bump(t, x), p + [x])
  {
    forall y
      ensures Count(p + [x], y) == Count(p, y) + (if x == y then 1 else 0)
    {
      CountStep(p, x, y);
    }
    DistinctStep(p, x);
    KeysAt(t, EntryLabel);
    if IndexOf(t, x) < |t| {
      BumpFound(t, p, x);
    } else {
      BumpNew(t, p, x);
    }
  }

  /** A label already counted: the keys stay, its entry alone goes up by one. */
  lemma BumpFound(t: seq<LabelCount>, p: seq<string>, x: string)
    requires Counts(t, p) && IndexOf(t, x) < |t|
    requires forall y :: Count(p + [x], y) == Count(p, y) + (if x == y then 1 else 0)
    ensures Keys(Bump(t, x), EntryLabel) == Keys(t, EntryLabel) && x in Keys(t, EntryLabel)
    ensures forall j :: 0 <= j < |t| ==> Bump(t, x)[j].count == Count(p + [x], Bump(t, x)[j].name)
  {
    var t' := Bump(t, x);
    var i := IndexOf(t, x);
    KeysAt(t, EntryLabel);
    assert Keys(t, EntryLabel)[i] == x;
    KeysPointwise(t', t, EntryLabel);
    forall j | 0 <= j < |t| && j != i
      ensures t[j].name != x
    {
      assert Keys(t, EntryLabel)[j] != Keys(t, EntryLabel)[i];
    }
  }

  /** A label not counted before: a new entry with count 1 at the end. */
  lemma BumpNew(t: seq<LabelCount>, p: seq<string>, x: string)
    requires Counts(t, p) && IndexOf(t, x) == |t|
    requires forall y :: Count(p + [x], y) == Count(p, y) + (if x == y then 1 else 0)
    ensures Keys(Bump(t, x), EntryLabel) == Keys(t, EntryLabel) + [x] && x !in Keys(t, EntryLabel)
    ensures forall j :: 0 <= j < |Bump(t, x)| ==> Bump(t, x)[j].count == Count(p + [x], Bump(t, x)[j].name)
  {
    var t' := Bump(t, x);
    KeysAt(t, EntryLabel);
    assert t'[..|t|] == t;
    KeysStep(t, LabelCount(x, 1), EntryLabel);
    assert x !in p by {
      assert x !in Distinct(p);
    }
  }

  /**
   * The counter holds one entry per distinct label, in order of first
   * occurrence; each entry's count is how often its label occurs; and the
   * counts add up to the number of labels counted.
   */
  lemma {:induction false} TallyMeaning(labels: seq<string>)
    ensures Counts(TallyOf(labels), labels)
  {
    if labels != [] {
      var p := labels[..|labels| - 1];
      assert labels == p + [labels[|labels| - 1]];
      TallyMeaning(p);
      CountsStep(TallyOf(p), p, labels[|labels| - 1]);
    }
  }

  /** Counts of the counter in any case: an entry per label seen, and every count positive. */
  lemma TallyPositive(labels: seq<string>)
    ensures forall e :: e in TallyOf(labels) ==> 0 < e.count && e.name in labels
  {
    var t := TallyOf(labels);
    TallyMeaning(labels);
    KeysAt(t, EntryLabel);
    forall e | e in t
      ensures 0 < e.count && e.name in labels
    {
      var i :| 0 <= i < |t| && t[i] == e;
      assert e.name in Distinct(labels);
    }
  }
}
