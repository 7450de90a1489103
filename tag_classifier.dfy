/**
 * The lookup tables of `TagClassifier`: which tag classes each AprilTag id
 * carries, which ids carry each ground-truth label, and which labels exist.
 *
 * The configuration file is given as the sequence of its `classes.c<i>`
 * blocks, `None` standing for a block whose `labels` key is absent. The
 * random draws of `classifyTag` and `sampleRange` are parameters.
 */
module Perception {
  import opened Wrappers

  /** The sampling parameters of one tag class; the first label is the ground truth. */
  datatype TagClass = TagClass(labels: seq<string>, probs: seq<real>, mean: real, stddev: real,
                               minRange: real, maxRange: real)

  /** One `classes.c<i>` block of the configuration, absent numbers read as 0. */
  datatype ClassEntry = ClassEntry(labels: seq<string>, probs: seq<real>, ids: seq<int>, mean: real,
                                   stddev: real, minRange: real, maxRange: real)

  /** The random numbers one classification draws: a uniform one, then two Gaussian ones. */
  datatype Draw = Draw(uniform: real, rangeNoise: real, confidenceNoise: real)

  /** One `tag_classification_t` (its time stamp left out). */
  datatype TagClassification = TagClassification(name: string, range: real, tagId: int, xyzrpy: seq<real>,
                                                 confidence: real)

  function ClassOf(e: ClassEntry): TagClass
  {
    TagClass(e.labels, e.probs, e.mean, e.stddev, e.minRange, e.maxRange)
  }

  /** Every entry names its ground-truth label (the source reads `labels[0]`). */
  ghost predicate LabelsPresent(es: seq<ClassEntry>)
  {
    forall i :: 0 <= i < |es| ==> |es[i].labels| >= 1
  }

  /** The entries the constructor reads: those before the first block without labels. */
  function Processed(config: seq<Option<ClassEntry>>): (es: seq<ClassEntry>)
    ensures |es| <= |config|
    ensures forall i :: 0 <= i < |es| ==> config[i] == Some(es[i])
    ensures |es| < |config| ==> config[|es|].None?
  {
    if config == [] || config[0].None? then []
    else [config[0].value] + Processed(config[1..])
  }

  // ---------------------------------------------------------------------
  // The tables, as the constructor builds them

  /** `allTags.add(tag); idToTag.put(id, allTags)` */
  function AddClass(m: map<int, seq<TagClass>>, id: int, tc: TagClass): map<int, seq<TagClass>>
  {
    m[id := (if id in m then m[id] else []) + [tc]]
  }

  /** Adds `tc` to the list of each of `ids`, in order. */
  function AddToIds(m: map<int, seq<TagClass>>, ids: seq<int>, tc: TagClass): map<int, seq<TagClass>>
  {
    if ids == [] then m else AddClass(AddToIds(m, ids[..|ids| - 1], tc), ids[|ids| - 1], tc)
  }

  function IdTable(es: seq<ClassEntry>): map<int, seq<TagClass>>
  {
    if es == [] then map[]
    else var e := es[|es| - 1]; AddToIds(IdTable(es[..|es| - 1]), e.ids, ClassOf(e))
  }

  function Elems(ids: seq<int>): set<int>
  {
    set id | id in ids
  }

  /** `tagClassToIDs` after `label` is made a key, if it was not one yet. */
  function WithKey(m: map<string, set<int>>, g: string): map<string, set<int>>
  {
    if g in m then m else m[g := {}]
  }

  function GroundTable(es: seq<ClassEntry>): map<string, set<int>>
    requires LabelsPresent(es)
  {
    if es == [] then map[]
    else
      var e := es[|es| - 1];
      var m := WithKey(GroundTable(es[..|es| - 1]), e.labels[0]);
      m[e.labels[0] := m[e.labels[0]] + Elems(e.ids)]
  }

  function NonEmpty(labels: seq<string>): set<string>
  {
    set l | l in labels && l != ""
  }

  function LabelSet(es: seq<ClassEntry>): set<string>
  {
    if es == [] then {} else LabelSet(es[..|es| - 1]) + NonEmpty(es[|es| - 1].labels)
  }

  // ---------------------------------------------------------------------
  // What the tables hold

  /** The classes listed for `id`, empty when it has none. */
  function Lookup(m: map<int, seq<TagClass>>, id: int): seq<TagClass>
  {
    if id in m then m[id] else []
  }

  /** `i` is the first entry that lists `id`. */
  ghost predicate FirstEntryWith(es: seq<ClassEntry>, id: int, i: int)
  {
    0 <= i < |es| && id in es[i].ids && forall k :: 0 <= k < i ==> id !in es[k].ids
  }

  /** Adding to a batch of ids extends the list of each of them and of nothing else. */
  lemma {:induction false} AddToIdsLookup(m: map<int, seq<TagClass>>, ids: seq<int>, tc: TagClass, id: int)
    ensures id in AddToIds(m, ids, tc) <==> id in m || id in ids
    ensures Lookup(AddToIds(m, ids, tc), id) == Lookup(m, id) + Lookup(AddToIds(map[], ids, tc), id)
    ensures forall c :: c in Lookup(AddToIds(map[], ids, tc), id) ==> c == tc
    ensures id in ids ==> Lookup(AddToIds(map[], ids, tc), id) != []
  {
    if ids != [] {
      var init := ids[..|ids| - 1];
      AddToIdsLookup(m, init, tc, id);
      AddToIdsLookup(map[], init, tc, id);
      assert forall x :: x in ids <==> x in init || x == ids[|ids| - 1];
    }
  }

  /**
   * The classes of an id in the table built from `a + b` are those from `a`
   * followed by those from `b`: classes appear in entry order.
   */
  lemma {:induction false} IdTableAppend(a: seq<ClassEntry>, b: seq<ClassEntry>, id: int)
    ensures Lookup(IdTable(a + b), id) == Lookup(IdTable(a), id) + Lookup(IdTable(b), id)
    decreases |b|
  {
    if b == [] {
      assert a + b == a;
    } else {
      var e := b[|b| - 1];
      var b' := b[..|b| - 1];
      assert (a + b)[..|a + b| - 1] == a + b';
      assert (a + b)[|a + b| - 1] == e;
      IdTableAppend(a, b', id);
      AddToIdsLookup(IdTable(a + b'), e.ids, ClassOf(e), id);
      AddToIdsLookup(IdTable(b'), e.ids, ClassOf(e), id);
    }
  }

  /** Each entry listing an id contributes its class, and every class comes from a listing entry. */
  lemma {:induction false} IdTableMembers(es: seq<ClassEntry>, id: int)
    ensures forall i :: 0 <= i < |es| && id in es[i].ids ==> ClassOf(es[i]) in Lookup(IdTable(es), id)
    ensures forall c :: c in Lookup(IdTable(es), id) ==> exists i :: 0 <= i < |es| && id in es[i].ids && c == ClassOf(es[i])
  {
    if es != [] {
      var n := |es| - 1;
      var init := es[..n];
      var e := es[n];
      IdTableMembers(init, id);
      AddToIdsLookup(IdTable(init), e.ids, ClassOf(e), id);
      AddToIdsLookup(map[], e.ids, ClassOf(e), id);
      assert forall i :: 0 <= i < n ==> es[i] == init[i];
      forall i | 0 <= i < |es| && id in es[i].ids
        ensures ClassOf(es[i]) in Lookup(IdTable(es), id)
      {
        if i < n {
          assert id in init[i].ids;
        } else {
          var added := Lookup(AddToIds(map[], e.ids, ClassOf(e)), id);
          assert added[0] in added;
        }
      }
      forall c | c in Lookup(IdTable(es), id)
        ensures exists i :: 0 <= i < |es| && id in es[i].ids && c == ClassOf(es[i])
      {
        if c in Lookup(IdTable(init), id) {
          var i :| 0 <= i < |init| && id in init[i].ids && c == ClassOf(init[i]);
          assert es[i] == init[i];
        } else {
          assert c == ClassOf(e) && id in e.ids;
        }
      }
    }
  }

  /** An id listed by no entry has no classes. */
  lemma {:induction false} IdTableAbsent(es: seq<ClassEntry>, id: int)
    requires forall k :: 0 <= k < |es| ==> id !in es[k].ids
    ensures Lookup(IdTable(es), id) == []
  {
    if es != [] {
      var init, e := es[..|es| - 1], es[|es| - 1];
      assert forall k :: 0 <= k < |init| ==> init[k] == es[k];
      IdTableAbsent(init, id);
      AddToIdsLookup(IdTable(init), e.ids, ClassOf(e), id);
      AddToIdsLookup(map[], e.ids, ClassOf(e), id);
    }
  }

  /** The table built from one entry lists its class for each of its ids. */
  lemma IdTableSingle(e: ClassEntry, id: int)
    requires id in e.ids
    ensures Lookup(IdTable([e]), id) != [] && Lookup(IdTable([e]), id)[0] == ClassOf(e)
  {
    assert [e][..0] == [];
    assert IdTable([e]) == AddToIds(map[], e.ids, ClassOf(e));
    AddToIdsLookup(map[], e.ids, ClassOf(e), id);
    var first := Lookup(IdTable([e]), id);
    assert first[0] in first;
  }

  /** The first class of an id comes from the first entry that lists it. */
  lemma IdTableHead(es: seq<ClassEntry>, id: int, i: int)
    requires FirstEntryWith(es, id, i)
    ensures Lookup(IdTable(es), id) != [] && Lookup(IdTable(es), id)[0] == ClassOf(es[i])
  {
    var before, rest := es[..i], es[i + 1..];
    assert es == (before + [es[i]]) + rest;
    IdTableAppend(before + [es[i]], rest, id);
    IdTableAppend(before, [es[i]], id);
    assert forall k :: 0 <= k < |before| ==> before[k] == es[k];
    IdTableAbsent(before, id);
    IdTableSingle(es[i], id);
  }

  /** The ids stored under `g`, empty when `g` is not a key. */
  function IdsOf(m: map<string, set<int>>, g: string): set<int>
  {
    if g in m then m[g] else {}
  }

  /** `tagClassToIDs` has a key for the ground truth of every entry, ids or not, and no other key. */
  lemma {:induction false} GroundTableKeys(es: seq<ClassEntry>, g: string)
    requires LabelsPresent(es)
    ensures g in GroundTable(es) <==> exists i :: 0 <= i < |es| && es[i].labels[0] == g
  {
    if es != [] {
      var n := |es| - 1;
      var init := es[..n];
      assert forall i :: 0 <= i < n ==> es[i] == init[i];
      GroundTableKeys(init, g);
      if exists i :: 0 <= i < |es| && es[i].labels[0] == g {
        var i :| 0 <= i < |es| && es[i].labels[0] == g;
        assert i < n ==> init[i].labels[0] == g;
      }
    }
  }

  /** The ids stored under `g` are those of the entries whose ground truth is `g`. */
  lemma {:induction false} GroundTableIdsOf(es: seq<ClassEntry>, g: string, id: int)
    requires LabelsPresent(es)
    ensures id in IdsOf(GroundTable(es), g) <==> exists i :: 0 <= i < |es| && es[i].labels[0] == g && id in es[i].ids
  {
    if es != [] {
      var n := |es| - 1;
      var init := es[..n];
      var e := es[n];
      assert forall i :: 0 <= i < n ==> es[i] == init[i];
      GroundTableIdsOf(init, g, id);
      assert IdsOf(GroundTable(es), g) ==
             if e.labels[0] == g then IdsOf(GroundTable(init), g) + Elems(e.ids) else IdsOf(GroundTable(init), g);
      if exists i :: 0 <= i < |es| && es[i].labels[0] == g && id in es[i].ids {
        var i :| 0 <= i < |es| && es[i].labels[0] == g && id in es[i].ids;
        assert i < n ==> init[i].labels[0] == g && id in init[i].ids;
      }
    }
  }

  /** The ids stored under `g`, for every id at once. */
  lemma GroundTableIds(es: seq<ClassEntry>, g: string)
    requires LabelsPresent(es)
    ensures forall id :: id in IdsOf(GroundTable(es), g) <==>
              exists i :: 0 <= i < |es| && es[i].labels[0] == g && id in es[i].ids
  {
    forall id ensures id in IdsOf(GroundTable(es), g) <==>
                      exists i :: 0 <= i < |es| && es[i].labels[0] == g && id in es[i].ids {
      GroundTableIdsOf(es, g, id);
    }
  }

  /** `tagClasses` holds exactly the non-empty labels of all entries; never `""`. */
  lemma {:induction false} LabelSetMembers(es: seq<ClassEntry>, l: string)
    ensures l in LabelSet(es) <==> l != "" && exists i :: 0 <= i < |es| && l in es[i].labels
  {
    if es != [] {
      var n := |es| - 1;
      var init := es[..n];
      LabelSetMembers(init, l);
      if exists i :: 0 <= i < |es| && l in es[i].labels {
        var i :| 0 <= i < |es| && l in es[i].labels;
        assert i < n ==> l in init[i].labels;
      }
      if exists i :: 0 <= i < |init| && l in init[i].labels {
        var i :| 0 <= i < |init| && l in init[i].labels;
        assert es[i] == init[i];
      }
    }
  }

  /** A prefix one longer is the prefix followed by the next element. */
  lemma PrefixStep(s: seq<ClassEntry>, i: nat)
    requires i < |s|
    ensures s[..i + 1] == s[..i] + [s[i]]
  {
  }

  /** The tables after one more entry, as the constructor's loop body builds them. */
  lemma TablesStep(done: seq<ClassEntry>, e: ClassEntry)
    requires LabelsPresent(done) && |e.labels| >= 1
    ensures LabelsPresent(done + [e])
    ensures IdTable(done + [e]) == AddToIds(IdTable(done), e.ids, ClassOf(e))
    ensures var keyed := WithKey(GroundTable(done), e.labels[0]);
            GroundTable(done + [e]) == keyed[e.labels[0] := keyed[e.labels[0]] + Elems(e.ids)]
    ensures LabelSet(done + [e]) == LabelSet(done) + NonEmpty(e.labels)
  {
    assert (done + [e])[..|done|] == done;
  }

  // ---------------------------------------------------------------------
  // Sampling

  /** `MathUtil.clamp`. */
  function Clamp(v: real, lo: real, hi: real): (r: real)
    requires lo <= hi
    ensures lo <= r <= hi
    ensures lo <= v <= hi ==> r == v
  {
    if v < lo then lo else if v > hi then hi else v
  }

  /**
   * The private `sampleRange(tc)`: a Gaussian draw clamped to three standard
   * deviations, placed on the class's range, six deviations wide.
   */
  function RangeSample(tc: TagClass, noise: real): (r: real)
    ensures tc.minRange <= tc.maxRange ==> tc.minRange <= r <= tc.maxRange
  {
    var v := Clamp(noise, -3.0, 3.0);
    var diff := tc.maxRange - tc.minRange;
    RangeWithin(tc.minRange, tc.maxRange, v);
    (tc.minRange + diff / 2.0) + v * (diff / 6.0)
  }

  /** A point placed `v` sixths of the width from the middle, for `v` in [-3, 3], stays in [lo, hi]. */
  lemma RangeWithin(lo: real, hi: real, v: real)
    requires -3.0 <= v <= 3.0
    ensures lo <= hi ==> lo <= (lo + (hi - lo) / 2.0) + v * ((hi - lo) / 6.0) <= hi
  {
    if lo <= hi {
      var d := (hi - lo) / 6.0;
      var mid := lo + (hi - lo) / 2.0;
      ScaledWithin(v, d);
      assert mid == lo + 3.0 * d && hi == lo + 6.0 * d;
      assert v * ((hi - lo) / 6.0) == v * d;
      assert lo <= mid + v * d <= hi;
    }
  }

  lemma ScaledWithin(v: real, d: real)
    requires -3.0 <= v <= 3.0 && d >= 0.0
    ensures -3.0 * d <= v * d <= 3.0 * d
  {
    assert (v + 3.0) * d >= 0.0;
    assert (3.0 - v) * d >= 0.0;
  }

  /** `sampleConfidence(mean, stddev)`: a Gaussian draw, clamped to [0, 1]. */
  function ConfidenceSample(tc: TagClass, noise: real): (r: real)
    ensures 0.0 <= r <= 1.0
  {
    Clamp(tc.mean + noise * tc.stddev, 0.0, 1.0)
  }

  /** The sum of the first `n` probabilities. */
  function PrefixSum(probs: seq<real>, n: nat): real
    requires n <= |probs|
  {
    if n == 0 then 0.0 else PrefixSum(probs, n - 1) + probs[n - 1]
  }

  /** The cumulative probability up to and including index `j`. */
  function Cumulative(probs: seq<real>, j: nat): real
    requires j < |probs|
  {
    PrefixSum(probs, j + 1)
  }

  /**
   * The label walk of `classifyTag` from index `i` with running sum `sum`:
   * the first label whose cumulative probability reaches `v`, the ground
   * truth when none does, and `None` when the walk reads past the end of
   * `probs` (an exception in the source).
   */
  function Walk(labels: seq<string>, probs: seq<real>, v: real, i: nat, sum: real): (r: Option<string>)
    requires 1 <= |labels| && i <= |labels|
    ensures r.Some? ==> r.value in labels
    decreases |labels| - i
  {
    if i == |labels| then Some(labels[0])
    else if i >= |probs| then None
    else if sum + probs[i] >= v then Some(labels[i])
    else Walk(labels, probs, v, i + 1, sum + probs[i])
  }

  /** The walk picks the label at the first index whose cumulative probability reaches `v`. */
  lemma {:induction false} WalkPicksFirstCrossing(labels: seq<string>, probs: seq<real>, v: real,
                                                  start: nat, k: nat)
    requires 1 <= |labels| && start <= k < |labels| && k < |probs|
    requires Cumulative(probs, k) >= v
    requires forall j :: start <= j < k ==> Cumulative(probs, j) < v
    ensures Walk(labels, probs, v, start, PrefixSum(probs, start)) == Some(labels[k])
    decreases k - start
  {
    assert PrefixSum(probs, start + 1) == PrefixSum(probs, start) + probs[start];
    if start < k {
      assert Cumulative(probs, start) < v;
      WalkPicksFirstCrossing(labels, probs, v, start + 1, k);
    } else {
      assert Cumulative(probs, k) >= v;
    }
  }

  /** The walk returns the ground truth when no cumulative probability reaches `v`. */
  lemma {:induction false} WalkFallsBack(labels: seq<string>, probs: seq<real>, v: real, start: nat)
    requires 1 <= |labels| <= |probs| && start <= |labels|
    requires forall j :: start <= j < |labels| ==> Cumulative(probs, j) < v
    ensures Walk(labels, probs, v, start, PrefixSum(probs, start)) == Some(labels[0])
    decreases |labels| - start
  {
    if start < |labels| {
      assert PrefixSum(probs, start + 1) == PrefixSum(probs, start) + probs[start];
      assert Cumulative(probs, start) < v;
      WalkFallsBack(labels, probs, v, start + 1);
    }
  }

  /**
   * In perfect mode the draw is 0, so a class whose first probability is not
   * negative always yields its ground-truth label.
   */
  lemma PerfectPicksGroundTruth(tc: TagClass, d: Draw)
    requires |tc.labels| >= 1 && |tc.probs| >= 1 && tc.probs[0] >= 0.0
    ensures Choice(tc, Threshold(true, d)) == Some(tc.labels[0])
  {
    assert PrefixSum(tc.probs, 1) == PrefixSum(tc.probs, 0) + tc.probs[0];
    assert Cumulative(tc.probs, 0) == tc.probs[0];
    WalkPicksFirstCrossing(tc.labels, tc.probs, 0.0, 0, 0);
  }

  /** The draw `classifyTag` compares cumulative probabilities with. */
  function Threshold(perfect: bool, d: Draw): real
  {
    if perfect then 0.0 else d.uniform
  }

  /** The label `classifyTag` picks for class `tc` at draw `v`; `None` where the source throws. */
  function Choice(tc: TagClass, v: real): (r: Option<string>)
    ensures r.Some? ==> r.value in tc.labels
  {
    if |tc.labels| == 0 then None else Walk(tc.labels, tc.probs, v, 0, 0.0)
  }

  /**
   * The label loop of `classifyTag` for one class: starts from the ground
   * truth and stops at the first label whose cumulative probability reaches
   * `v`; `None` when it reads past the end of `probs`.
   */
  method ChooseLabel(tc: TagClass, v: real) returns (r: Option<string>)
    ensures r == Choice(tc, v)
  {
    if |tc.labels| == 0 {
      return None;
    }
    var chosen := tc.labels[0];
    var sum := 0.0;
    var i := 0;
    while i < |tc.labels|
      invariant 0 <= i <= |tc.labels|
      invariant Walk(tc.labels, tc.probs, v, i, sum) == Walk(tc.labels, tc.probs, v, 0, 0.0)
      decreases |tc.labels| - i
    {
      if i >= |tc.probs| {
        return None;
      }
      sum := sum + tc.probs[i];
      if sum >= v {
        chosen := tc.labels[i];
        break;
      }
      i := i + 1;
    }
    r := Some(chosen);
  }

  /** The inner label loop of the constructor: adds the non-empty labels to `classes`. */
  method AddLabels(classes: set<string>, labels: seq<string>) returns (r: set<string>)
    ensures r == classes + NonEmpty(labels)
  {
    r := classes;
    for k := 0 to |labels|
      invariant r == classes + NonEmpty(labels[..k])
    {
      assert labels[..k + 1] == labels[..k] + [labels[k]];
      if labels[k] != "" {
        r := r + {labels[k]};
      }
    }
    assert labels[..|labels|] == labels;
  }

  /**
   * The inner id loop of the constructor: appends `tag` to the list of each
   * id and adds each id to the set of the ground truth `g`.
   */
  method AddIds(idTo: map<int, seq<TagClass>>, ground: map<string, set<int>>, g: string, ids: seq<int>,
                tag: TagClass)
    returns (idTo': map<int, seq<TagClass>>, ground': map<string, set<int>>)
    requires g in ground
    ensures idTo' == AddToIds(idTo, ids, tag)
    ensures ground' == ground[g := ground[g] + Elems(ids)]
  {
    idTo', ground' := idTo, ground;
    assert ids[..0] == [] && Elems(ids[..0]) == {};
    assert ground[g] + {} == ground[g];
    assert ground[g := ground[g]] == ground;
    for j := 0 to |ids|
      invariant idTo' == AddToIds(idTo, ids[..j], tag)
      invariant ground' == ground[g := ground[g] + Elems(ids[..j])]
    {
      var id := ids[j];
      var allTags := if id in idTo' then idTo'[id] else [];
      allTags := allTags + [tag];
      idTo' := idTo'[id := allTags];
      ground' := ground'[g := ground'[g] + {id}];
      assert ids[..j + 1][..j] == ids[..j];
      assert Elems(ids[..j + 1]) == Elems(ids[..j]) + {id};
      assert ground[g] + Elems(ids[..j + 1]) == (ground[g] + Elems(ids[..j])) + {id};
      assert ground' == ground[g := ground[g] + Elems(ids[..j + 1])];
    }
    assert ids[..|ids|] == ids;
  }

  // ---------------------------------------------------------------------
  // The classifier

  class TagClassifier {
    var idToTag: map<int, seq<TagClass>>
    var tagClassToIDs: map<string, set<int>>
    var tagClasses: set<string>

    /** The configuration entries the constructor read. */
    ghost var entries: seq<ClassEntry>

    ghost predicate Valid()
      reads this
    {
      && LabelsPresent(entries)
      && idToTag == IdTable(entries)
      && tagClassToIDs == GroundTable(entries)
      && tagClasses == LabelSet(entries)
    }

    /**
     * The table-building loop of the constructor: reads blocks until the
     * first one without labels; each makes its first label a key of
     * `tagClassToIDs`, adds its non-empty labels to `tagClasses`, and adds
     * its class to the list of each of its ids.
     */
    constructor (config: seq<Option<ClassEntry>>)
      requires LabelsPresent(Processed(config))
      ensures Valid() && entries == Processed(config)
    {
      ghost var es := Processed(config);
      var idTo: map<int, seq<TagClass>> := map[];
      var ground: map<string, set<int>> := map[];
      var classes: set<string> := {};
      ghost var done: seq<ClassEntry> := [];
      var i := 0;
      while i < |config| && config[i].Some?
        invariant i <= |es| && done == es[..i]
        invariant LabelsPresent(done)
        invariant idTo == IdTable(done)
        invariant ground == GroundTable(done)
        invariant classes == LabelSet(done)
        decreases |config| - i
      {
        var e := config[i].value;
        assert i < |es| && e == es[i];
        var g := e.labels[0];
        if g !in ground {
          ground := ground[g := {}];
        }
        classes := AddLabels(classes, e.labels);
        idTo, ground := AddIds(idTo, ground, g, e.ids, ClassOf(e));
        TablesStep(done, e);
        PrefixStep(es, i);
        done := done + [e];
        i := i + 1;
      }
      assert done == es;
      idToTag := idTo;
      tagClassToIDs := ground;
      tagClasses := classes;
      entries := done;
    }

    /** The classes configured for `id`, in entry order. */
    function Classes(id: int): seq<TagClass>
      reads this
    {
      Lookup(idToTag, id)
    }

    /**
     * `getIDsForClass`: the ids of the entries whose ground-truth label is
     * `tagClass`; empty for a label that is no entry's ground truth.
     */
    function GetIDsForClass(tagClass: string): (r: set<int>)
      reads this
      requires Valid()
      ensures forall id :: id in r <==>
                exists i :: 0 <= i < |entries| && entries[i].labels[0] == tagClass && id in entries[i].ids
    {
      GroundTableIds(entries, tagClass);
      IdsOf(tagClassToIDs, tagClass)
    }

    /** `getAllClasses`: every non-empty label of every entry, and never `""`. */
    function GetAllClasses(): (r: set<string>)
      reads this
      requires Valid()
      ensures "" !in r
      ensures forall l :: l in r <==> l != "" && exists i :: 0 <= i < |entries| && l in entries[i].labels
    {
      forall l ensures l in tagClasses <==> l != "" && exists i :: 0 <= i < |entries| && l in entries[i].labels {
        LabelSetMembers(entries, l);
      }
      tagClasses
    }

    /**
     * `getClasses`: the union of the labels of all classes of `id`, which
     * may include `""`; empty for an unknown id.
     */
    method GetClasses(id: int) returns (classes: set<string>)
      requires Valid()
      ensures forall l :: l in classes <==> exists i :: 0 <= i < |entries| && id in entries[i].ids && l in entries[i].labels
    {
      IdTableMembers(entries, id);
      classes := {};
      if id !in idToTag {
        return;
      }
      var tcs := idToTag[id];
      for k := 0 to |tcs|
        invariant forall l :: l in classes <==> exists m :: 0 <= m < k && l in tcs[m].labels
      {
        classes := classes + set l | l in tcs[k].labels;
      }
      forall l ensures l in classes <==> exists i :: 0 <= i < |entries| && id in entries[i].ids && l in entries[i].labels {
        if l in classes {
          var m :| 0 <= m < |tcs| && l in tcs[m].labels;
          assert tcs[m] in Lookup(IdTable(entries), id);
        }
        if i :| 0 <= i < |entries| && id in entries[i].ids && l in entries[i].labels {
          assert ClassOf(entries[i]) in tcs;
        }
      }
    }

    /** The first class of `id`, when it has one, comes from the first entry listing `id`. */
    lemma FirstClass(id: int)
      requires Valid()
      ensures Classes(id) == [] <==> forall i :: 0 <= i < |entries| ==> id !in entries[i].ids
      ensures forall i :: FirstEntryWith(entries, id, i) ==> Classes(id)[0] == ClassOf(entries[i])
      ensures forall c :: c in Classes(id) ==> |c.labels| >= 1
    {
      IdTableMembers(entries, id);
      if forall i :: 0 <= i < |entries| ==> id !in entries[i].ids {
        IdTableAbsent(entries, id);
      }
      forall i | FirstEntryWith(entries, id, i) ensures Classes(id) != [] && Classes(id)[0] == ClassOf(entries[i]) {
        IdTableHead(entries, id, i);
      }
    }

    /**
     * `correctClass`: the ground-truth label of the first entry listing
     * `tagID`; `""` for an unknown id.
     */
    function CorrectClass(tagID: int): (r: string)
      reads this
      requires Valid()
      ensures (forall i :: 0 <= i < |entries| ==> tagID !in entries[i].ids) ==> r == ""
      ensures forall i :: FirstEntryWith(entries, tagID, i) ==> r == entries[i].labels[0]
    {
      FirstClass(tagID);
      if tagID !in idToTag then ""
      else
        var tcs := idToTag[tagID];
        if |tcs| < 1 then "" else tcs[0].labels[0]
    }

    /**
     * `correctProbability`: the first probability of the first entry listing
     * `tagID`; 0 for an unknown id. The source throws when that entry has no
     * probabilities.
     */
    function CorrectProbability(tagID: int): (r: real)
      reads this
      requires Valid()
      requires forall i :: FirstEntryWith(entries, tagID, i) ==> |entries[i].probs| >= 1
      ensures (forall i :: 0 <= i < |entries| ==> tagID !in entries[i].ids) ==> r == 0.0
      ensures forall i :: FirstEntryWith(entries, tagID, i) ==> r == entries[i].probs[0]
    {
      FirstClass(tagID);
      FirstEntryExists(entries, tagID);
      if tagID !in idToTag then 0.0
      else
        var tcs := idToTag[tagID];
        if |tcs| < 1 then 0.0 else tcs[0].probs[0]
    }

    /** `getMaxRange`: the maximum range of the first entry listing `tagID`; -1 for an unknown id. */
    function GetMaxRange(tagID: int): (r: real)
      reads this
      requires Valid()
      ensures (forall i :: 0 <= i < |entries| ==> tagID !in entries[i].ids) ==> r == -1.0
      ensures forall i :: FirstEntryWith(entries, tagID, i) ==> r == entries[i].maxRange
    {
      FirstClass(tagID);
      if tagID !in idToTag then -1.0
      else
        var tcs := idToTag[tagID];
        if |tcs| < 1 then -1.0 else tcs[0].maxRange
    }

    /**
     * `sampleRange`: a range drawn within the first entry's [minRange,
     * maxRange] for a known id; -1 for an unknown id.
     */
    function SampleRange(tagID: int, noise: real): (r: real)
      reads this
      requires Valid()
      ensures (forall i :: 0 <= i < |entries| ==> tagID !in entries[i].ids) ==> r == -1.0
      ensures forall i :: FirstEntryWith(entries, tagID, i) && entries[i].minRange <= entries[i].maxRange ==>
                entries[i].minRange <= r <= entries[i].maxRange
    {
      FirstClass(tagID);
      if tagID !in idToTag then -1.0
      else
        var tcs := idToTag[tagID];
        if |tcs| < 1 then -1.0 else RangeSample(tcs[0], noise)
    }

    /**
     * `classifyTag`: one classification per class of `id`, in order, each
     * carrying `id`, the given pose, a label of that class chosen by the
     * label walk, a range and a confidence in [0, 1]; empty for an unknown
     * id; `None` when some class's walk runs past its probabilities.
     */
    method ClassifyTag(id: int, xyzrpy: seq<real>, perfect: bool, draws: seq<Draw>)
      returns (r: Option<seq<TagClassification>>)
      requires Valid()
      requires |draws| >= |Classes(id)|
      ensures (forall i :: 0 <= i < |entries| ==> id !in entries[i].ids) ==> r == Some([])
      ensures r.None? <==> exists k :: 0 <= k < |Classes(id)| &&
                             Choice(Classes(id)[k], Threshold(perfect, draws[k])).None?
      ensures r.Some? ==> |r.value| == |Classes(id)|
      ensures r.Some? ==> forall k :: 0 <= k < |r.value| ==>
                && r.value[k].tagId == id && r.value[k].xyzrpy == xyzrpy
                && r.value[k].name in Classes(id)[k].labels
                && Some(r.value[k].name) ==
                   Choice(Classes(id)[k], Threshold(perfect, draws[k]))
                && r.value[k].range == RangeSample(Classes(id)[k], draws[k].rangeNoise)
                && 0.0 <= r.value[k].confidence <= 1.0
    {
      FirstClass(id);
      var classies: seq<TagClassification> := [];
      if id !in idToTag {
        return Some(classies);
      }
      var tcs := idToTag[id];
      for k := 0 to |tcs|
        invariant |classies| == k
        invariant forall m :: 0 <= m < k ==> Choice(tcs[m], Threshold(perfect, draws[m])).Some?
        invariant forall m :: 0 <= m < k ==>
                    && classies[m].tagId == id && classies[m].xyzrpy == xyzrpy
                    && Some(classies[m].name) == Choice(tcs[m], Threshold(perfect, draws[m]))
                    && classies[m].range == RangeSample(tcs[m], draws[m].rangeNoise)
                    && 0.0 <= classies[m].confidence <= 1.0
      {
        var tc := tcs[k];
        assert tc in Classes(id);
        var v := Threshold(perfect, draws[k]);
        var name := ChooseLabel(tc, v);
        if name.None? {
          return None;
        }
        var classy := TagClassification(name.value, RangeSample(tc, draws[k].rangeNoise), id, xyzrpy,
                                        ConfidenceSample(tc, draws[k].confidenceNoise));
        classies := classies + [classy];
      }
      r := Some(classies);
    }
  }

  /** When no entry is the first to list `id`, no entry lists it at all. */
  lemma FirstEntryExists(es: seq<ClassEntry>, id: int)
    ensures (exists i :: 0 <= i < |es| && id in es[i].ids) ==> exists i :: FirstEntryWith(es, id, i)
  {
    if exists i :: 0 <= i < |es| && id in es[i].ids {
      var i :| 0 <= i < |es| && id in es[i].ids;
      while exists k :: 0 <= k < i && id in es[k].ids
        invariant 0 <= i < |es| && id in es[i].ids
        decreases i
      {
        var j :| 0 <= j < i && id in es[j].ids;
        i := j;
      }
      assert FirstEntryWith(es, id, i);
    }
  }
}
