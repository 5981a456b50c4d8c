/** Noise floors between two runs and the regression gate that uses them
    (src/qc/noiseFloor.ts, src/qc/diffBaselines.ts). */
module BaselineDiff {
  import opened Options
  import opened Sequences

  datatype Key =
    | RecallAt5
    | RecallAt10
    | Mrr
    | NdcgAt5
    | NdcgAt10
    | CoveragePct
    | DuplicationRate
    | NearSemanticRate
    | LatencyP50
    | LatencyP95
    | LatencyMean

  /** The metrics in the order the diff lists them. */
  const KEYS: seq<Key> :=
    [RecallAt5, RecallAt10, Mrr, NdcgAt5, NdcgAt10, CoveragePct, DuplicationRate, NearSemanticRate,
     LatencyP50, LatencyP95, LatencyMean]

  /** Metric readings; a key may be missing (an older archive) or null. */
  type Readings = map<Key, Option<real>>

  function AsNullable(m: Readings, key: Key): Option<real> {
    if key in m then m[key] else None
  }

  function AsNullableOf(m: Option<Readings>, key: Key): Option<real> {
    if m.Some? then AsNullable(m.value, key) else None
  }

  function Abs(x: real): real {
    if x < 0.0 then -x else x
  }

  // ---- noise floor ----

  /** One entry of a floor in memory: no data, a difference with a missing reading, or a difference. */
  datatype Gap = NoData | NotANumber | Gap(delta: real)

  function GapAt(a: Readings, b: Readings, key: Key): Gap
    requires key in a
  {
    if a[key].None? then NoData
    else if key !in b then NotANumber
    else if b[key].None? then NoData
    else Gap(Abs(b[key].value - a[key].value))
  }

  function FloorOf(a: Readings, b: Readings): map<Key, Gap> {
    map key | key in a :: GapAt(a, b, key)
  }

  /** What an archive keeps of it: JSON has no NaN and writes null. */
  function Stored(floor: map<Key, Gap>): Readings {
    map key | key in floor :: if floor[key].Gap? then Some(floor[key].delta) else None
  }

  /** An archived floor is the difference where both runs have the metric and null elsewhere. */
  lemma StoredFloor(a: Readings, b: Readings, key: Key)
    ensures AsNullable(Stored(FloorOf(a, b)), key) ==
            var v1, v2 := AsNullable(a, key), AsNullable(b, key);
            if v1.None? || v2.None? then None else Some(Abs(v2.value - v1.value))
  {
    if key in a {
      assert Stored(FloorOf(a, b))[key] == if GapAt(a, b, key).Gap? then Some(GapAt(a, b, key).delta) else None;
    }
  }

  method ComputeNoiseFloor(control: map<string, Readings>, new_: map<string, Readings>)
    returns (out: map<string, map<Key, Gap>>)
    ensures forall s :: s in out <==> s in control && s in new_
    ensures forall s | s in out :: out[s] == FloorOf(control[s], new_[s])
  {
    out := map[];
    var todo := control.Keys + new_.Keys;
    while todo != {}
      invariant todo <= control.Keys + new_.Keys
      invariant forall s :: s in out <==> s in control && s in new_ && s !in todo
      invariant forall s | s in out :: out[s] == FloorOf(control[s], new_[s])
      decreases |todo|
    {
      var s :| s in todo;
      todo := todo - {s};
      if s !in control || s !in new_ {
        continue;
      }
      var floor := SurfaceFloor(control[s], new_[s]);
      out := out[s := floor];
    }
  }

  method SurfaceFloor(a: Readings, b: Readings) returns (floor: map<Key, Gap>)
    ensures floor == FloorOf(a, b)
  {
    floor := map[];
    var todo := a.Keys;
    while todo != {}
      invariant todo <= a.Keys
      invariant forall key :: key in floor <==> key in a && key !in todo
      invariant forall key | key in floor :: floor[key] == GapAt(a, b, key)
      decreases |todo|
    {
      var key :| key in todo;
      todo := todo - {key};
      if a[key].None? || (key in b && b[key].None?) {
        floor := floor[key := NoData];
      } else if key !in b {
        floor := floor[key := NotANumber];
      } else {
        floor := floor[key := Gap(Abs(b[key].value - a[key].value))];
      }
    }
  }

  /** The larger of the two archives' floors; null when neither has one. */
  function EffectiveNoiseFloor(key: Key, fromNF: Option<Readings>, toNF: Option<Readings>): Option<real> {
    var fv, tv := AsNullableOf(fromNF, key), AsNullableOf(toNF, key);
    if fv.None? && tv.None? then None
    else if fv.None? then tv
    else if tv.None? then fv
    else if fv.value >= tv.value then fv else tv
  }

  // ---- regression rules ----

  /** Negative: an absolute drop. Positive: a relative rise. */
  function Rule(key: Key): Option<real> {
    match key
    case NdcgAt10 => Some(-0.05)
    case RecallAt10 => Some(-0.05)
    case LatencyP95 => Some(0.20)
    case _ => None
  }

  function PctChange(from: Option<real>, to: Option<real>): Option<real> {
    if from.None? || to.None? then None
    else if from.value == 0.0 then if to.value == 0.0 then Some(0.0) else None
    else Some((to.value - from.value) / Abs(from.value) * 100.0)
  }

  predicate BreachedRegression(key: Key, before: Option<real>, after: Option<real>) {
    var rule := Rule(key);
    if rule.None? || before.None? || after.None? then false
    else if rule.value < 0.0 then after.value - before.value <= rule.value
    else
      var pct := PctChange(before, after);
      pct.Some? && pct.value / 100.0 >= rule.value
  }

  predicate WithinFloor(before: Option<real>, after: Option<real>, nf: Option<real>) {
    before.Some? && after.Some? && nf.Some? && Abs(after.value - before.value) <= nf.value
  }

  predicate Flags(key: Key, a: Readings, b: Readings, fromNF: Option<Readings>, toNF: Option<Readings>) {
    var before, after := AsNullable(a, key), AsNullable(b, key);
    BreachedRegression(key, before, after) && !WithinFloor(before, after, EffectiveNoiseFloor(key, fromNF, toNF))
  }

  /** The regression list of one surface, from the loop over all metrics. */
  method DiffSurface(fromA: Option<Readings>, toA: Option<Readings>, fromNF: Option<Readings>, toNF: Option<Readings>)
    returns (regressions: seq<Key>)
    ensures forall key :: key in regressions <==>
                          fromA.Some? && toA.Some? && Flags(key, fromA.value, toA.value, fromNF, toNF)
    ensures forall i, j | 0 <= i < j < |regressions| :: Index(regressions[i]) < Index(regressions[j])
  {
    regressions := [];
    if fromA.None? || toA.None? {
      return;
    }
    for i := 0 to |KEYS|
      invariant forall key :: key in regressions <==>
                              key in KEYS[..i] && Flags(key, fromA.value, toA.value, fromNF, toNF)
      invariant forall k, l | 0 <= k < l < |regressions| :: Index(regressions[k]) < Index(regressions[l])
      invariant forall k | 0 <= k < |regressions| :: Index(regressions[k]) < i
    {
      var key := KEYS[i];
      assert Index(key) == i;
      assert KEYS[..i + 1] == KEYS[..i] + [key];
      var before, after := AsNullable(fromA.value, key), AsNullable(toA.value, key);
      var nf := EffectiveNoiseFloor(key, fromNF, toNF);
      if BreachedRegression(key, before, after) && !WithinFloor(before, after, nf) {
        regressions := regressions + [key];
      }
    }
    assert KEYS[..|KEYS|] == KEYS;
    forall key: Key
      ensures key in KEYS
    {
      EveryKeyIsListed(key);
    }
  }

  function Index(key: Key): nat {
    match key
    case RecallAt5 => 0
    case RecallAt10 => 1
    case Mrr => 2
    case NdcgAt5 => 3
    case NdcgAt10 => 4
    case CoveragePct => 5
    case DuplicationRate => 6
    case NearSemanticRate => 7
    case LatencyP50 => 8
    case LatencyP95 => 9
    case LatencyMean => 10
  }

  lemma EveryKeyIsListed(key: Key)
    ensures Index(key) < |KEYS| && KEYS[Index(key)] == key
  {
  }

  // ---- what the rules flag ----

  lemma RelativeRise(b: real, a: real)
    requires b != 0.0
    ensures (a - b) / Abs(b) * 100.0 / 100.0 >= 0.20 <==> a - b >= 0.20 * Abs(b)
  {
    var q := (a - b) / Abs(b);
    assert q * Abs(b) == a - b;
    assert (q - 0.20) * Abs(b) == (a - b) - 0.20 * Abs(b);
  }

  /** nDCG@10 and recall@10 are flagged from a drop of exactly 0.05 on, p95 from a rise of
      exactly 20% on; a rise from zero is never flagged, and no other metric ever is. */
  lemma BreachedIff(key: Key, before: Option<real>, after: Option<real>)
    ensures BreachedRegression(key, before, after) <==>
            before.Some? && after.Some? &&
            (((key.NdcgAt10? || key.RecallAt10?) && before.value - after.value >= 0.05) ||
             (key.LatencyP95? && before.value != 0.0 && after.value - before.value >= 0.20 * Abs(before.value)))
  {
    if before.Some? && after.Some? && before.value != 0.0 {
      RelativeRise(before.value, after.value);
    }
  }

  /** A drop of exactly 0.05 and a rise of exactly 20% are flagged already. */
  lemma BoundsAreFlagged()
    ensures BreachedRegression(NdcgAt10, Some(0.50), Some(0.45))
    ensures BreachedRegression(RecallAt10, Some(0.50), Some(0.45))
    ensures BreachedRegression(LatencyP95, Some(100.0), Some(120.0))
  {
  }

  /** No metric is a regression in both directions. */
  lemma NeverBothWays(key: Key, a: Readings, b: Readings, nf1: Option<Readings>, nf2: Option<Readings>,
                      nf3: Option<Readings>, nf4: Option<Readings>)
    ensures !(Flags(key, a, b, nf1, nf2) && Flags(key, b, a, nf3, nf4))
  {
    BreachedIff(key, AsNullable(a, key), AsNullable(b, key));
    BreachedIff(key, AsNullable(b, key), AsNullable(a, key));
  }

  /** `hi` has a floor wherever `lo` has one, and none is lower. */
  ghost predicate FloorsAtLeast(lo: Option<Readings>, hi: Option<Readings>) {
    forall key: Key :: AsNullableOf(lo, key).Some? ==>
                       AsNullableOf(hi, key).Some? && AsNullableOf(lo, key).value <= AsNullableOf(hi, key).value
  }

  lemma EffectiveRises(key: Key, fromLo: Option<Readings>, toLo: Option<Readings>,
                       fromHi: Option<Readings>, toHi: Option<Readings>)
    requires FloorsAtLeast(fromLo, fromHi) && FloorsAtLeast(toLo, toHi)
    ensures var lo, hi := EffectiveNoiseFloor(key, fromLo, toLo), EffectiveNoiseFloor(key, fromHi, toHi);
            lo.Some? ==> hi.Some? && lo.value <= hi.value
  {
    assert AsNullableOf(fromLo, key).Some? ==> AsNullableOf(fromHi, key).Some?;
    assert AsNullableOf(toLo, key).Some? ==> AsNullableOf(toHi, key).Some?;
  }

  /** Raising floors only removes flags. */
  lemma RaisingFloorsRemovesFlags(key: Key, a: Readings, b: Readings,
                                  fromLo: Option<Readings>, toLo: Option<Readings>,
                                  fromHi: Option<Readings>, toHi: Option<Readings>)
    requires FloorsAtLeast(fromLo, fromHi) && FloorsAtLeast(toLo, toHi)
    ensures Flags(key, a, b, fromHi, toHi) ==> Flags(key, a, b, fromLo, toLo)
  {
    EffectiveRises(key, fromLo, toLo, fromHi, toHi);
  }

  // ---- whole archives ----

  /** An object with its keys in insertion order. */
  datatype Record<V> = Record(keys: seq<string>, at: map<string, V>)

  ghost predicate WellFormed<V>(r: Record<V>) {
    NoRepeats(r.keys) && forall k :: k in r.keys <==> k in r.at
  }

  /** A surface's readings and, when generation was judged, its mean score per metric. */
  datatype SurfaceAggregate = SurfaceAggregate(metrics: Readings, genMeans: Option<Record<real>>)

  datatype Archive = Archive(surfaces: Record<SurfaceAggregate>, noiseFloor: map<string, Readings>)

  ghost predicate WellFormedArchive(x: Archive) {
    WellFormed(x.surfaces) && forall s | s in x.surfaces.at :: WellFormedGen(GenAt(x, s))
  }

  ghost predicate WellFormedGen(g: Option<Record<real>>) {
    g.Some? ==> WellFormed(g.value)
  }

  /** All keys of two objects: those of the first, then the others. */
  function KeysOfBoth<V, W>(a: Option<Record<V>>, b: Option<Record<W>>): (keys: seq<string>)
    ensures NoRepeats(keys)
  {
    var all := (if a.Some? then a.value.keys else []) + (if b.Some? then b.value.keys else []);
    SetOfKeepsOrder(all);
    InOrderHasNoRepeats(SetOf(all), all);
    SetOf(all)
  }

  datatype Regression = Retrieval(surface: string, key: Key) | Generation(surface: string, metric: string)

  const GEN_REGRESSION_PCT_MAX := 0.05

  predicate GenFlags(before: real, after: real) {
    after - before < -before * GEN_REGRESSION_PCT_MAX
  }

  predicate SharedGenFlag(fromG: map<string, real>, toG: map<string, real>, m: string) {
    m in fromG && m in toG && GenFlags(fromG[m], toG[m])
  }

  ghost predicate GenFlagged(fromG: Option<Record<real>>, toG: Option<Record<real>>, m: string) {
    fromG.Some? && toG.Some? && SharedGenFlag(fromG.value.at, toG.value.at, m)
  }

  /** Only metrics summarised on both sides are compared. */
  method DiffGenSurface(fromG: Option<Record<real>>, toG: Option<Record<real>>) returns (regressions: seq<string>)
    requires WellFormedGen(fromG) && WellFormedGen(toG)
    ensures forall m :: m in regressions <==> GenFlagged(fromG, toG, m)
    ensures InOrderOf(regressions, KeysOfBoth(fromG, toG))
  {
    regressions := [];
    if fromG.None? || toG.None? {
      return;
    }
    var allMetrics := KeysOfBoth(fromG, toG);
    var f, t := fromG.value.at, toG.value.at;
    for i := 0 to |allMetrics|
      invariant forall m :: m in regressions <==> m in allMetrics[..i] && SharedGenFlag(f, t, m)
      invariant InOrderOf(regressions, allMetrics)
    {
      var m := allMetrics[i];
      InOrderSnoc(regressions, allMetrics, i);
      assert allMetrics[..i + 1] == allMetrics[..i] + [m];
      if m !in f || m !in t {
        continue;
      }
      var delta := t[m] - f[m];
      var regressionThresh := -f[m] * GEN_REGRESSION_PCT_MAX;
      if delta < regressionThresh {
        regressions := regressions + [m];
      }
    }
    assert allMetrics[..|allMetrics|] == allMetrics;
  }

  function MetricsAt(x: Archive, s: string): Option<Readings> {
    if s in x.surfaces.at then Some(x.surfaces.at[s].metrics) else None
  }

  function GenAt(x: Archive, s: string): Option<Record<real>> {
    if s in x.surfaces.at then x.surfaces.at[s].genMeans else None
  }

  function FloorIn(x: Archive, s: string): Option<Readings> {
    if s in x.noiseFloor then Some(x.noiseFloor[s]) else None
  }

  ghost predicate IsRegression(a: Archive, b: Archive, r: Regression) {
    match r
    case Retrieval(s, key) =>
      && s in a.surfaces.at && s in b.surfaces.at
      && Flags(key, a.surfaces.at[s].metrics, b.surfaces.at[s].metrics, FloorIn(a, s), FloorIn(b, s))
    case Generation(s, m) => GenFlagged(GenAt(a, s), GenAt(b, s), m)
  }

  /** The order of the list: by surface, in each first the retrieval metrics in their
      fixed order and then the generation metrics, those of `from` first. */
  ghost predicate Before(a: Archive, b: Archive, r: Regression, q: Regression) {
    if r.surface != q.surface then
      Position(SurfaceNames(a, b), r.surface) < Position(SurfaceNames(a, b), q.surface)
    else if r.Retrieval? && q.Retrieval? then Index(r.key) < Index(q.key)
    else if r.Generation? && q.Generation? then
      var names := KeysOfBoth(GenAt(a, r.surface), GenAt(b, r.surface));
      Position(names, r.metric) < Position(names, q.metric)
    else r.Retrieval?
  }

  function SurfaceNames(a: Archive, b: Archive): (names: seq<string>)
    ensures NoRepeats(names)
  {
    KeysOfBoth(Some(a.surfaces), Some(b.surfaces))
  }

  ghost predicate Listed(a: Archive, b: Archive, s: seq<Regression>) {
    forall i, j | 0 <= i < j < |s| :: Before(a, b, s[i], s[j])
  }

  /** The regressions that `renderDiff` lists: all of them, each once, in order. */
  method RenderDiff(fromA: Archive, toA: Archive) returns (all: seq<Regression>)
    requires WellFormedArchive(fromA) && WellFormedArchive(toA)
    ensures forall r :: r in all <==> IsRegression(fromA, toA, r)
    ensures Listed(fromA, toA, all)
  {
    all := [];
    var names := SurfaceNames(fromA, toA);
    for i := 0 to |names|
      invariant forall r: Regression :: r in all <==> r.surface in names[..i] && IsRegression(fromA, toA, r)
      invariant Listed(fromA, toA, all)
    {
      assert names[..i + 1] == names[..i] + [names[i]];
      var found := DiffOne(fromA, toA, names[i]);
      ListedConcat(fromA, toA, all, found, i);
      all := all + found;
    }
    assert names[..|names|] == names;
  }

  lemma ListedConcat(a: Archive, b: Archive, all: seq<Regression>, found: seq<Regression>, i: nat)
    requires Listed(a, b, all) && Listed(a, b, found)
    requires i < |SurfaceNames(a, b)|
    requires forall r | r in all :: r.surface in SurfaceNames(a, b)[..i]
    requires forall r | r in found :: r.surface == SurfaceNames(a, b)[i]
    ensures Listed(a, b, all + found)
  {
    var names := SurfaceNames(a, b);
    PositionAt(names, i);
    forall j | 0 <= j < |all|
      ensures Position(names, all[j].surface) < i
    {
      PositionBefore(names, all[j].surface, i);
    }
  }

  /** One pass of that loop. */
  method DiffOne(fromA: Archive, toA: Archive, s: string) returns (found: seq<Regression>)
    requires WellFormedArchive(fromA) && WellFormedArchive(toA)
    ensures forall r: Regression :: r in found <==> r.surface == s && IsRegression(fromA, toA, r)
    ensures Listed(fromA, toA, found)
  {
    var keys := DiffSurface(MetricsAt(fromA, s), MetricsAt(toA, s), FloorIn(fromA, s), FloorIn(toA, s));
    assert WellFormedGen(GenAt(fromA, s)) && WellFormedGen(GenAt(toA, s));
    var gens := DiffGenSurface(GenAt(fromA, s), GenAt(toA, s));
    found := Labelled(s, keys, gens);
    LabelledListed(fromA, toA, s, keys, gens);
    forall r: Regression
      ensures r in found <==> r.surface == s && IsRegression(fromA, toA, r)
    {
      LabelledMembers(s, keys, gens, r);
    }
  }

  function Labelled(s: string, keys: seq<Key>, gens: seq<string>): seq<Regression> {
    seq(|keys|, i requires 0 <= i < |keys| => Retrieval(s, keys[i]))
    + seq(|gens|, i requires 0 <= i < |gens| => Generation(s, gens[i]))
  }

  lemma LabelledMembers(s: string, keys: seq<Key>, gens: seq<string>, r: Regression)
    ensures r in Labelled(s, keys, gens) <==>
            r.surface == s && if r.Retrieval? then r.key in keys else r.metric in gens
  {
    var found := Labelled(s, keys, gens);
    if r.Retrieval? && r.surface == s && r.key in keys {
      var i :| 0 <= i < |keys| && keys[i] == r.key;
      assert found[i] == r;
    }
    if r.Generation? && r.surface == s && r.metric in gens {
      var i :| 0 <= i < |gens| && gens[i] == r.metric;
      assert found[|keys| + i] == r;
    }
  }

  lemma LabelledListed(a: Archive, b: Archive, s: string, keys: seq<Key>, gens: seq<string>)
    requires forall i, j | 0 <= i < j < |keys| :: Index(keys[i]) < Index(keys[j])
    requires InOrderOf(gens, KeysOfBoth(GenAt(a, s), GenAt(b, s)))
    ensures Listed(a, b, Labelled(s, keys, gens))
  {
  }

  function NoiseFloorOf(control: Record<SurfaceAggregate>, new_: Record<SurfaceAggregate>): map<string, Readings> {
    map s | s in control.at && s in new_.at :: Stored(FloorOf(control.at[s].metrics, new_.at[s].metrics))
  }

  lemma OwnFloorHides(key: Key, a: Readings, b: Readings, fromNF: Option<Readings>, toNF: Option<Readings>)
    requires fromNF == Some(Stored(FloorOf(a, b))) || toNF == Some(Stored(FloorOf(a, b)))
    ensures !Flags(key, a, b, fromNF, toNF) && !Flags(key, b, a, fromNF, toNF)
  {
    StoredFloor(a, b, key);
  }

  /** Under the floor of one control invocation no retrieval metric of its two runs is a
      regression, either way; generation means are not covered by the floor, so the
      diff is empty exactly when no shared generation mean dropped by more than 5%. */
  lemma ControlPairIsQuietIff(control: Archive, new_: Archive)
    requires control.noiseFloor == NoiseFloorOf(control.surfaces, new_.surfaces)
             || new_.noiseFloor == NoiseFloorOf(control.surfaces, new_.surfaces)
    ensures forall s, key :: !IsRegression(control, new_, Retrieval(s, key))
                             && !IsRegression(new_, control, Retrieval(s, key))
    ensures (forall r :: !IsRegression(control, new_, r)) <==>
            forall s, m | GenAt(control, s).Some? && GenAt(new_, s).Some?
                          && m in GenAt(control, s).value.at && m in GenAt(new_, s).value.at ::
              GenAt(new_, s).value.at[m] >= 0.95 * GenAt(control, s).value.at[m]
  {
    forall s, key
      ensures !IsRegression(control, new_, Retrieval(s, key)) && !IsRegression(new_, control, Retrieval(s, key))
    {
      if s in control.surfaces.at && s in new_.surfaces.at {
        var a, b := control.surfaces.at[s].metrics, new_.surfaces.at[s].metrics;
        OwnFloorHides(key, a, b, FloorIn(control, s), FloorIn(new_, s));
        OwnFloorHides(key, a, b, FloorIn(new_, s), FloorIn(control, s));
      }
    }
    GenQuietIff(control, new_);
  }

  lemma GenQuietIff(a: Archive, b: Archive)
    requires forall s, key :: !IsRegression(a, b, Retrieval(s, key))
    ensures (forall r :: !IsRegression(a, b, r)) <==>
            forall s, m | GenAt(a, s).Some? && GenAt(b, s).Some?
                          && m in GenAt(a, s).value.at && m in GenAt(b, s).value.at ::
              GenAt(b, s).value.at[m] >= 0.95 * GenAt(a, s).value.at[m]
  {
    forall s, m
      ensures IsRegression(a, b, Generation(s, m)) <==>
              GenAt(a, s).Some? && GenAt(b, s).Some? && m in GenAt(a, s).value.at && m in GenAt(b, s).value.at
              && !(GenAt(b, s).value.at[m] >= 0.95 * GenAt(a, s).value.at[m])
    {
    }
    forall r: Regression
      ensures IsRegression(a, b, r) ==> r.Generation?
    {
      if r.Retrieval? {
        assert !IsRegression(a, b, Retrieval(r.surface, r.key));
      }
    }
    if !(forall s, m | GenAt(a, s).Some? && GenAt(b, s).Some?
                       && m in GenAt(a, s).value.at && m in GenAt(b, s).value.at ::
           GenAt(b, s).value.at[m] >= 0.95 * GenAt(a, s).value.at[m]) {
      var s, m :| GenAt(a, s).Some? && GenAt(b, s).Some? && m in GenAt(a, s).value.at && m in GenAt(b, s).value.at
                  && !(GenAt(b, s).value.at[m] >= 0.95 * GenAt(a, s).value.at[m]);
      assert IsRegression(a, b, Generation(s, m));
    }
  }

  /** A generation mean that is not negative is never flagged both ways, nor against itself. */
  lemma GenNeverBothWays(f: real, t: real)
    requires f >= 0.0 || t >= 0.0
    ensures !(GenFlags(f, t) && GenFlags(t, f))
  {
  }

  /** A control pair whose diff is not empty: one generation mean fell from 1 to 0.9. */
  lemma ControlPairCanBeFlagged()
    ensures var means := (x: real) => SurfaceAggregate(map[], Some(Record(["faithfulness"], map["faithfulness" := x])));
            var control := Record(["lessons"], map["lessons" := means(1.0)]);
            var new_ := Record(["lessons"], map["lessons" := means(0.9)]);
            var floor := NoiseFloorOf(control, new_);
            IsRegression(Archive(control, floor), Archive(new_, floor), Generation("lessons", "faithfulness"))
  {
  }

  // ---- the whole list, read off the archives ----

  predicate Reads(m: Readings, key: Key, x: real) {
    key in m && m[key] == Some(x)
  }

  /** A drop of at least 0.05, or a rise of at least a fifth of the earlier value's size. */
  predicate Worsens(key: Key, x: real, y: real) {
    || ((key == NdcgAt10 || key == RecallAt10) && x - y >= 0.05)
    || (key == LatencyP95 && (if x > 0.0 then y - x >= 0.2 * x else x < 0.0 && y - x >= 0.2 * (-x)))
  }

  /** The archive has a floor for the metric, and the change does not exceed it. */
  ghost predicate Covers(noiseFloor: map<string, Readings>, s: string, key: Key, x: real, y: real) {
    s in noiseFloor && exists f :: Reads(noiseFloor[s], key, f) && -f <= y - x <= f
  }

  ghost predicate WorsensIn(a: Archive, b: Archive, s: string, key: Key, x: real, y: real) {
    && s in a.surfaces.at && s in b.surfaces.at
    && Reads(a.surfaces.at[s].metrics, key, x) && Reads(b.surfaces.at[s].metrics, key, y)
    && Worsens(key, x, y) && !Covers(a.noiseFloor, s, key, x, y) && !Covers(b.noiseFloor, s, key, x, y)
  }

  lemma FloorCovers(x: Archive, s: string, key: Key, v: real, y: real)
    ensures Covers(x.noiseFloor, s, key, v, y) <==>
            var f := AsNullableOf(FloorIn(x, s), key); f.Some? && -f.value <= y - v <= f.value
  {
    var f := AsNullableOf(FloorIn(x, s), key);
    if f.Some? && -f.value <= y - v <= f.value {
      assert Reads(x.noiseFloor[s], key, f.value);
    }
  }

  lemma HigherFloor(key: Key, fromNF: Option<Readings>, toNF: Option<Readings>, x: real, y: real)
    ensures WithinFloor(Some(x), Some(y), EffectiveNoiseFloor(key, fromNF, toNF)) <==>
            var f, t := AsNullableOf(fromNF, key), AsNullableOf(toNF, key);
            (f.Some? && -f.value <= y - x <= f.value) || (t.Some? && -t.value <= y - x <= t.value)
  {
  }

  /** A retrieval metric is listed exactly when it worsened past its rule and past every floor there is. */
  lemma RetrievalRegressionIff(a: Archive, b: Archive, s: string, key: Key)
    ensures IsRegression(a, b, Retrieval(s, key)) <==> exists x, y :: WorsensIn(a, b, s, key, x, y)
  {
    if s in a.surfaces.at && s in b.surfaces.at {
      var before := AsNullable(a.surfaces.at[s].metrics, key);
      var after := AsNullable(b.surfaces.at[s].metrics, key);
      BreachedIff(key, before, after);
      if before.Some? && after.Some? {
        HigherFloor(key, FloorIn(a, s), FloorIn(b, s), before.value, after.value);
        FloorCovers(a, s, key, before.value, after.value);
        FloorCovers(b, s, key, before.value, after.value);
        assert IsRegression(a, b, Retrieval(s, key)) <==> WorsensIn(a, b, s, key, before.value, after.value);
      }
    }
  }

  ghost predicate HasMean(a: Archive, s: string, m: string, x: real) {
    && s in a.surfaces.at && a.surfaces.at[s].genMeans.Some?
    && m in a.surfaces.at[s].genMeans.value.at && a.surfaces.at[s].genMeans.value.at[m] == x
  }

  /** A generation metric is listed exactly when both sides have a mean and the later one is below
      95% of the earlier. */
  lemma GenerationRegressionIff(a: Archive, b: Archive, s: string, m: string)
    ensures IsRegression(a, b, Generation(s, m)) <==>
            exists x, y :: HasMean(a, s, m, x) && HasMean(b, s, m, y) && y < 0.95 * x
  {
    if IsRegression(a, b, Generation(s, m)) {
      var x, y := a.surfaces.at[s].genMeans.value.at[m], b.surfaces.at[s].genMeans.value.at[m];
      assert HasMean(a, s, m, x) && HasMean(b, s, m, y);
    }
  }

  /** The keys of the second object that the first lacks, in order. */
  function OnlyIn(b: seq<string>, a: seq<string>): seq<string> {
    if b == [] then [] else (if b[0] in a then [] else [b[0]]) + OnlyIn(b[1..], a)
  }

  lemma {:induction false} OnlyInSnoc(b: seq<string>, x: string, a: seq<string>)
    ensures OnlyIn(b + [x], a) == OnlyIn(b, a) + (if x in a then [] else [x])
  {
    if b == [] {
      assert [] + [x] == [x] && [x][1..] == [];
    } else {
      assert (b + [x])[1..] == b[1..] + [x];
      OnlyInSnoc(b[1..], x, a);
    }
  }

  lemma {:induction false} DistinctKeys(a: seq<string>)
    requires NoRepeats(a)
    ensures SetOf(a) == a
  {
    if a != [] {
      var n := |a| - 1;
      DistinctKeys(a[..n]);
      assert a == a[..n] + [a[n]];
    }
  }

  lemma {:induction false} JoinedKeys(a: seq<string>, b: seq<string>)
    requires NoRepeats(a) && NoRepeats(b)
    ensures SetOf(a + b) == a + OnlyIn(b, a)
    decreases |b|
  {
    if b == [] {
      assert a + b == a;
      DistinctKeys(a);
    } else {
      var n := |b| - 1;
      var x := b[n];
      JoinedKeys(a, b[..n]);
      NextKey(a + b[..n], x);
      assert a + b == a + b[..n] + [x] && b == b[..n] + [x];
      OnlyInSnoc(b[..n], x, a);
      assert x in a + b[..n] <==> x in a;
    }
  }

  lemma NextKey(s: seq<string>, x: string)
    ensures SetOf(s + [x]) == if x in s then SetOf(s) else SetOf(s) + [x]
  {
    assert (s + [x])[..|s|] == s;
  }

  /** Surfaces, and in each the generation metrics, are gone through in the order of the first
      archive, then those that only the second has in its order. */
  lemma KeysInOrder<V, W>(a: Record<V>, b: Record<W>)
    requires WellFormed(a) && WellFormed(b)
    ensures KeysOfBoth(Some(a), Some(b)) == a.keys + OnlyIn(b.keys, a.keys)
  {
    JoinedKeys(a.keys, b.keys);
  }

  /** Of one surface recall is listed before nDCG and both before latency; nothing else is listed. */
  lemma ListedInOrder(a: Archive, b: Archive, all: seq<Regression>, i: nat, j: nat)
    requires Listed(a, b, all) && forall r | r in all :: IsRegression(a, b, r)
    requires i < j < |all| && all[i].Retrieval? && all[j].Retrieval? && all[i].surface == all[j].surface
    ensures var pair := (all[i].key, all[j].key);
            pair == (RecallAt10, NdcgAt10) || pair == (RecallAt10, LatencyP95) || pair == (NdcgAt10, LatencyP95)
  {
    var s := all[i].surface;
    assert all[i] in all && all[j] in all;
    RetrievalRegressionIff(a, b, s, all[i].key);
    RetrievalRegressionIff(a, b, s, all[j].key);
    assert Before(a, b, all[i], all[j]);
  }

  /** An archived floor reads exactly the size of the difference of two readings. */
  lemma StoredFloorReads(a: Readings, b: Readings, key: Key, f: real)
    ensures Reads(Stored(FloorOf(a, b)), key, f) <==>
            exists x, y :: Reads(a, key, x) && Reads(b, key, y) && f == if x <= y then y - x else x - y
  {
    if key in a && key in b && a[key].Some? && b[key].Some? {
      assert Reads(a, key, a[key].value) && Reads(b, key, b[key].value);
    }
  }
}
