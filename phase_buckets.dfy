/** `bucketPhaseValues` of packages/cli/src/helpers/create-consumable-html.ts:
    the observations of many measured runs grouped into one list per phase
    name, each list then sorted by `Array.prototype.sort()` without a comparator. */
module PhaseBuckets {
  import opened Options
  import Ordering
  import JsObject

  /** The implicit whole-run phase (`PAGE_LOAD_TIME`). */
  const PageLoadTime: string := "duration"

  /** One (phase, start, duration) triple of a sample. */
  datatype PhaseData = PhaseData(phase: string, start: nat, duration: nat)

  /** One measured run. */
  datatype Sample = Sample(duration: nat, js: nat, phases: seq<PhaseData>)

  /** The `buckets` object: its own property names in creation order and the
      list each name holds. */
  datatype Buckets = Buckets(keys: seq<string>, lists: map<string, seq<nat>>)

  ghost predicate Distinct(s: seq<string>) {
    forall i, j :: 0 <= i < j < |s| ==> s[i] != s[j]
  }

  /** Every name is listed once, and exactly the listed names hold a list. */
  ghost predicate Wf(b: Buckets) {
    && Distinct(b.keys)
    && forall k :: k in b.lists <==> k in b.keys
  }

  /** The default `valueGen`: the phase's own duration. */
  function PhaseDuration(p: PhaseData): nat {
    p.duration
  }

  /** The list under `k`, or the empty list when there is none. */
  function Get(b: Buckets, k: string): seq<nat> {
    if k in b.lists then b.lists[k] else []
  }

  /** `buckets[k].push(v)`, creating the list (and the property) when `k` is new. */
  function Push(b: Buckets, k: string, v: nat): Buckets {
    if k in b.lists then Buckets(b.keys, b.lists[k := b.lists[k] + [v]])
    else Buckets(b.keys + [k], b.lists[k := [v]])
  }

  /** `{ [PAGE_LOAD_TIME]: [] }` */
  const Initial: Buckets := Buckets([PageLoadTime], map[PageLoadTime := []])

  /** The inner `forEach`: one push per phase triple, in order. */
  function AddPhases(b: Buckets, phases: seq<PhaseData>, valueGen: PhaseData -> nat): Buckets {
    if |phases| == 0 then b
    else
      var last := phases[|phases| - 1];
      Push(AddPhases(b, phases[..|phases| - 1], valueGen), last.phase, valueGen(last))
  }

  /** One iteration of the outer `forEach`. */
  function AddSample(b: Buckets, sample: Sample, valueGen: PhaseData -> nat): Buckets {
    AddPhases(Push(b, PageLoadTime, sample.duration), sample.phases, valueGen)
  }

  /** The buckets after every sample has been consumed, before sorting. */
  function Collect(samples: seq<Sample>, valueGen: PhaseData -> nat): Buckets {
    if |samples| == 0 then Initial
    else AddSample(Collect(samples[..|samples| - 1], valueGen), samples[|samples| - 1], valueGen)
  }

  /** What `Object.keys(buckets).forEach(phase => buckets[phase].sort())` leaves. */
  function SortAll(b: Buckets): Buckets {
    Buckets(b.keys, map k | k in b.lists :: Ordering.DefaultSort(b.lists[k]))
  }

  /** The phase names of one sample, in order. */
  function Names(phases: seq<PhaseData>): seq<string> {
    seq(|phases|, j requires 0 <= j < |phases| => phases[j].phase)
  }

  /** The phase names of all samples, in the order the loops visit them. */
  function PhaseNames(samples: seq<Sample>): seq<string> {
    if |samples| == 0 then []
    else PhaseNames(samples[..|samples| - 1]) + Names(samples[|samples| - 1].phases)
  }

  /** Some name is one that `{}` inherits, so `buckets[name] || []` is not an array. */
  predicate TouchesPrototype(names: seq<string>) {
    exists k :: k in names && k in JsObject.ObjectPrototypeProperties
  }

  /** The outcome of `bucketPhaseValues(samples, valueGen)`. */
  function Bucketed(samples: seq<Sample>, valueGen: PhaseData -> nat): Result<Buckets, JsObject.TypeError> {
    if TouchesPrototype(PhaseNames(samples)) then Err(JsObject.PushOnNonArray)
    else Ok(SortAll(Collect(samples, valueGen)))
  }

  // ---------------------------------------------------------------------------
  // Reference definitions, independent of the bucket object.

  /** The values one sample's triples write under the name `k`, in order. */
  function PhaseValues(phases: seq<PhaseData>, valueGen: PhaseData -> nat, k: string): seq<nat> {
    if |phases| == 0 then []
    else
      var last := phases[|phases| - 1];
      PhaseValues(phases[..|phases| - 1], valueGen, k) + (if last.phase == k then [valueGen(last)] else [])
  }

  function SampleValues(sample: Sample, valueGen: PhaseData -> nat, k: string): seq<nat> {
    (if k == PageLoadTime then [sample.duration] else []) + PhaseValues(sample.phases, valueGen, k)
  }

  /** Every value written under the name `k`, in writing order. */
  function ValuesFor(samples: seq<Sample>, valueGen: PhaseData -> nat, k: string): seq<nat> {
    if |samples| == 0 then []
    else ValuesFor(samples[..|samples| - 1], valueGen, k) + SampleValues(samples[|samples| - 1], valueGen, k)
  }

  /** The whole-run durations of the samples, in order. */
  function Durations(samples: seq<Sample>): seq<nat> {
    if |samples| == 0 then []
    else Durations(samples[..|samples| - 1]) + [samples[|samples| - 1].duration]
  }

  /** First occurrences only, in order. */
  function Dedup(xs: seq<string>): seq<string> {
    if |xs| == 0 then []
    else
      var d := Dedup(xs[..|xs| - 1]);
      if xs[|xs| - 1] in d then d else d + [xs[|xs| - 1]]
  }

  // ---------------------------------------------------------------------------
  // bucketPhaseValues, as the source runs it.

  /** `bucketPhaseValues(samples, valueGen)`; the default `valueGen` is `PhaseDuration`. */
  method BucketPhaseValues(samples: seq<Sample>, valueGen: PhaseData -> nat)
    returns (r: Result<Buckets, JsObject.TypeError>)
    ensures r == Bucketed(samples, valueGen)
  {
    var buckets := Initial;
    var i := 0;
    while i < |samples|
      invariant 0 <= i <= |samples|
      invariant buckets == Collect(samples[..i], valueGen)
      invariant PageLoadTime in buckets.lists
      invariant forall k :: k in buckets.lists ==> k !in JsObject.ObjectPrototypeProperties
      invariant !TouchesPrototype(PhaseNames(samples[..i]))
    {
      var sample := samples[i];
      var durations := buckets.lists[PageLoadTime] + [sample.duration];
      buckets := buckets.(lists := buckets.lists[PageLoadTime := durations]);
      var pushed := PushPhases(buckets, sample.phases, valueGen);
      if pushed.Err? {
        var k :| k in Names(sample.phases) && k in JsObject.ObjectPrototypeProperties;
        var j :| 0 <= j < |sample.phases| && sample.phases[j].phase == k;
        PhaseNameListed(samples, i, j);
        return Err(JsObject.PushOnNonArray);
      }
      buckets := pushed.value;
      assert samples[..i + 1][..i] == samples[..i];
      i := i + 1;
    }
    assert samples[..i] == samples;
    CollectKeys(samples, valueGen);
    var sorted := SortEachBucket(buckets);
    r := Ok(sorted);
  }

  /** `sample.phases.forEach(phaseData => { ...push valueGen(phaseData)... })` */
  method PushPhases(b: Buckets, phases: seq<PhaseData>, valueGen: PhaseData -> nat)
    returns (r: Result<Buckets, JsObject.TypeError>)
    requires forall k :: k in b.lists ==> k !in JsObject.ObjectPrototypeProperties
    ensures r.Ok? <==> !TouchesPrototype(Names(phases))
    ensures r.Ok? ==> r.value == AddPhases(b, phases, valueGen)
    ensures r.Ok? ==> forall k :: k in r.value.lists ==> k !in JsObject.ObjectPrototypeProperties
    ensures r.Ok? ==> forall k :: k in b.lists ==> k in r.value.lists
  {
    var keys, lists := b.keys, b.lists;
    var j := 0;
    while j < |phases|
      invariant 0 <= j <= |phases|
      invariant Buckets(keys, lists) == AddPhases(b, phases[..j], valueGen)
      invariant forall k :: k in lists ==> k !in JsObject.ObjectPrototypeProperties
      invariant forall k :: k in b.lists ==> k in lists
      invariant !TouchesPrototype(Names(phases[..j]))
    {
      var phaseData := phases[j];
      assert phases[..j + 1][..j] == phases[..j];
      ghost var next := Push(Buckets(keys, lists), phaseData.phase, valueGen(phaseData));
      var bucket: seq<nat>;
      if phaseData.phase in lists {
        bucket := lists[phaseData.phase];
      } else if phaseData.phase in JsObject.ObjectPrototypeProperties {
        assert Names(phases)[j] == phaseData.phase;
        return Err(JsObject.PushOnNonArray);
      } else {
        bucket := [];
        keys := keys + [phaseData.phase];
        assert bucket + [valueGen(phaseData)] == [valueGen(phaseData)];
      }
      bucket := bucket + [valueGen(phaseData)];
      lists := lists[phaseData.phase := bucket];
      assert Buckets(keys, lists) == next;
      assert Names(phases[..j + 1]) == Names(phases[..j]) + [phaseData.phase];
      j := j + 1;
    }
    assert phases[..j] == phases;
    r := Ok(Buckets(keys, lists));
  }

  /** The lists after the names in `done` have been sorted and the others not yet. */
  function PartlySorted(lists: map<string, seq<nat>>, done: seq<string>): map<string, seq<nat>> {
    map k | k in lists :: if k in done then Ordering.DefaultSort(lists[k]) else lists[k]
  }

  /** Sorting one more list, possibly one already sorted. */
  lemma PartlySortedStep(m: map<string, seq<nat>>, done: seq<string>, k: string, lists: map<string, seq<nat>>)
    requires k in m && lists == PartlySorted(m, done)
    ensures k in lists
    ensures lists[k := Ordering.DefaultSort(lists[k])] == PartlySorted(m, done + [k])
  {
    if k in done {
      Ordering.DefaultSortIdempotent(m[k]);
    }
  }

  /** `Object.keys(buckets).forEach(phase => buckets[phase].sort())` */
  method SortEachBucket(b: Buckets) returns (sorted: Buckets)
    requires forall k :: k in b.lists <==> k in b.keys
    ensures sorted == SortAll(b)
  {
    var phases := JsObject.ObjectKeys(b.keys);
    var lists := SortInOrder(b.lists, phases);
    sorted := Buckets(b.keys, lists);
  }

  /** The `forEach` body: `buckets[phase].sort()` for each listed name in turn. */
  method SortInOrder(m: map<string, seq<nat>>, phases: seq<string>) returns (lists: map<string, seq<nat>>)
    requires forall k :: k in phases ==> k in m
    ensures lists == PartlySorted(m, phases)
  {
    lists := m;
    assert lists == PartlySorted(m, phases[..0]);
    var n := 0;
    while n < |phases|
      invariant 0 <= n <= |phases|
      invariant lists == PartlySorted(m, phases[..n])
    {
      var phase := phases[n];
      PartlySortedStep(m, phases[..n], phase, lists);
      assert phases[..n + 1] == phases[..n] + [phase];
      lists := lists[phase := Ordering.DefaultSort(lists[phase])];
      n := n + 1;
    }
    assert phases[..n] == phases;
  }

  // ---------------------------------------------------------------------------
  // What the buckets hold.

  lemma DedupMembership(xs: seq<string>, x: string)
    ensures x in Dedup(xs) <==> x in xs
  {
    if 0 < |xs| {
      DedupMembership(xs[..|xs| - 1], x);
      assert xs == xs[..|xs| - 1] + [xs[|xs| - 1]];
    }
  }

  lemma PushKeys(b: Buckets, xs: seq<string>, k: string, v: nat)
    requires Wf(b) && b.keys == Dedup(xs)
    ensures Wf(Push(b, k, v))
    ensures Push(b, k, v).keys == Dedup(xs + [k])
  {
    assert (xs + [k])[..|xs|] == xs;
  }

  lemma PushGet(b: Buckets, k: string, v: nat, k': string)
    ensures Get(Push(b, k, v), k') == Get(b, k') + (if k' == k then [v] else [])
  {
  }

  lemma {:induction false} AddPhasesKeys(b: Buckets, xs: seq<string>, phases: seq<PhaseData>, valueGen: PhaseData -> nat)
    requires Wf(b) && b.keys == Dedup(xs)
    ensures Wf(AddPhases(b, phases, valueGen))
    ensures AddPhases(b, phases, valueGen).keys == Dedup(xs + Names(phases))
  {
    if |phases| == 0 {
      assert xs + Names(phases) == xs;
    } else {
      var init := phases[..|phases| - 1];
      var last := phases[|phases| - 1];
      AddPhasesKeys(b, xs, init, valueGen);
      PushKeys(AddPhases(b, init, valueGen), xs + Names(init), last.phase, valueGen(last));
      assert Names(phases) == Names(init) + [last.phase];
      assert xs + Names(phases) == (xs + Names(init)) + [last.phase];
    }
  }

  lemma {:induction false} AddPhasesGet(b: Buckets, phases: seq<PhaseData>, valueGen: PhaseData -> nat, k: string)
    ensures Get(AddPhases(b, phases, valueGen), k) == Get(b, k) + PhaseValues(phases, valueGen, k)
  {
    if |phases| != 0 {
      var init := phases[..|phases| - 1];
      var last := phases[|phases| - 1];
      AddPhasesGet(b, init, valueGen, k);
      PushGet(AddPhases(b, init, valueGen), last.phase, valueGen(last), k);
    }
  }

  /** The unsorted buckets: one property per name seen, in first-seen order. */
  lemma {:induction false} CollectKeys(samples: seq<Sample>, valueGen: PhaseData -> nat)
    ensures Wf(Collect(samples, valueGen))
    ensures Collect(samples, valueGen).keys == Dedup([PageLoadTime] + PhaseNames(samples))
  {
    if |samples| == 0 {
      assert Dedup([PageLoadTime]) == [PageLoadTime] by {
        assert [PageLoadTime][..0] == [];
      }
      assert [PageLoadTime] + PhaseNames(samples) == [PageLoadTime];
    } else {
      var init := samples[..|samples| - 1];
      var last := samples[|samples| - 1];
      var xs := [PageLoadTime] + PhaseNames(init);
      CollectKeys(init, valueGen);
      var c := Collect(init, valueGen);
      DedupMembership(xs, PageLoadTime);
      assert Push(c, PageLoadTime, last.duration).keys == c.keys;
      AddPhasesKeys(Push(c, PageLoadTime, last.duration), xs, last.phases, valueGen);
      assert [PageLoadTime] + PhaseNames(samples) == xs + Names(last.phases);
    }
  }

  /** Each name of the unsorted buckets holds exactly the values written under it. */
  lemma {:induction false} CollectGet(samples: seq<Sample>, valueGen: PhaseData -> nat, k: string)
    ensures Get(Collect(samples, valueGen), k) == ValuesFor(samples, valueGen, k)
  {
    if |samples| != 0 {
      var init := samples[..|samples| - 1];
      var last := samples[|samples| - 1];
      CollectGet(init, valueGen, k);
      var c := Collect(init, valueGen);
      PushGet(c, PageLoadTime, last.duration, k);
      AddPhasesGet(Push(c, PageLoadTime, last.duration), last.phases, valueGen, k);
    }
  }

  lemma SortAllGet(b: Buckets, k: string)
    ensures SortAll(b).keys == b.keys && SortAll(b).lists.Keys == b.lists.Keys
    ensures Get(SortAll(b), k) == Ordering.DefaultSort(Get(b, k))
  {
    assert Ordering.DefaultSort([]) == [] by {
      assert |multiset(Ordering.DefaultSort([]))| == 0;
    }
  }

  lemma {:induction false} NamesOfPhaseNames(samples: seq<Sample>, k: string)
    ensures k in PhaseNames(samples) <==>
      exists i, j :: 0 <= i < |samples| && 0 <= j < |samples[i].phases| && samples[i].phases[j].phase == k
  {
    if 0 < |samples| {
      var init := samples[..|samples| - 1];
      NamesOfPhaseNames(init, k);
      if k in PhaseNames(samples) && k !in PhaseNames(init) {
        var last := samples[|samples| - 1];
        var j :| 0 <= j < |Names(last.phases)| && Names(last.phases)[j] == k;
        assert samples[|samples| - 1].phases[j].phase == k;
      }
      if exists i, j :: 0 <= i < |samples| && 0 <= j < |samples[i].phases| && samples[i].phases[j].phase == k {
        var i, j :| 0 <= i < |samples| && 0 <= j < |samples[i].phases| && samples[i].phases[j].phase == k;
        if i < |samples| - 1 {
          assert init[i].phases[j].phase == k;
        } else {
          assert Names(samples[i].phases)[j] == k;
        }
      }
    }
  }

  lemma PhaseNameListed(samples: seq<Sample>, i: nat, j: nat)
    requires i < |samples| && j < |samples[i].phases|
    ensures samples[i].phases[j].phase in PhaseNames(samples)
  {
    NamesOfPhaseNames(samples, samples[i].phases[j].phase);
  }

  lemma {:induction false} PhaseValuesCount(phases: seq<PhaseData>, valueGen: PhaseData -> nat, k: string)
    ensures |PhaseValues(phases, valueGen, k)| == multiset(Names(phases))[k]
  {
    if 0 < |phases| {
      var init := phases[..|phases| - 1];
      PhaseValuesCount(init, valueGen, k);
      assert Names(phases) == Names(init) + [phases[|phases| - 1].phase];
    } else {
      assert Names(phases) == [];
    }
  }

  lemma {:induction false} ValuesForCount(samples: seq<Sample>, valueGen: PhaseData -> nat, k: string)
    ensures |ValuesFor(samples, valueGen, k)| ==
      multiset(PhaseNames(samples))[k] + (if k == PageLoadTime then |samples| else 0)
  {
    if 0 < |samples| {
      ValuesForCount(samples[..|samples| - 1], valueGen, k);
      PhaseValuesCount(samples[|samples| - 1].phases, valueGen, k);
    }
  }

  lemma {:induction false} ValuesForDuration(samples: seq<Sample>, valueGen: PhaseData -> nat)
    requires PageLoadTime !in PhaseNames(samples)
    ensures ValuesFor(samples, valueGen, PageLoadTime) == Durations(samples)
  {
    if 0 < |samples| {
      var init := samples[..|samples| - 1];
      var last := samples[|samples| - 1];
      ValuesForDuration(init, valueGen);
      PhaseValuesCount(last.phases, valueGen, PageLoadTime);
      assert PageLoadTime !in multiset(Names(last.phases));
    }
  }

  // ---------------------------------------------------------------------------
  // Properties of bucketPhaseValues.

  /** It throws exactly when some phase is named after an inherited property. */
  lemma BucketedFailsOnInheritedName(samples: seq<Sample>, valueGen: PhaseData -> nat)
    ensures Bucketed(samples, valueGen).Err? <==>
      exists i, j :: 0 <= i < |samples| && 0 <= j < |samples[i].phases|
                  && samples[i].phases[j].phase in JsObject.ObjectPrototypeProperties
  {
    if Bucketed(samples, valueGen).Err? {
      var k :| k in PhaseNames(samples) && k in JsObject.ObjectPrototypeProperties;
      NamesOfPhaseNames(samples, k);
    } else {
      forall i, j | 0 <= i < |samples| && 0 <= j < |samples[i].phases|
        ensures samples[i].phases[j].phase !in JsObject.ObjectPrototypeProperties
      {
        PhaseNameListed(samples, i, j);
      }
    }
  }

  /** The result always has the `duration` key; the other keys are exactly the
      phase names that occur, each once, in order of first occurrence. */
  lemma BucketedKeys(samples: seq<Sample>, valueGen: PhaseData -> nat)
    requires !TouchesPrototype(PhaseNames(samples))
    ensures Bucketed(samples, valueGen).Ok?
    ensures var b := Bucketed(samples, valueGen).value;
      && Wf(b)
      && b.keys == Dedup([PageLoadTime] + PhaseNames(samples))
      && |b.keys| > 0 && b.keys[0] == PageLoadTime
      && forall k :: k in b.lists <==> k == PageLoadTime || k in PhaseNames(samples)
  {
    CollectKeys(samples, valueGen);
    SortAllGet(Collect(samples, valueGen), PageLoadTime);
    var xs := [PageLoadTime] + PhaseNames(samples);
    forall k ensures k in Dedup(xs) <==> k == PageLoadTime || k in PhaseNames(samples) {
      DedupMembership(xs, k);
    }
    DedupStartsWith(xs);
  }

  /** Per name: the result holds a list under `k` exactly when `k` is
      `duration` or some phase's name, and lists exactly the names it holds. */
  lemma BucketedHas(samples: seq<Sample>, valueGen: PhaseData -> nat, k: string)
    requires !TouchesPrototype(PhaseNames(samples))
    ensures Bucketed(samples, valueGen).Ok?
    ensures k in Bucketed(samples, valueGen).value.lists <==> k == PageLoadTime || k in PhaseNames(samples)
    ensures k in Bucketed(samples, valueGen).value.keys <==> k in Bucketed(samples, valueGen).value.lists
  {
    CollectKeys(samples, valueGen);
    DedupMembership([PageLoadTime] + PhaseNames(samples), k);
  }

  lemma {:induction false} DedupStartsWith(xs: seq<string>)
    requires 0 < |xs|
    ensures 0 < |Dedup(xs)| && Dedup(xs)[0] == xs[0]
  {
    if 1 < |xs| {
      DedupStartsWith(xs[..|xs| - 1]);
    } else {
      assert xs[..0] == [];
    }
  }

  /** Each bucket is the default-sorted list of exactly the values written
      into it: a permutation of them, ordered by their decimal strings. */
  lemma BucketedContents(samples: seq<Sample>, valueGen: PhaseData -> nat, k: string)
    requires !TouchesPrototype(PhaseNames(samples))
    requires k in Bucketed(samples, valueGen).value.lists
    ensures var list := Bucketed(samples, valueGen).value.lists[k];
      && list == Ordering.DefaultSort(ValuesFor(samples, valueGen, k))
      && multiset(list) == multiset(ValuesFor(samples, valueGen, k))
      && Ordering.SortedBy<nat>(list, Ordering.DefaultLe)
  {
    var c := Collect(samples, valueGen);
    assert Bucketed(samples, valueGen).value == SortAll(c);
    assert k in c.lists;
    assert SortAll(c).lists[k] == Ordering.DefaultSort(c.lists[k]);
    CollectGet(samples, valueGen, k);
    Ordering.DefaultSortSorted(c.lists[k]);
  }

  /** A phase's bucket has one entry per triple with that name; the `duration`
      bucket additionally has one per sample. No phase bucket is empty. */
  lemma BucketedCounts(samples: seq<Sample>, valueGen: PhaseData -> nat, k: string)
    requires !TouchesPrototype(PhaseNames(samples))
    requires k in Bucketed(samples, valueGen).value.lists
    ensures |Bucketed(samples, valueGen).value.lists[k]| ==
      multiset(PhaseNames(samples))[k] + (if k == PageLoadTime then |samples| else 0)
    ensures k != PageLoadTime ==> 0 < |Bucketed(samples, valueGen).value.lists[k]|
  {
    BucketedContents(samples, valueGen, k);
    ValuesForCount(samples, valueGen, k);
    var list := Bucketed(samples, valueGen).value.lists[k];
    assert |list| == |multiset(list)|;
    BucketedKeys(samples, valueGen);
  }

  /** Without a phase named `duration`, the `duration` bucket has one entry per
      sample and is a permutation of the samples' whole-run durations. */
  lemma BucketedDurations(samples: seq<Sample>, valueGen: PhaseData -> nat)
    requires !TouchesPrototype(PhaseNames(samples))
    requires PageLoadTime !in PhaseNames(samples)
    ensures PageLoadTime in Bucketed(samples, valueGen).value.lists
    ensures var list := Bucketed(samples, valueGen).value.lists[PageLoadTime];
      |list| == |samples| && multiset(list) == multiset(Durations(samples))
  {
    BucketedKeys(samples, valueGen);
    BucketedContents(samples, valueGen, PageLoadTime);
    BucketedCounts(samples, valueGen, PageLoadTime);
    ValuesForDuration(samples, valueGen);
    assert multiset(PhaseNames(samples))[PageLoadTime] == 0;
  }

  lemma {:induction false} NoPhaseNames(samples: seq<Sample>)
    requires forall i :: 0 <= i < |samples| ==> samples[i].phases == []
    ensures PhaseNames(samples) == []
  {
    if 0 < |samples| {
      NoPhaseNames(samples[..|samples| - 1]);
      assert Names(samples[|samples| - 1].phases) == [];
    }
  }

  lemma DurationsOfThree(samples: seq<Sample>)
    requires |samples| == 3
    ensures Durations(samples) == [samples[0].duration, samples[1].duration, samples[2].duration]
  {
    var s1, s2 := samples[..1], samples[..2];
    assert s1[..0] == [] && s2[..1] == s1 && samples[..2] == s2;
    assert Durations(s1) == [] + [samples[0].duration];
    assert Durations(s2) == [samples[0].duration] + [samples[1].duration];
  }

  /** Three samples without phases whose durations are 3, 20 and 100 give the
      `duration` bucket `[100, 20, 3]`, which is not in ascending numeric order. */
  lemma BucketedLexicalNotNumeric(samples: seq<Sample>, valueGen: PhaseData -> nat)
    requires |samples| == 3 && forall i :: 0 <= i < 3 ==> samples[i].phases == []
    requires samples[0].duration == 3 && samples[1].duration == 20 && samples[2].duration == 100
    ensures Bucketed(samples, valueGen).Ok?
    ensures PageLoadTime in Bucketed(samples, valueGen).value.lists
    ensures Bucketed(samples, valueGen).value.lists[PageLoadTime] == [100, 20, 3]
    ensures !Ordering.NumericallySorted(Bucketed(samples, valueGen).value.lists[PageLoadTime])
  {
    NoPhaseNames(samples);
    BucketedKeys(samples, valueGen);
    BucketedContents(samples, valueGen, PageLoadTime);
    ValuesForDuration(samples, valueGen);
    DurationsOfThree(samples);
    Ordering.DefaultSortIsNotNumeric(Durations(samples));
  }
}
