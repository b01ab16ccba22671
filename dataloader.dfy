/** Class weighting and loader settings for the imbalanced training set:
    per-class loss weights, per-row sampling weights, and the shuffle, sampler
    and worker decisions of the three data loaders. */
module DataLoaders {
  import opened Wrappers
  import opened Counting
  import opened Dicts

  const InverseFrequency: string := "inverse_frequency"
  const EffectiveNumber: string := "effective_number"

  /** The beta of the effective-number weighting. */
  const Beta: real := 0.9999

  datatype WeightError =
    | UnknownMethod(scheme: string)   // ValueError
    | IndexOutOfRange(idx: int)       // IndexError when writing `weights[idx]`

  // ---------------------------------------------------------------------------
  // Class weights
  // ---------------------------------------------------------------------------

  function Pow(b: real, k: nat): real {
    if k == 0 then 1.0 else b * Pow(b, k - 1)
  }

  /** Beta raised to a positive power lies strictly between 0 and 1, and
      decreases as the power grows. */
  lemma {:induction false} PowBeta(k: nat)
    ensures 0.0 < Pow(Beta, k) <= 1.0
    ensures k >= 1 ==> Pow(Beta, k) <= Beta
    ensures Pow(Beta, k + 1) < Pow(Beta, k)
  {
    if k > 0 {
      PowBeta(k - 1);
    }
  }

  lemma {:induction false} PowBetaAntitone(j: nat, k: nat)
    requires j <= k
    ensures Pow(Beta, k) <= Pow(Beta, j)
  {
    if j < k {
      PowBetaAntitone(j, k - 1);
      PowBeta(k - 1);
    }
  }

  /** The weight of one class with `count` rows out of `total`, among
      `numClasses` classes: 1.0 for an empty class whatever the scheme, else
      the method's formula; an unknown method fails only on a non-empty class. */
  function ClassWeight(count: nat, total: nat, numClasses: nat, scheme: string): (r: Result<real, WeightError>)
    requires numClasses > 0
    ensures count == 0 ==> r == Ok(1.0)
    ensures r.Err? <==> count > 0 && scheme != InverseFrequency && scheme != EffectiveNumber
    ensures r.Err? ==> r.error == UnknownMethod(scheme)
  {
    if count == 0 then Ok(1.0)
    else if scheme == InverseFrequency then Ok(total as real / (numClasses * count) as real)
    else if scheme == EffectiveNumber then
      PowBeta(count);
      Ok((1.0 - Beta) / (1.0 - Pow(Beta, count)))
    else Err(UnknownMethod(scheme))
  }

  /** The array position numpy writes for index `idx` of an array of length
      `n`: negative indices count from the end; anything else is an IndexError. */
  function Slot(idx: int, n: nat): (p: Option<nat>)
    ensures p.Some? <==> -(n as int) <= idx < n
    ensures p.Some? ==> p.value < n && (p.value == idx || p.value == idx + n)
  {
    if 0 <= idx < n then Some(idx)
    else if -(n as int) <= idx < 0 then Some(idx + n)
    else None
  }

  /** The weights after processing the remaining `(diagnosis, idx)` items in
      order, starting from the array `w`. */
  function WeightsFrom(w: seq<real>, rest: Items<string, int>, dx: seq<string>, scheme: string, n: nat)
    : Result<seq<real>, WeightError>
    requires |rest| <= n
    decreases |rest|
  {
    if rest == [] then Ok(w)
    else
      match ClassWeight(Count(dx, rest[0].0), |dx|, n, scheme)
      case Err(e) => Err(e)
      case Ok(x) =>
        match Slot(rest[0].1, |w|)
        case None => Err(IndexOutOfRange(rest[0].1))
        case Some(p) => WeightsFrom(w[p := x], rest[1..], dx, scheme, n)
  }

  /** `compute_class_weights` on the training `dx` column, as a value. */
  function ClassWeights(dx: seq<string>, classToIdx: Items<string, int>, scheme: string)
    : Result<seq<real>, WeightError>
  {
    WeightsFrom(seq(|classToIdx|, _ => 0.0), classToIdx, dx, scheme, |classToIdx|)
  }

  /** `compute_class_weights`: fills a zero array of one slot per class, in the
      order of the `class_to_idx` items. */
  method ComputeClassWeights(dx: seq<string>, classToIdx: Items<string, int>, scheme: string)
    returns (r: Result<seq<real>, WeightError>)
    ensures r == ClassWeights(dx, classToIdx, scheme)
  {
    var n := |classToIdx|;
    var weights := new real[n](_ => 0.0);
    assert weights[..] == seq(n, _ => 0.0);
    var i := 0;
    while i < n
      invariant 0 <= i <= n && weights.Length == n
      invariant WeightsFrom(weights[..], classToIdx[i..], dx, scheme, n) == ClassWeights(dx, classToIdx, scheme)
    {
      var (diagnosis, idx) := classToIdx[i];
      var count := Count(dx, diagnosis);
      assert classToIdx[i..][0] == (diagnosis, idx) && classToIdx[i..][1..] == classToIdx[i + 1..];
      var weight := ClassWeight(count, |dx|, n, scheme);
      if weight.Err? {
        return Err(weight.error);
      }
      if !(-(n as int) <= idx < n) {
        return Err(IndexOutOfRange(idx));
      }
      var p := if idx >= 0 then idx else idx + n;
      weights[p] := weight.value;
      i := i + 1;
    }
    r := Ok(weights[..]);
  }

  /** Indices that are valid, distinct array positions. */
  predicate ValidIndices(items: Items<string, int>, n: nat) {
    && InjectiveValues(items)
    && forall k :: 0 <= k < |items| ==> 0 <= items[k].1 < n
  }

  predicate KnownMethod(scheme: string) {
    scheme == InverseFrequency || scheme == EffectiveNumber
  }

  /** Processing items with valid distinct indices writes each item's weight
      at its index and leaves every other slot as it was. */
  lemma {:induction false} WeightsFromPlaces(w: seq<real>, rest: Items<string, int>, dx: seq<string>, scheme: string, n: nat)
    requires |rest| <= n && |w| == n
    requires KnownMethod(scheme) && ValidIndices(rest, n)
    ensures WeightsFrom(w, rest, dx, scheme, n).Ok?
    ensures var out := WeightsFrom(w, rest, dx, scheme, n).value;
      && |out| == n
      && (forall k :: 0 <= k < |rest| ==> out[rest[k].1] == ClassWeight(Count(dx, rest[k].0), |dx|, n, scheme).value)
      && (forall p :: 0 <= p < n && (forall k :: 0 <= k < |rest| ==> rest[k].1 != p) ==> out[p] == w[p])
    decreases |rest|
  {
    if rest != [] {
      var x := ClassWeight(Count(dx, rest[0].0), |dx|, n, scheme).value;
      var w' := w[rest[0].1 := x];
      var tail := rest[1..];
      assert ValidIndices(tail, n);
      WeightsFromPlaces(w', tail, dx, scheme, n);
      var out := WeightsFrom(w', tail, dx, scheme, n).value;
      assert WeightsFrom(w, rest, dx, scheme, n) == WeightsFrom(w', tail, dx, scheme, n);
      forall k | 0 <= k < |rest|
        ensures out[rest[k].1] == ClassWeight(Count(dx, rest[k].0), |dx|, n, scheme).value
      {
        if k == 0 {
          forall j | 0 <= j < |tail| ensures tail[j].1 != rest[0].1 {
            assert rest[j + 1].1 != rest[0].1;
          }
        } else {
          assert rest[k] == tail[k - 1];
        }
      }
      forall p | 0 <= p < n && (forall k :: 0 <= k < |rest| ==> rest[k].1 != p)
        ensures out[p] == w[p]
      {
        assert rest[0].1 != p;
        forall j | 0 <= j < |tail| ensures tail[j].1 != p {
          assert rest[j + 1].1 != p;
        }
      }
    }
  }

  /** The weight vector has one entry per class, and each class's entry is its
      weight under the chosen method. */
  lemma ClassWeightsPerClass(dx: seq<string>, classToIdx: Items<string, int>, scheme: string)
    requires KnownMethod(scheme) && ValidIndices(classToIdx, |classToIdx|)
    ensures ClassWeights(dx, classToIdx, scheme).Ok?
    ensures |ClassWeights(dx, classToIdx, scheme).value| == |classToIdx|
    ensures forall k :: 0 <= k < |classToIdx| ==>
      ClassWeights(dx, classToIdx, scheme).value[classToIdx[k].1]
        == ClassWeight(Count(dx, classToIdx[k].0), |dx|, |classToIdx|, scheme).value
  {
    WeightsFromPlaces(seq(|classToIdx|, _ => 0.0), classToIdx, dx, scheme, |classToIdx|);
  }

  /** With an unknown scheme, the weights fail exactly when some class has
      training rows, and then with the ValueError naming the method. */
  lemma {:induction false} UnknownMethodFails(w: seq<real>, rest: Items<string, int>, dx: seq<string>, scheme: string, n: nat)
    requires |rest| <= n && |w| == n
    requires !KnownMethod(scheme)
    requires forall k :: 0 <= k < |rest| ==> 0 <= rest[k].1 < n
    ensures WeightsFrom(w, rest, dx, scheme, n).Err? <==> exists k :: 0 <= k < |rest| && Count(dx, rest[k].0) > 0
    ensures WeightsFrom(w, rest, dx, scheme, n).Err? ==> WeightsFrom(w, rest, dx, scheme, n).error == UnknownMethod(scheme)
    decreases |rest|
  {
    if rest != [] {
      var tail := rest[1..];
      if Count(dx, rest[0].0) == 0 {
        UnknownMethodFails(w[rest[0].1 := 1.0], tail, dx, scheme, n);
        if exists k :: 0 <= k < |rest| && Count(dx, rest[k].0) > 0 {
          var k :| 0 <= k < |rest| && Count(dx, rest[k].0) > 0;
          assert tail[k - 1] == rest[k];
        }
      }
    }
  }

  /** Perfectly balanced training data gets weight 1.0 for every class under
      inverse frequency. */
  lemma BalancedInverseWeightsOne(dx: seq<string>, classToIdx: Items<string, int>)
    requires ValidIndices(classToIdx, |classToIdx|)
    requires forall k :: 0 <= k < |classToIdx| ==> Count(dx, classToIdx[k].0) * |classToIdx| == |dx|
    ensures ClassWeights(dx, classToIdx, InverseFrequency).Ok?
    ensures |ClassWeights(dx, classToIdx, InverseFrequency).value| == |classToIdx|
    ensures forall k :: 0 <= k < |classToIdx| ==> ClassWeights(dx, classToIdx, InverseFrequency).value[classToIdx[k].1] == 1.0
  {
    ClassWeightsPerClass(dx, classToIdx, InverseFrequency);
    forall k | 0 <= k < |classToIdx|
      ensures ClassWeight(Count(dx, classToIdx[k].0), |dx|, |classToIdx|, InverseFrequency) == Ok(1.0)
    {
      var c := Count(dx, classToIdx[k].0);
      if c > 0 {
        RatioOne(|dx| as real, (|classToIdx| * c) as real);
      }
    }
  }

  lemma Reciprocal(x: real)
    requires x > 0.0
    ensures x * (1.0 / x) == 1.0
  {
  }

  lemma RatioOne(x: real, y: real)
    requires x == y && y > 0.0
    ensures x / y == 1.0
  {
  }

  /** Under inverse frequency a rarer class weighs more. */
  lemma InverseRarerWeighsMore(c1: nat, c2: nat, total: nat, n: nat)
    requires 0 < c1 < c2 && n > 0 && total > 0
    ensures ClassWeight(c1, total, n, InverseFrequency).value > ClassWeight(c2, total, n, InverseFrequency).value
  {
    var a, b := (n * c1) as real, (n * c2) as real;
    assert 0.0 < a < b;
    DivAntitone(total as real, a, b);
  }

  lemma DivAntitone(t: real, a: real, b: real)
    requires t > 0.0 && 0.0 < a < b
    ensures t / a > t / b
  {
    var x, y := t / a, t / b;
    assert x * a == t && y * b == t;
    assert x > 0.0;
    assert x * b - t == x * (b - a) > 0.0;
    assert (x - y) * b == x * b - t > 0.0;
  }

  /** Under the effective number a non-empty class weighs at most 1, more than
      0, and no more than any rarer class. */
  lemma EffectiveNumberBounds(c1: nat, c2: nat, total: nat, n: nat)
    requires 0 < c1 <= c2 && n > 0
    ensures 0.0 < ClassWeight(c1, total, n, EffectiveNumber).value <= 1.0
    ensures ClassWeight(c2, total, n, EffectiveNumber).value <= ClassWeight(c1, total, n, EffectiveNumber).value
  {
    PowBeta(c1);
    PowBetaAntitone(c1, c2);
    var e1, e2 := 1.0 - Pow(Beta, c1), 1.0 - Pow(Beta, c2);
    assert 1.0 - Beta <= e1 <= e2;
    assert (1.0 - Beta) / e1 <= 1.0;
    assert (1.0 - Beta) / e2 <= (1.0 - Beta) / e1;
  }

  // ---------------------------------------------------------------------------
  // Per-row sampling weights
  // ---------------------------------------------------------------------------

  /** The arguments of the `WeightedRandomSampler`. */
  datatype Sampler = Sampler(weights: seq<real>, numSamples: nat, replacement: bool)

  /** One weight per row: the inverse of the size of the row's class. */
  function SampleWeights(dx: seq<string>): (w: seq<real>)
    ensures |w| == |dx|
  {
    seq(|dx|, i requires 0 <= i < |dx| => 1.0 / Count(dx, dx[i]) as real)
  }

  /** `create_weighted_sampler`: appends each row's weight in row order. */
  method CreateWeightedSampler(dx: seq<string>) returns (s: Sampler)
    ensures s == Sampler(SampleWeights(dx), |dx|, true)
    ensures forall i :: 0 <= i < |dx| ==> s.weights[i] == 1.0 / Count(dx, dx[i]) as real
  {
    var sampleWeights: seq<real> := [];
    var i := 0;
    while i < |dx|
      invariant 0 <= i <= |dx|
      invariant sampleWeights == SampleWeights(dx)[..i]
    {
      var count := Count(dx, dx[i]);
      sampleWeights := sampleWeights + [1.0 / count as real];
      i := i + 1;
    }
    s := Sampler(sampleWeights, |sampleWeights|, true);
  }

  /** The total weight of the rows of class `c`. */
  function ClassMass(dx: seq<string>, w: seq<real>, c: string): real
    requires |w| == |dx|
  {
    if dx == [] then 0.0
    else ClassMass(dx[..|dx| - 1], w[..|w| - 1], c) + (if dx[|dx| - 1] == c then w[|w| - 1] else 0.0)
  }

  /** `n` copies of `v` added up. */
  function Times(n: nat, v: real): real {
    if n == 0 then 0.0 else Times(n - 1, v) + v
  }

  lemma {:induction false} TimesIsProduct(n: nat, v: real)
    ensures Times(n, v) == n as real * v
  {
    if n > 0 {
      TimesIsProduct(n - 1, v);
    }
  }

  lemma {:induction false} ClassMassConstant(dx: seq<string>, w: seq<real>, c: string, v: real)
    requires |w| == |dx|
    requires forall i :: 0 <= i < |dx| && dx[i] == c ==> w[i] == v
    ensures ClassMass(dx, w, c) == Times(Count(dx, c), v)
  {
    if dx != [] {
      var p, last := dx[..|dx| - 1], dx[|dx| - 1];
      var q := w[..|w| - 1];
      forall i | 0 <= i < |p| && p[i] == c ensures q[i] == v {
        assert dx[i] == c;
      }
      ClassMassConstant(p, q, c, v);
      assert Count(dx, c) == Count(p, c) + (if last == c then 1 else 0);
    }
  }

  lemma SampleWeightsOnClass(dx: seq<string>, c: string)
    ensures forall i :: 0 <= i < |dx| && dx[i] == c ==> SampleWeights(dx)[i] == 1.0 / Count(dx, c) as real
  {
  }

  /** Every class present in the training set carries total sampling weight 1,
      so each class is drawn equally often in expectation. */
  lemma SampleWeightsBalanceClasses(dx: seq<string>, c: string)
    requires c in dx
    ensures ClassMass(dx, SampleWeights(dx), c) == 1.0
  {
    var n := Count(dx, c);
    var w := SampleWeights(dx);
    assert n > 0;
    SampleWeightsOnClass(dx, c);
    ClassMassConstant(dx, w, c, 1.0 / n as real);
    TimesReciprocal(n);
  }

  lemma TimesReciprocal(n: nat)
    requires n > 0
    ensures Times(n, 1.0 / n as real) == 1.0
  {
    var x := n as real;
    TimesIsProduct(n, 1.0 / x);
    Reciprocal(x);
  }

  // ---------------------------------------------------------------------------
  // Loader settings
  // ---------------------------------------------------------------------------

  /** The arguments `create_dataloader` passes to `DataLoader`. */
  datatype LoaderSettings = LoaderSettings(
    batchSize: int,
    shuffle: bool,
    numWorkers: int,
    pinMemory: bool,
    dropLast: bool,
    sampler: Option<Sampler>,
    prefetchFactor: Option<nat>,
    persistentWorkers: bool)

  /** `create_dataloader`: a sampler turns shuffling off; prefetching and
      persistent workers only with worker processes; the last short batch is kept. */
  function CreateDataloader(batchSize: int, shuffle: bool, numWorkers: int, pinMemory: bool, sampler: Option<Sampler>)
    : (s: LoaderSettings)
    ensures s.shuffle <==> shuffle && sampler.None?
    ensures s.sampler == sampler && s.batchSize == batchSize && s.numWorkers == numWorkers && s.pinMemory == pinMemory
    ensures !s.dropLast
    ensures s.prefetchFactor == (if numWorkers > 0 then Some(2) else None)
    ensures s.persistentWorkers <==> numWorkers > 0
  {
    var shuffle' := if sampler.Some? then false else shuffle;
    LoaderSettings(batchSize, shuffle', numWorkers, pinMemory, false, sampler,
      if numWorkers > 0 then Some(2) else None, numWorkers > 0)
  }

  datatype Loaders = Loaders(train: LoaderSettings, val: LoaderSettings, test: LoaderSettings)

  /** The loader decisions of `create_dataloaders_from_config`, given the
      training `dx` column and the training section of the configuration. */
  function CreateDataloadersFromConfig(weightedSampling: bool, trainDx: seq<string>, batchSize: int, numWorkers: int, pinMemory: bool)
    : Loaders
  {
    var sampler := if weightedSampling then Some(Sampler(SampleWeights(trainDx), |trainDx|, true)) else None;
    Loaders(
      CreateDataloader(batchSize, sampler.None?, numWorkers, pinMemory, sampler),
      CreateDataloader(batchSize, false, numWorkers, pinMemory, None),
      CreateDataloader(batchSize, false, numWorkers, pinMemory, None))
  }

  /** The training loader shuffles exactly when no sampler is used; the sampler
      draws one weight per training row with replacement; validation and test
      never shuffle and never sample. */
  lemma LoadersFromConfig(weightedSampling: bool, trainDx: seq<string>, batchSize: int, numWorkers: int, pinMemory: bool)
    ensures var l := CreateDataloadersFromConfig(weightedSampling, trainDx, batchSize, numWorkers, pinMemory);
      && (l.train.shuffle <==> !weightedSampling)
      && (l.train.sampler.Some? <==> weightedSampling)
      && (weightedSampling ==>
            l.train.sampler.value.numSamples == |trainDx| == |l.train.sampler.value.weights|
            && l.train.sampler.value.replacement)
      && !l.val.shuffle && !l.test.shuffle && l.val.sampler.None? && l.test.sampler.None?
      && l.train.batchSize == l.val.batchSize == l.test.batchSize == batchSize
  {
  }
}
