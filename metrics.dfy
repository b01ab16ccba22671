/** Evaluation metrics: accuracy, the per-class scores of the classification
    report, the melanoma summary, the AUC fallback and the safety alert. The
    balanced accuracy, the report's averages and the AUC values come from
    library calls and are inputs. */
module Metrics {
  import opened Wrappers
  import opened Counting
  import opened Dicts

  const ClassNames: seq<string> := ["akiec", "bcc", "bkl", "df", "mel", "nv", "scc", "vasc"]

  /** The melanoma index used when the class names have no `mel`. */
  const DefaultMelanomaIdx: nat := 4

  const Melanoma: string := "mel"

  /** Melanoma sensitivity below this value raises the safety alert. */
  const SafetyThreshold: real := 0.85

  /** `list.index`: the first position holding `x`. */
  function FirstIndex<T(==)>(s: seq<T>, x: T): (i: nat)
    requires x in s
    ensures i < |s| && s[i] == x && x !in s[..i]
  {
    if s[0] == x then 0
    else
      var i := 1 + FirstIndex(s[1..], x);
      assert s[..i] == [s[0]] + s[1..][..i - 1];
      i
  }

  /** `MetricsCalculator.__init__`: the position of `mel`, or 4 without one. */
  function MelanomaIndex(classNames: seq<string>): (i: nat)
    ensures Melanoma in classNames ==> i < |classNames| && classNames[i] == Melanoma && Melanoma !in classNames[..i]
    ensures Melanoma !in classNames ==> i == DefaultMelanomaIdx
  {
    if Melanoma in classNames then FirstIndex(classNames, Melanoma) else DefaultMelanomaIdx
  }

  /** The default class names, sorted, put `mel` at the default index. */
  lemma DefaultMelanomaIndex()
    ensures MelanomaIndex(ClassNames) == DefaultMelanomaIdx
  {
    assert ClassNames[4] == Melanoma;
    assert Melanoma !in ClassNames[..4];
  }

  /** `(all_preds == all_labels).mean()`; None is the NaN of an empty mean. */
  function Accuracy(preds: seq<int>, labels: seq<int>): (a: Option<real>)
    requires |preds| == |labels|
    ensures a.None? <==> labels == []
    ensures a.Some? ==> 0.0 <= a.value <= 1.0 && a.value * |labels| as real == Matches(preds, labels) as real
  {
    if labels == [] then None
    else
      FractionBounds(Matches(preds, labels), |labels|);
      Some(Matches(preds, labels) as real / |labels| as real)
  }

  /** Predictions equal to the labels give accuracy 1. */
  lemma PerfectAccuracy(labels: seq<int>)
    requires labels != []
    ensures Accuracy(labels, labels) == Some(1.0)
  {
    MatchesSelf(labels, labels);
    assert |labels| as real / |labels| as real == 1.0;
  }

  /** One class's row of the classification report. */
  datatype Scores = Scores(precision: real, recall: real, f1: real, support: nat)

  /** Positions where both the prediction and the label are `c`. */
  function TruePositives(preds: seq<int>, labels: seq<int>, c: int): (n: nat)
    requires |preds| == |labels|
    ensures n <= Count(preds, c) && n <= Count(labels, c)
  {
    if preds == [] then 0
    else
      var k := |preds| - 1;
      TruePositives(preds[..k], labels[..k], c) + (if preds[k] == c && labels[k] == c then 1 else 0)
  }

  /** Precision, recall and F1 from the counts of one class, with
      `zero_division=0`: a ratio whose denominator is zero is 0. F1 is
      `2 tp / (predicted + actual)`. */
  function ScoresFrom(tp: nat, predicted: nat, actual: nat): Scores {
    Scores(
      if predicted == 0 then 0.0 else tp as real / predicted as real,
      if actual == 0 then 0.0 else tp as real / actual as real,
      if predicted + actual == 0 then 0.0 else (2 * tp) as real / (predicted + actual) as real,
      actual)
  }

  /** The report row of class `c`. */
  function ScoresOf(preds: seq<int>, labels: seq<int>, c: int): Scores
    requires |preds| == |labels|
  {
    ScoresFrom(TruePositives(preds, labels, c), Count(preds, c), Count(labels, c))
  }

  /** Every score is between 0 and 1. */
  lemma ScoresFromBounds(tp: nat, predicted: nat, actual: nat)
    requires tp <= predicted && tp <= actual
    ensures var s := ScoresFrom(tp, predicted, actual);
      0.0 <= s.precision <= 1.0 && 0.0 <= s.recall <= 1.0 && 0.0 <= s.f1 <= 1.0
  {
    if predicted > 0 {
      FractionBounds(tp, predicted);
    }
    if actual > 0 {
      FractionBounds(tp, actual);
    }
    if predicted + actual > 0 {
      FractionBounds(2 * tp, predicted + actual);
    }
  }

  /** Every score of a class is between 0 and 1; the support is the number
      of labels of the class. */
  lemma ScoresBounds(preds: seq<int>, labels: seq<int>, c: int)
    requires |preds| == |labels|
    ensures var s := ScoresOf(preds, labels, c);
      && 0.0 <= s.precision <= 1.0 && 0.0 <= s.recall <= 1.0 && 0.0 <= s.f1 <= 1.0
      && s.support == Count(labels, c)
  {
    ScoresFromBounds(TruePositives(preds, labels, c), Count(preds, c), Count(labels, c));
  }

  /** F1 is the harmonic mean of precision and recall, and 0 when both are 0. */
  lemma F1IsHarmonicMean(tp: nat, predicted: nat, actual: nat)
    requires tp <= predicted && tp <= actual
    ensures var s := ScoresFrom(tp, predicted, actual);
      && (s.precision + s.recall == 0.0 ==> s.f1 == 0.0)
      && (s.precision + s.recall != 0.0 ==> s.f1 == 2.0 * s.precision * s.recall / (s.precision + s.recall))
  {
    var s := ScoresFrom(tp, predicted, actual);
    var t, p, a := tp as real, predicted as real, actual as real;
    if tp > 0 {
      assert s.precision == t / p && s.recall == t / a;
      assert s.f1 == 2.0 * t / (p + a) by {
        assert (2 * tp) as real == 2.0 * t && (predicted + actual) as real == p + a;
      }
      PositiveRatio(t, p);
      HarmonicMean(t, p, a);
    } else {
      assert s.precision == 0.0 && s.recall == 0.0;
      assert s.f1 == 0.0;
    }
  }

  lemma PositiveRatio(t: real, p: real)
    requires t > 0.0 && p > 0.0
    ensures t / p > 0.0
  {
  }

  lemma HarmonicMean(t: real, p: real, a: real)
    requires t > 0.0 && p > 0.0 && a > 0.0
    ensures 2.0 * t / (p + a) == 2.0 * (t / p) * (t / a) / (t / p + t / a)
  {
    var x := t / p;
    var y := t / a;
    assert x * p == t && y * a == t;
    assert (x + y) * (p * a) == t * (p + a);
    assert 2.0 * x * y * (p * a) == 2.0 * t * t;
    calc {
      2.0 * x * y / (x + y);
    ==  { assert (x + y) * (p * a) / (p * a) == x + y; }
      2.0 * x * y * (p * a) / ((x + y) * (p * a));
    ==
      2.0 * t * t / (t * (p + a));
    ==
      2.0 * t / (p + a);
    }
  }

  /** A class whose every image is predicted correctly, and nothing else
      predicted as it, scores 1 throughout. */
  lemma PerfectScores(labels: seq<int>, c: int)
    requires c in labels
    ensures ScoresOf(labels, labels, c) == Scores(1.0, 1.0, 1.0, Count(labels, c))
  {
    TruePositivesSelf(labels, c);
    var n := Count(labels, c);
    assert n > 0 by {
      assert multiset(labels)[c] > 0;
    }
    AllCorrect(n);
  }

  lemma AllCorrect(n: nat)
    requires n > 0
    ensures ScoresFrom(n, n, n) == Scores(1.0, 1.0, 1.0, n)
  {
    assert n as real / n as real == 1.0;
    assert (2 * n) as real / (n + n) as real == 1.0;
  }

  lemma {:induction false} TruePositivesSelf(labels: seq<int>, c: int)
    ensures TruePositives(labels, labels, c) == Count(labels, c)
  {
    if labels != [] {
      TruePositivesSelf(labels[..|labels| - 1], c);
    }
  }

  /** The parts of `classification_report(..., output_dict=True)` that are
      read: the per-class rows present, and the two averaged F1 scores. */
  datatype Report = Report(perClass: map<string, Scores>, macroF1: real, weightedF1: real)

  /** The report's rows are the class scores: row `classNames[i]` is class `i`. */
  predicate ReportAgrees(report: Report, preds: seq<int>, labels: seq<int>, classNames: seq<string>)
    requires |preds| == |labels|
  {
    forall i :: 0 <= i < |classNames| && classNames[i] in report.perClass ==>
      report.perClass[classNames[i]] == ScoresOf(preds, labels, i)
  }

  /** `mel_binary_labels`: 1 where the label is the melanoma index, else 0. */
  function MelBinaryLabels(labels: seq<int>, melIdx: int): (b: seq<int>)
    ensures |b| == |labels|
    ensures forall k :: 0 <= k < |b| ==> b[k] == (if labels[k] == melIdx then 1 else 0)
  {
    seq(|labels|, k requires 0 <= k < |labels| => if labels[k] == melIdx then 1 else 0)
  }

  /** The binary labels hold as many ones as there are melanoma labels. */
  lemma MelBinaryCount(labels: seq<int>, melIdx: int)
    ensures Count(MelBinaryLabels(labels, melIdx), 1) == Count(labels, melIdx)
    ensures Count(MelBinaryLabels(labels, melIdx), 0) == |labels| - Count(labels, melIdx)
  {
    IndicatorCount(labels, MelBinaryLabels(labels, melIdx), melIdx);
  }

  /** A 0/1 indicator of the positions holding `m` has as many ones as there
      are `m`s, and zeros everywhere else. */
  lemma {:induction false} IndicatorCount(labels: seq<int>, b: seq<int>, m: int)
    requires |b| == |labels|
    requires forall k :: 0 <= k < |b| ==> b[k] == if labels[k] == m then 1 else 0
    ensures Count(b, 1) == Count(labels, m)
    ensures Count(b, 0) + Count(labels, m) == |labels|
  {
    if labels != [] {
      var k := |labels| - 1;
      IndicatorCount(labels[..k], b[..k], m);
      assert b == b[..k] + [b[k]];
      assert labels == labels[..k] + [labels[k]];
      CountAppend(b[..k], b[k], 1);
      CountAppend(b[..k], b[k], 0);
      CountAppend(labels[..k], labels[k], m);
    }
  }

  /** The `f1_<class>` entries, in class-name order, for the classes the report has. */
  function PerClassF1(classNames: seq<string>, report: Report): Items<string, real> {
    if classNames == [] then []
    else
      var k := |classNames| - 1;
      var rest := PerClassF1(classNames[..k], report);
      if classNames[k] in report.perClass then rest + [("f1_" + classNames[k], report.perClass[classNames[k]].f1)]
      else rest
  }

  /** An `f1_<cls>` key is present exactly for the classes named and reported,
      and holds the reported F1. */
  lemma {:induction false} PerClassF1Keys(classNames: seq<string>, report: Report, cls: string)
    ensures HasKey(PerClassF1(classNames, report), "f1_" + cls) <==> cls in classNames && cls in report.perClass
    ensures forall e :: e in PerClassF1(classNames, report) ==>
      exists c :: c in classNames && c in report.perClass && e == ("f1_" + c, report.perClass[c].f1)
  {
    if classNames != [] {
      var k := |classNames| - 1;
      var prefix := classNames[..k];
      var last := classNames[k];
      PerClassF1Keys(prefix, report, cls);
      assert classNames == prefix + [last];
      var rest := PerClassF1(prefix, report);
      F1KeyInjective(last, cls);
      if last in report.perClass {
        var entry := ("f1_" + last, report.perClass[last].f1);
        var items := rest + [entry];
        assert HasKey(items, "f1_" + cls) <==> HasKey(rest, "f1_" + cls) || entry.0 == "f1_" + cls by {
          if HasKey(items, "f1_" + cls) && !(entry.0 == "f1_" + cls) {
            var i :| 0 <= i < |items| && items[i].0 == "f1_" + cls;
            assert rest[i].0 == "f1_" + cls;
          }
          if HasKey(rest, "f1_" + cls) {
            var i :| 0 <= i < |rest| && rest[i].0 == "f1_" + cls;
            assert items[i].0 == "f1_" + cls;
          }
          if entry.0 == "f1_" + cls {
            assert items[|rest|].0 == "f1_" + cls;
          }
        }
      }
    }
  }

  lemma F1KeyInjective(a: string, b: string)
    ensures "f1_" + a == "f1_" + b <==> a == b
  {
    if "f1_" + a == "f1_" + b {
      assert a == ("f1_" + a)[3..] && b == ("f1_" + b)[3..];
    }
  }

  /** What `compute` returns. `accuracy` None is NaN. */
  datatype MetricValues = MetricValues(
    accuracy: Option<real>, balancedAccuracy: real, f1Macro: real, f1Weighted: real,
    perClassF1: Items<string, real>,
    melSensitivity: real, melPrecision: real, melF1: real,
    aucRocMacro: real, aucRocMelanoma: real)

  /** The two AUC values. `aucMacro` is the one-vs-rest call (None when it
      raises), `aucMelanoma` the binary call on the melanoma labels and the
      melanoma probability column, and `numProbColumns` the number of
      probability columns; any failure gives 0.0 for both. */
  function AucScores(labels: seq<int>, melIdx: nat, numProbColumns: nat,
                     aucMacro: Option<real>, aucMelanoma: seq<int> -> Option<real>): (r: (real, real))
  {
    if aucMacro.None? || melIdx >= numProbColumns then (0.0, 0.0)
    else
      match aucMelanoma(MelBinaryLabels(labels, melIdx))
      case None => (0.0, 0.0)
      case Some(m) => (aucMacro.value, m)
  }

  /** The ValueError `classification_report` raises, outside any `try`, when
      it is given `target_names` but no `labels` and the classes occurring in
      the labels and predictions are not as many as the names. */
  datatype MetricsError = TargetNamesMismatch(classes: nat, names: nat)

  /** `MetricsCalculator.compute`; `report` is what `classification_report`
      returns when it does not raise. */
  function Compute(classNames: seq<string>, preds: seq<int>, labels: seq<int>, balancedAccuracy: real,
                   report: Report, numProbColumns: nat,
                   aucMacro: Option<real>, aucMelanoma: seq<int> -> Option<real>): (r: Result<MetricValues, MetricsError>)
    requires |preds| == |labels|
    ensures r.Err? <==> |Distinct(labels + preds)| != |classNames|
    ensures r.Err? ==> r.error == TargetNamesMismatch(|Distinct(labels + preds)|, |classNames|)
  {
    var classes := |Distinct(labels + preds)|;
    if classes != |classNames| then Err(TargetNamesMismatch(classes, |classNames|))
    else
      var mel := if Melanoma in report.perClass then Some(report.perClass[Melanoma]) else None;
      var (macro, melAuc) := AucScores(labels, MelanomaIndex(classNames), numProbColumns, aucMacro, aucMelanoma);
      Ok(MetricValues(
        Accuracy(preds, labels), balancedAccuracy, report.macroF1, report.weightedF1,
        PerClassF1(classNames, report),
        if mel.Some? then mel.value.recall else 0.0,
        if mel.Some? then mel.value.precision else 0.0,
        if mel.Some? then mel.value.f1 else 0.0,
        macro, melAuc))
  }

  /** A validation set in which a class neither occurs nor is predicted makes
      `compute` fail: two classes seen against eight names. */
  lemma AbsentClassFails(balancedAccuracy: real, report: Report, numProbColumns: nat,
                         aucMacro: Option<real>, aucMelanoma: seq<int> -> Option<real>)
    ensures Compute(ClassNames, [4, 4], [4, 0], balancedAccuracy, report, numProbColumns, aucMacro, aucMelanoma)
      == Err(TargetNamesMismatch(2, 8))
  {
    assert Distinct([4, 0] + [4, 4]) == [4, 0] by {
      assert [4, 0] + [4, 4] == [4, 0, 4, 4];
      assert [4, 0, 4, 4][..3] == [4, 0, 4];
      assert [4, 0, 4][..2] == [4, 0];
      assert [4, 0][..1] == [4];
      assert [4][..0] == [];
    }
  }

  /** The safety alert of `compute`: a warning, not part of the result. */
  predicate SafetyAlert(m: MetricValues) {
    m.melSensitivity < SafetyThreshold
  }

  /** Without a `mel` row the three melanoma metrics are 0.0, so the alert fires. */
  lemma MelDefaults(classNames: seq<string>, preds: seq<int>, labels: seq<int>, balancedAccuracy: real,
                    report: Report, numProbColumns: nat,
                    aucMacro: Option<real>, aucMelanoma: seq<int> -> Option<real>)
    requires |preds| == |labels| && Melanoma !in report.perClass
    ensures var r := Compute(classNames, preds, labels, balancedAccuracy, report, numProbColumns, aucMacro, aucMelanoma);
      r.Ok? ==> var m := r.value;
      m.melSensitivity == 0.0 && m.melPrecision == 0.0 && m.melF1 == 0.0 && SafetyAlert(m)
  {
  }

  /** With a report that agrees with the predictions, melanoma sensitivity is
      the share of melanoma images predicted as melanoma; the alert fires
      exactly when that share is below 0.85, and always when the labels hold
      no melanoma. */
  lemma MelSensitivityIsRecall(classNames: seq<string>, preds: seq<int>, labels: seq<int>, balancedAccuracy: real,
                               report: Report, numProbColumns: nat,
                               aucMacro: Option<real>, aucMelanoma: seq<int> -> Option<real>)
    requires |preds| == |labels| && Melanoma in classNames && Melanoma in report.perClass
    requires ReportAgrees(report, preds, labels, classNames)
    ensures var r := Compute(classNames, preds, labels, balancedAccuracy, report, numProbColumns, aucMacro, aucMelanoma);
      r.Ok? ==> var m := r.value;
      var i := MelanomaIndex(classNames);
      && m.melSensitivity == ScoresOf(preds, labels, i).recall
      && 0.0 <= m.melSensitivity <= 1.0
      && (SafetyAlert(m) <==> ScoresOf(preds, labels, i).recall < SafetyThreshold)
      && (Count(labels, i) == 0 ==> SafetyAlert(m))
  {
    ScoresBounds(preds, labels, MelanomaIndex(classNames));
  }

  /** Both AUC values are 0.0 when either call fails or the melanoma column
      does not exist; otherwise they are the two calls' results. */
  lemma AucFallback(classNames: seq<string>, preds: seq<int>, labels: seq<int>, balancedAccuracy: real,
                    report: Report, numProbColumns: nat,
                    aucMacro: Option<real>, aucMelanoma: seq<int> -> Option<real>)
    requires |preds| == |labels|
    ensures var r := Compute(classNames, preds, labels, balancedAccuracy, report, numProbColumns, aucMacro, aucMelanoma);
      r.Ok? ==> var m := r.value;
      var i := MelanomaIndex(classNames);
      var bin := MelBinaryLabels(labels, i);
      && ((aucMacro.None? || i >= numProbColumns || aucMelanoma(bin).None?) ==>
            m.aucRocMacro == 0.0 && m.aucRocMelanoma == 0.0)
      && ((aucMacro.Some? && i < numProbColumns && aucMelanoma(bin).Some?) ==>
            m.aucRocMacro == aucMacro.value && m.aucRocMelanoma == aucMelanoma(bin).value)
  {
  }

  /** The remaining fields: the accuracy, the balanced accuracy and the two
      averaged F1 scores pass through, and the per-class F1 entries hold the
      classes' F1 scores, each between 0 and 1 when the report agrees. */
  lemma ComputeFields(classNames: seq<string>, preds: seq<int>, labels: seq<int>, balancedAccuracy: real,
                      report: Report, numProbColumns: nat,
                      aucMacro: Option<real>, aucMelanoma: seq<int> -> Option<real>, i: nat)
    requires |preds| == |labels| && ReportAgrees(report, preds, labels, classNames)
    requires i < |classNames| && classNames[i] in report.perClass
    ensures var r := Compute(classNames, preds, labels, balancedAccuracy, report, numProbColumns, aucMacro, aucMelanoma);
      r.Ok? ==> var m := r.value;
      && m.accuracy == Accuracy(preds, labels)
      && m.balancedAccuracy == balancedAccuracy && m.f1Macro == report.macroF1 && m.f1Weighted == report.weightedF1
      && ("f1_" + classNames[i], ScoresOf(preds, labels, i).f1) in m.perClassF1
      && 0.0 <= ScoresOf(preds, labels, i).f1 <= 1.0
  {
    PerClassF1Listed(classNames, report, i);
    ScoresBounds(preds, labels, i);
  }

  lemma {:induction false} PerClassF1Listed(classNames: seq<string>, report: Report, i: nat)
    requires i < |classNames| && classNames[i] in report.perClass
    ensures ("f1_" + classNames[i], report.perClass[classNames[i]].f1) in PerClassF1(classNames, report)
  {
    var k := |classNames| - 1;
    if i < k {
      PerClassF1Listed(classNames[..k], report, i);
    }
  }
}
