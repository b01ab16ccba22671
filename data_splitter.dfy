/** The stratified three-way split of the master table and the check of how
    well each class's share is preserved across the three splits. */
module DataSplitter {
  import opened Wrappers
  import opened Counting
  import opened DataMerger

  // ---------------------------------------------------------------------------
  // Construction
  // ---------------------------------------------------------------------------

  /** numpy's default relative and absolute tolerances of `isclose`. */
  const Rtol: real := 0.00001
  const Atol: real := 0.00000001

  function Abs(x: real): (r: real)
    ensures r >= 0.0 && (r == x || r == -x)
  {
    if x < 0.0 then -x else x
  }

  /** `np.isclose(x, 1.0)`: `|x - 1| <= atol + rtol * |1|`. */
  predicate CloseToOne(x: real) {
    Abs(x - 1.0) <= Atol + Rtol * 1.0
  }

  /** The configuration a splitter keeps after construction. */
  datatype Splitter = Splitter(trainRatio: real, valRatio: real, testRatio: real, randomState: int)

  datatype SplitError =
    | RatiosDoNotSumToOne(total: real)   // ValueError from the constructor
    | MetadataMissing                    // FileNotFoundError from the constructor
    | SplitFailed                        // an exception raised by `train_test_split`

  /** `StratifiedDataSplitter.__init__`: the ratio check comes first, then the
      existence of the metadata file. */
  function NewSplitter(metadataExists: bool, train: real, val: real, test: real, seed: int)
    : (r: Result<Splitter, SplitError>)
    ensures r.Ok? <==> CloseToOne(train + val + test) && metadataExists
    ensures !CloseToOne(train + val + test) ==> r == Err(RatiosDoNotSumToOne(train + val + test))
    ensures CloseToOne(train + val + test) && !metadataExists ==> r == Err(MetadataMissing)
    ensures r.Ok? ==> r.value == Splitter(train, val, test, seed)
  {
    if !CloseToOne(train + val + test) then Err(RatiosDoNotSumToOne(train + val + test))
    else if !metadataExists then Err(MetadataMissing)
    else Ok(Splitter(train, val, test, seed))
  }

  /** The check accepts the default 70/15/15 split and a sum that is off by
      the tolerance, rejects a sum off by twice it, and does not look at the
      sign of the individual ratios. */
  lemma RatioCheckExamples()
    ensures NewSplitter(true, 0.70, 0.15, 0.15, 42).Ok?
    ensures NewSplitter(true, 0.70, 0.15, 0.15001, 42).Ok?
    ensures NewSplitter(true, 0.70, 0.15, 0.15002, 42) == Err(RatiosDoNotSumToOne(1.00002))
    ensures NewSplitter(true, 1.2, -0.1, -0.1, 42).Ok?
    ensures NewSplitter(false, 0.5, 0.4, 0.2, 42) == Err(RatiosDoNotSumToOne(1.1))
  {
  }

  // ---------------------------------------------------------------------------
  // The two-stage split
  // ---------------------------------------------------------------------------

  /** `train_test_split(df, test_size, stratify=df['dx'], random_state)`: the
      kept part and the held-out part, or None when the library raises (for
      instance a class with a single row). Its algorithm is not modelled. */
  type Splitting = (seq<Row>, real, int) -> Option<(seq<Row>, seq<Row>)>

  /** What is assumed of the library: a successful split is a partition of its input. */
  ghost predicate Partitions(split: Splitting) {
    forall t, size, seed :: split(t, size, seed).Some? ==>
      multiset(t) == multiset(split(t, size, seed).value.0) + multiset(split(t, size, seed).value.1)
  }

  /** `split_data`: hold out `val_ratio + test_ratio` of the table, then halve
      the held-out part into validation and test, both times with the same seed. */
  function SplitData(s: Splitter, table: seq<Row>, split: Splitting)
    : (r: Result<(seq<Row>, seq<Row>, seq<Row>), SplitError>)
  {
    match split(table, s.valRatio + s.testRatio, s.randomState)
    case None => Err(SplitFailed)
    case Some((train, temp)) =>
      match split(temp, 0.5, s.randomState)
      case None => Err(SplitFailed)
      case Some((val, test)) => Ok((train, val, test))
  }

  /** The two stages: the first holds out `val + test`, the second always
      halves the held-out rows, and a failing stage fails the whole split. */
  lemma SplitStages(s: Splitter, table: seq<Row>, split: Splitting)
    ensures var first := split(table, s.valRatio + s.testRatio, s.randomState);
      && (SplitData(s, table, split).Ok? <==>
            first.Some? && split(first.value.1, 0.5, s.randomState).Some?)
      && (SplitData(s, table, split).Ok? ==>
            var (train, val, test) := SplitData(s, table, split).value;
            && train == first.value.0
            && split(first.value.1, 0.5, s.randomState) == Some((val, test)))
  {
  }

  /** The three tables depend only on the table, the held-out fraction
      `val + test` and the seed: the train ratio and how the held-out fraction
      is divided between val and test play no part. */
  lemma SplitDependsOnHoldoutAndSeed(s1: Splitter, s2: Splitter, table: seq<Row>, split: Splitting)
    requires s1.valRatio + s1.testRatio == s2.valRatio + s2.testRatio
    requires s1.randomState == s2.randomState
    ensures SplitData(s1, table, split) == SplitData(s2, table, split)
  {
  }

  /** With a partitioning library, the three tables together are the loaded table. */
  lemma SplitIsPartition(s: Splitter, table: seq<Row>, split: Splitting)
    requires Partitions(split)
    requires SplitData(s, table, split).Ok?
    ensures var (train, val, test) := SplitData(s, table, split).value;
      multiset(table) == multiset(train) + multiset(val) + multiset(test)
  {
    var first := split(table, s.valRatio + s.testRatio, s.randomState);
    var second := split(first.value.1, 0.5, s.randomState);
    assert multiset(table) == multiset(first.value.0) + multiset(first.value.1);
    assert multiset(first.value.1) == multiset(second.value.0) + multiset(second.value.1);
  }

  /** A table without repeated rows is split into three pairwise disjoint
      tables that together hold exactly its rows. */
  lemma SplitDisjoint(s: Splitter, table: seq<Row>, split: Splitting)
    requires Partitions(split)
    requires NoDup(table)
    requires SplitData(s, table, split).Ok?
    ensures var (train, val, test) := SplitData(s, table, split).value;
      && (forall r :: r in train ==> r !in val && r !in test)
      && (forall r :: r in val ==> r !in test)
      && (forall r :: r in table <==> r in train || r in val || r in test)
  {
    var (train, val, test) := SplitData(s, table, split).value;
    SplitIsPartition(s, table, split);
    forall r
      ensures r in train ==> r !in val && r !in test
      ensures r in val ==> r !in test
      ensures r in table <==> r in train || r in val || r in test
    {
      assert multiset(table)[r] == multiset(train)[r] + multiset(val)[r] + multiset(test)[r];
      CountInNoDup(table, r);
      assert multiset(table)[r] <= 1;
    }
  }

  // ---------------------------------------------------------------------------
  // Verification of the stratification
  // ---------------------------------------------------------------------------

  /** numpy rounding of a value to the nearest integer, ties to the even one. */
  function RoundHalfEven(y: real): (n: int)
    ensures y.Floor <= n <= y.Floor + 1
    ensures Abs(n as real - y) <= 0.5
    ensures y == y.Floor as real ==> n == y.Floor
  {
    var f := y.Floor;
    var frac := y - f as real;
    if frac < 0.5 then f
    else if frac > 0.5 then f + 1
    else if f % 2 == 0 then f
    else f + 1
  }

  /** `round(2)` of a value in exact arithmetic. */
  function Round2(x: real): (r: real)
    ensures Abs(r - x) <= 0.005
  {
    RoundHalfEven(x * 100.0) as real / 100.0
  }

  /** Rounding keeps a percentage a percentage. */
  lemma Round2Bounds(x: real)
    requires 0.0 <= x <= 100.0
    ensures 0.0 <= Round2(x) <= 100.0
  {
    var y := x * 100.0;
    if y == 10000.0 {
      assert y.Floor == 10000;
    } else {
      assert y.Floor <= 9999;
    }
  }

  /** The percentage of `c` in a split's `dx` column, rounded to two places;
      None (NaN in the comparison table) when the class does not occur in it. */
  function Percent(col: seq<string>, c: string): (p: Option<real>)
    ensures p.Some? <==> c in col
  {
    PercentOfCount(Count(col, c), |col|)
  }

  /** `n` out of `total` as a rounded percentage, None for zero. */
  function PercentOfCount(n: nat, total: nat): Option<real>
    requires n <= total
  {
    if n == 0 then None
    else Some(Round2(n as real / total as real * 100.0))
  }

  lemma {:induction false} PercentBounds(col: seq<string>, c: string)
    ensures Percent(col, c).Some? ==> 0.0 <= Percent(col, c).value <= 100.0
  {
    var n := Count(col, c);
    if n > 0 {
      FractionBounds(n, |col|);
      Round2Bounds(n as real / |col| as real * 100.0);
    }
  }

  /** `max(axis=1)` over some cells: NaN cells are skipped, and the result is
      NaN only when every cell is. */
  function MaxPresent(ps: seq<Option<real>>): (m: Option<real>)
    ensures m.None? <==> forall i :: 0 <= i < |ps| ==> ps[i].None?
    ensures m.Some? ==> forall i :: 0 <= i < |ps| && ps[i].Some? ==> ps[i].value <= m.value
    ensures m.Some? ==> exists i :: 0 <= i < |ps| && ps[i] == m
  {
    if ps == [] then None
    else
      var rest := MaxPresent(ps[1..]);
      var m := if ps[0].None? then rest
               else if rest.None? || rest.value < ps[0].value then ps[0]
               else rest;
      assert m.Some? && m != ps[0] ==> ps[1..][PresentIndex(ps[1..], m)] == m;
      m
  }

  /** `min(axis=1)`, with the same NaN rule as `MaxPresent`. */
  function MinPresent(ps: seq<Option<real>>): (m: Option<real>)
    ensures m.None? <==> forall i :: 0 <= i < |ps| ==> ps[i].None?
    ensures m.Some? ==> forall i :: 0 <= i < |ps| && ps[i].Some? ==> m.value <= ps[i].value
    ensures m.Some? ==> exists i :: 0 <= i < |ps| && ps[i] == m
  {
    if ps == [] then None
    else
      var rest := MinPresent(ps[1..]);
      var m := if ps[0].None? then rest
               else if rest.None? || ps[0].value < rest.value then ps[0]
               else rest;
      assert m.Some? && m != ps[0] ==> ps[1..][PresentIndex(ps[1..], m)] == m;
      m
  }

  /** A position at which a present value occurs. */
  function PresentIndex(ps: seq<Option<real>>, m: Option<real>): (i: nat)
    requires exists i :: 0 <= i < |ps| && ps[i] == m
    ensures i < |ps| && ps[i] == m
  {
    if ps[0] == m then 0
    else
      assert exists i :: 0 <= i < |ps[1..]| && ps[1..][i] == m by {
        var i :| 0 <= i < |ps| && ps[i] == m;
        assert ps[1..][i - 1] == m;
      }
      1 + PresentIndex(ps[1..], m)
  }

  /** One row of the comparison table. */
  datatype ClassRow = ClassRow(
    cls: string,
    trainPct: Option<real>, valPct: Option<real>, testPct: Option<real>,
    trainCount: Option<nat>, valCount: Option<nat>, testCount: Option<nat>,
    maxDeviation: Option<real>)

  datatype Verdict = Excellent | Good | Suboptimal

  datatype Verification = Verification(rows: seq<ClassRow>, maxDeviation: Option<real>, verdict: Verdict)

  /** The spread of a class's percentages over the splits it occurs in. */
  function Deviation(ps: seq<Option<real>>): (d: Option<real>)
    ensures d.None? <==> forall i :: 0 <= i < |ps| ==> ps[i].None?
    ensures d.Some? ==> d.value >= 0.0
    ensures d.Some? ==> forall i, j :: 0 <= i < |ps| && 0 <= j < |ps| && ps[i].Some? && ps[j].Some? ==>
      ps[i].value - ps[j].value <= d.value
    ensures d.Some? ==> exists i, j :: (0 <= i < |ps| && 0 <= j < |ps| && ps[i].Some? && ps[j].Some?
      && d.value == ps[i].value - ps[j].value)
  {
    match (MaxPresent(ps), MinPresent(ps))
    case (Some(hi), Some(lo)) =>
      var i := PresentIndex(ps, Some(hi));
      var j := PresentIndex(ps, Some(lo));
      assert hi - lo == ps[i].value - ps[j].value;
      Some(hi - lo)
    case _ => None
  }

  /** The `<split> Count` cell of a class: the aligned `value_counts` has no
      entry, so NaN, for a class absent from the split. */
  function CountCell(col: seq<string>, c: string): (n: Option<nat>)
    ensures n.None? <==> c !in col
    ensures n.Some? ==> n.value == Count(col, c) && n.value > 0
  {
    if Count(col, c) == 0 then None else Some(Count(col, c))
  }

  function ClassRowOf(c: string, a: seq<string>, b: seq<string>, t: seq<string>): ClassRow {
    var ps := [Percent(a, c), Percent(b, c), Percent(t, c)];
    ClassRow(c, ps[0], ps[1], ps[2], CountCell(a, c), CountCell(b, c), CountCell(t, c), Deviation(ps))
  }

  /** The verdict on the largest deviation; an all-NaN maximum compares false
      with both thresholds and gets the warning. */
  function VerdictOf(m: Option<real>): (v: Verdict)
    ensures v == Excellent <==> m.Some? && m.value < 2.0
    ensures v == Good <==> m.Some? && 2.0 <= m.value < 5.0
    ensures v == Suboptimal <==> m.None? || m.value >= 5.0
  {
    if m.Some? && m.value < 2.0 then Excellent
    else if m.Some? && m.value < 5.0 then Good
    else Suboptimal
  }

  /** The comparison rows: one per class occurring in some split, in order of
      first appearance. */
  function ComparisonRows(a: seq<string>, b: seq<string>, t: seq<string>): (rows: seq<ClassRow>)
    ensures |rows| == |Distinct(a + b + t)|
    ensures forall i :: 0 <= i < |rows| ==> rows[i] == ClassRowOf(Distinct(a + b + t)[i], a, b, t)
    ensures forall i :: 0 <= i < |rows| ==>
      && (rows[i].trainCount.None? <==> rows[i].cls !in a)
      && (rows[i].valCount.None? <==> rows[i].cls !in b)
      && (rows[i].testCount.None? <==> rows[i].cls !in t)
      && (rows[i].trainPct.None? <==> rows[i].trainCount.None?)
      && (rows[i].valPct.None? <==> rows[i].valCount.None?)
      && (rows[i].testPct.None? <==> rows[i].testCount.None?)
      && (rows[i].trainCount.Some? ==> rows[i].trainCount.value == Count(a, rows[i].cls))
      && (rows[i].valCount.Some? ==> rows[i].valCount.value == Count(b, rows[i].cls))
      && (rows[i].testCount.Some? ==> rows[i].testCount.value == Count(t, rows[i].cls))
  {
    var classes := Distinct(a + b + t);
    seq(|classes|, i requires 0 <= i < |classes| => ClassRowOf(classes[i], a, b, t))
  }

  /** The `Max Deviation` column. */
  function DeviationColumn(rows: seq<ClassRow>): (ds: seq<Option<real>>)
    ensures |ds| == |rows| && forall i :: 0 <= i < |rows| ==> ds[i] == rows[i].maxDeviation
  {
    seq(|rows|, i requires 0 <= i < |rows| => rows[i].maxDeviation)
  }

  /** `verify_stratification`: the comparison rows, the largest per-class
      deviation, and the verdict on it. */
  function VerifyStratification(train: seq<Row>, val: seq<Row>, test: seq<Row>): Verification {
    var rows := ComparisonRows(DxColumn(train), DxColumn(val), DxColumn(test));
    var overall := MaxPresent(DeviationColumn(rows));
    Verification(rows, overall, VerdictOf(overall))
  }

  /** A class present in some split gets a deviation between 0 and 100. */
  lemma ClassRowDeviation(c: string, a: seq<string>, b: seq<string>, t: seq<string>)
    requires c in a || c in b || c in t
    ensures ClassRowOf(c, a, b, t).maxDeviation.Some?
    ensures 0.0 <= ClassRowOf(c, a, b, t).maxDeviation.value <= 100.0
  {
    var ps := [Percent(a, c), Percent(b, c), Percent(t, c)];
    assert ps[0].Some? || ps[1].Some? || ps[2].Some?;
    PercentBounds(a, c);
    PercentBounds(b, c);
    PercentBounds(t, c);
    DeviationOfPercents(ps);
  }

  lemma DeviationOfPercents(ps: seq<Option<real>>)
    requires exists i :: 0 <= i < |ps| && ps[i].Some?
    requires forall i :: 0 <= i < |ps| && ps[i].Some? ==> 0.0 <= ps[i].value <= 100.0
    ensures Deviation(ps).Some? && 0.0 <= Deviation(ps).value <= 100.0
  {
    var hi := MaxPresent(ps).value;
    var lo := MinPresent(ps).value;
    assert exists i :: 0 <= i < |ps| && ps[i] == Some(lo);
    assert exists i :: 0 <= i < |ps| && ps[i] == Some(hi);
  }

  /** The table has one row per class present in some split, each class once,
      and every row's deviation is a number between 0 and 100. */
  lemma VerificationRows(train: seq<Row>, val: seq<Row>, test: seq<Row>)
    ensures var v := VerifyStratification(train, val, test);
      var all := DxColumn(train) + DxColumn(val) + DxColumn(test);
      && (forall c :: c in all <==> exists i :: 0 <= i < |v.rows| && v.rows[i].cls == c)
      && (forall i, j :: 0 <= i < j < |v.rows| ==> v.rows[i].cls != v.rows[j].cls)
      && (forall i :: 0 <= i < |v.rows| ==>
            v.rows[i].maxDeviation.Some? && 0.0 <= v.rows[i].maxDeviation.value <= 100.0)
  {
    var a, b, t := DxColumn(train), DxColumn(val), DxColumn(test);
    assert VerifyStratification(train, val, test).rows == ComparisonRows(a, b, t);
    RowsCoverClasses(a, b, t);
    RowsBounded(a, b, t);
  }

  lemma RowsCoverClasses(a: seq<string>, b: seq<string>, t: seq<string>)
    ensures var rows := ComparisonRows(a, b, t);
      && (forall c :: c in a + b + t <==> exists i :: 0 <= i < |rows| && rows[i].cls == c)
      && (forall i, j :: 0 <= i < j < |rows| ==> rows[i].cls != rows[j].cls)
  {
    var rows := ComparisonRows(a, b, t);
    var classes := Distinct(a + b + t);
    forall c ensures c in a + b + t <==> exists i :: 0 <= i < |rows| && rows[i].cls == c {
      if c in a + b + t {
        var i :| 0 <= i < |classes| && classes[i] == c;
        assert rows[i].cls == c;
      }
      if exists i :: 0 <= i < |rows| && rows[i].cls == c {
        var i :| 0 <= i < |rows| && rows[i].cls == c;
        assert classes[i] in classes;
      }
    }
  }

  lemma RowsBounded(a: seq<string>, b: seq<string>, t: seq<string>)
    ensures var rows := ComparisonRows(a, b, t);
      forall i :: 0 <= i < |rows| ==> rows[i].maxDeviation.Some? && 0.0 <= rows[i].maxDeviation.value <= 100.0
  {
    var rows := ComparisonRows(a, b, t);
    var classes := Distinct(a + b + t);
    forall i | 0 <= i < |rows|
      ensures rows[i].maxDeviation.Some? && 0.0 <= rows[i].maxDeviation.value <= 100.0
    {
      assert classes[i] in classes;
      ClassRowDeviation(classes[i], a, b, t);
    }
  }

  /** The overall maximum is NaN exactly when all three splits are empty, and
      then the verdict is the warning. */
  lemma OverallNaNOnlyWhenEmpty(train: seq<Row>, val: seq<Row>, test: seq<Row>)
    ensures var v := VerifyStratification(train, val, test);
      && (v.maxDeviation.None? <==> train == [] && val == [] && test == [])
      && (v.maxDeviation.None? ==> v.verdict == Suboptimal)
  {
    var a, b, t := DxColumn(train), DxColumn(val), DxColumn(test);
    assert VerifyStratification(train, val, test).maxDeviation == MaxPresent(DeviationColumn(ComparisonRows(a, b, t)));
    OverallOfColumns(a, b, t);
    assert a + b + t == [] <==> train == [] && val == [] && test == [];
  }

  lemma OverallOfColumns(a: seq<string>, b: seq<string>, t: seq<string>)
    ensures MaxPresent(DeviationColumn(ComparisonRows(a, b, t))).None? <==> a + b + t == []
  {
    var rows := ComparisonRows(a, b, t);
    RowsBounded(a, b, t);
    var all := a + b + t;
    if all != [] {
      assert all[0] in all;
      RowsCoverClasses(a, b, t);
      var i :| 0 <= i < |rows| && rows[i].cls == all[0];
      assert DeviationColumn(rows)[i].Some?;
    }
  }

  /** A class held in the same proportion by all three splits has deviation 0. */
  lemma ProportionalClassRow(c: string, a: seq<string>, b: seq<string>, t: seq<string>)
    requires a != [] && b != [] && t != []
    requires c in a || c in b || c in t
    requires Count(a, c) as real / |a| as real == Count(b, c) as real / |b| as real
    requires Count(a, c) as real / |a| as real == Count(t, c) as real / |t| as real
    ensures ClassRowOf(c, a, b, t).maxDeviation == Some(0.0)
  {
    SameShareSamePercent(a, b, c);
    SameShareSamePercent(a, t, c);
    EqualPercentsNoDeviation([Percent(a, c), Percent(b, c), Percent(t, c)]);
  }

  lemma EqualPercentsNoDeviation(ps: seq<Option<real>>)
    requires |ps| == 3 && ps[0] == ps[1] == ps[2] && ps[0].Some?
    ensures Deviation(ps) == Some(0.0)
  {
    var hi := MaxPresent(ps).value;
    var lo := MinPresent(ps).value;
    assert exists i :: 0 <= i < 3 && ps[i] == Some(lo);
    assert exists i :: 0 <= i < 3 && ps[i] == Some(hi);
  }

  /** Two splits holding a class in the same proportion report the same percentage. */
  lemma SameShareSamePercent(a: seq<string>, b: seq<string>, c: string)
    requires a != [] && b != []
    requires Count(a, c) as real / |a| as real == Count(b, c) as real / |b| as real
    ensures Percent(a, c) == Percent(b, c)
  {
    SameShareSameCount(Count(a, c), |a|, Count(b, c), |b|);
  }

  lemma SameShareSameCount(m: nat, d: nat, n: nat, e: nat)
    requires 0 < d && m <= d && 0 < e && n <= e && m as real / d as real == n as real / e as real
    ensures PercentOfCount(m, d) == PercentOfCount(n, e)
  {
    ZeroShare(m as real, d as real, n as real, e as real);
  }

  lemma ZeroShare(x: real, m: real, y: real, n: real)
    requires m > 0.0 && n > 0.0 && x >= 0.0 && y >= 0.0
    requires x / m == y / n
    ensures x == 0.0 <==> y == 0.0
  {
    assert x == (x / m) * m;
    assert y == (y / n) * n;
  }

  /** Splits that hold every class in the same proportion deviate by 0 and are
      judged excellent. */
  lemma ProportionalSplitsExcellent(train: seq<Row>, val: seq<Row>, test: seq<Row>)
    requires train != [] && val != [] && test != []
    requires forall c :: Count(DxColumn(train), c) as real / |train| as real == Count(DxColumn(val), c) as real / |val| as real
    requires forall c :: Count(DxColumn(train), c) as real / |train| as real == Count(DxColumn(test), c) as real / |test| as real
    ensures VerifyStratification(train, val, test).maxDeviation == Some(0.0)
    ensures VerifyStratification(train, val, test).verdict == Excellent
  {
    var a, b, t := DxColumn(train), DxColumn(val), DxColumn(test);
    var rows := VerifyStratification(train, val, test).rows;
    var classes := Distinct(a + b + t);
    assert rows == ComparisonRows(a, b, t);
    var ds := DeviationColumn(rows);
    forall k | 0 <= k < |rows| ensures ds[k] == Some(0.0) {
      assert classes[k] in classes;
      ProportionalClassRow(classes[k], a, b, t);
    }
    assert a[0] in a + b + t;
    var i :| 0 <= i < |classes| && classes[i] == a[0];
    assert ds[i] == Some(0.0);
    assert exists j :: 0 <= j < |ds| && ds[j] == MaxPresent(ds);
  }
}
