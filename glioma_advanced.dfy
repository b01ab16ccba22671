/** The second glioma dataset: patients split before slices are chosen,
    each patient expanded into its top tumour slices by mask area, the
    tabular columns sanitised and scaled, the survival normalised. */
module GliomaAdvanced {
  import opened Wrappers
  import opened Strings
  import opened Images
  import opened Tables

  /** The numeric columns, which are also the tabular vector, in this order. */
  const NumericTargets: seq<string> := ["AGE", "GENDER", "IDH1", "TP53", "ATRX", "CIC", "PTEN"]

  const MaskSuffix: string := "_mask.tif"
  const ImageSuffix: string := ".tif"
  const MaxSurvival: real := 100.0

  /** The upper-cased grade strings that count as high grade. */
  const HighGrades: seq<string> := ["G3", "GBM", "1", "WHO IV"]

  datatype DatasetError =
    | Table(e: TableError)  // KeyError or ValueError from the frame operations
    | SplitFailed           // ValueError from `train_test_split`
    | PatientIdNotText      // `pid.replace` on a value that is not a string
    | NotANumber            // `float()` of a string that is not a number

  // ---------------------------------------------------------------------
  // Sanitisation

  /** `replace('Unknown', np.nan)`. */
  function Wipe(c: Cell): Cell {
    if c == Text("Unknown") then Missing else c
  }

  /** `map({'Male': 0, 'Female': 1})`: anything else becomes NaN. */
  function GenderCode(c: Cell): Cell {
    if c == Text("Male") then Num(0.0) else if c == Text("Female") then Num(1.0) else Missing
  }

  /** `pd.to_numeric(errors='coerce')`: `parse` stands for reading a number
      from a string; a string that is not one becomes NaN. */
  function Coerce(c: Cell, parse: string -> Option<real>): Cell {
    if c.Text? then (if parse(c.s).Some? then Num(parse(c.s).value) else Missing) else c
  }

  /** `fillna(0.0)`. */
  function FillZero(c: Cell): Cell {
    if c == Missing then Num(0.0) else c
  }

  /** `replace('Unknown', np.nan)` over the whole frame. */
  function WipeFrame(df: Frame): (r: Frame)
    ensures r.columns == df.columns && |r.rows| == |df.rows|
    ensures forall i :: 0 <= i < |df.rows| ==> r.rows[i].Keys == df.rows[i].Keys
    ensures forall i, c :: 0 <= i < |df.rows| && c in df.rows[i] ==> r.rows[i][c] == Wipe(df.rows[i][c])
  {
    Frame(df.columns, seq(|df.rows|, i requires 0 <= i < |df.rows| =>
      map c | c in df.rows[i] :: Wipe(df.rows[i][c])))
  }

  /** `df[cols] = df[cols].fillna(0.0)`. */
  function FillFrame(df: Frame, cols: seq<string>): (r: Frame)
    ensures r.columns == df.columns && |r.rows| == |df.rows|
    ensures forall i :: 0 <= i < |df.rows| ==> r.rows[i].Keys == df.rows[i].Keys
    ensures forall i, c :: 0 <= i < |df.rows| && c in df.rows[i] ==>
      r.rows[i][c] == (if c in cols then FillZero(df.rows[i][c]) else df.rows[i][c])
  {
    Frame(df.columns, seq(|df.rows|, i requires 0 <= i < |df.rows| =>
      map c | c in df.rows[i] :: if c in cols then FillZero(df.rows[i][c]) else df.rows[i][c]))
  }

  /** What sanitisation makes of one cell of column `col`. */
  function SanitisedCell(col: string, c: Cell, parse: string -> Option<real>): Cell {
    if col == "GENDER" then FillZero(GenderCode(Wipe(c)))
    else if col in NumericTargets then FillZero(Coerce(Wipe(c), parse))
    else Wipe(c)
  }

  /** The sanitised frame: `full_df[numeric_targets]` needs every numeric
      column, and otherwise every cell is rewritten on its own. */
  function Sanitised(df: Frame, parse: string -> Option<real>): Result<Frame, DatasetError> {
    if exists c :: c in NumericTargets && c !in df.columns then Err(Table(MissingColumn))
    else Ok(Frame(df.columns, seq(|df.rows|, i requires 0 <= i < |df.rows| =>
      map c | c in df.rows[i] :: SanitisedCell(c, df.rows[i][c], parse))))
  }

  /** A cell of column `col` after the first `k` numeric columns were coerced. */
  function Stage(col: string, c: Cell, parse: string -> Option<real>, k: nat): Cell
    requires k <= |NumericTargets|
  {
    var w := if col == "GENDER" then GenderCode(Wipe(c)) else Wipe(c);
    if col in NumericTargets[..k] then Coerce(w, parse) else w
  }

  /** The sanitisation block of `__init__`, rewriting the frame step by step. */
  method Sanitise(df: Frame, parse: string -> Option<real>) returns (r: Result<Frame, DatasetError>)
    requires WellFormed(df)
    ensures r == Sanitised(df, parse)
  {
    var full := WipeFrame(df);
    if "GENDER" in full.columns {
      full := MapColumn(full, "GENDER", GenderCode);
    }
    GenderStage(df, parse);
    var k := 0;
    while k < |NumericTargets|
      invariant 0 <= k <= |NumericTargets|
      invariant StagedAt(df, full, parse, k)
    {
      var col := NumericTargets[k];
      CoerceStage(df, full, parse, k);
      if col in full.columns {
        full := CoerceColumn(full, col, parse);
      }
      k := k + 1;
    }
    if exists c :: c in NumericTargets && c !in full.columns {
      return Err(Table(MissingColumn));
    }
    FilledStages(df, full, parse);
    r := Ok(FillFrame(full, NumericTargets));
  }

  /** `df[col] = pd.to_numeric(df[col], errors='coerce')`. */
  function CoerceColumn(df: Frame, col: string, parse: string -> Option<real>): Frame {
    MapColumn(df, col, c => Coerce(c, parse))
  }

  /** The loop invariant of `Sanitise`: `full` is `df` after the wipe, the
      gender encoding and the coercion of the first `k` numeric columns. */
  ghost predicate StagedAt(df: Frame, full: Frame, parse: string -> Option<real>, k: nat)
    requires k <= |NumericTargets|
  {
    && full.columns == df.columns && |full.rows| == |df.rows|
    && (forall i :: 0 <= i < |df.rows| ==> full.rows[i].Keys == df.rows[i].Keys)
    && forall i, c :: 0 <= i < |df.rows| && c in df.rows[i] ==>
      full.rows[i][c] == Stage(c, df.rows[i][c], parse, k)
  }

  lemma GenderStage(df: Frame, parse: string -> Option<real>)
    requires WellFormed(df)
    ensures var w := WipeFrame(df);
      StagedAt(df, if "GENDER" in w.columns then MapColumn(w, "GENDER", GenderCode) else w, parse, 0)
  {
    assert forall i :: 0 <= i < |df.rows| ==> ("GENDER" in df.rows[i] <==> "GENDER" in df.columns);
  }

  lemma CoerceStage(df: Frame, full: Frame, parse: string -> Option<real>, k: nat)
    requires WellFormed(df) && k < |NumericTargets|
    requires StagedAt(df, full, parse, k)
    ensures var col := NumericTargets[k];
      StagedAt(df, if col in full.columns then CoerceColumn(full, col, parse) else full, parse, k + 1)
  {
    var col := NumericTargets[k];
    assert NumericTargets[..k + 1] == NumericTargets[..k] + [col];
    assert forall i :: 0 <= i < |df.rows| ==> (col in df.rows[i] <==> col in df.columns);
  }

  /** Once every numeric column is coerced, filling the gaps gives the
      sanitised frame. */
  lemma FilledStages(df: Frame, full: Frame, parse: string -> Option<real>)
    requires forall c :: c in NumericTargets ==> c in df.columns
    requires StagedAt(df, full, parse, |NumericTargets|)
    ensures Sanitised(df, parse) == Ok(FillFrame(full, NumericTargets))
  {
    var filled := FillFrame(full, NumericTargets);
    var spec := Sanitised(df, parse).value;
    assert NumericTargets[..|NumericTargets|] == NumericTargets;
    forall i | 0 <= i < |df.rows| ensures filled.rows[i] == spec.rows[i] {
      assert filled.rows[i].Keys == spec.rows[i].Keys;
      forall c | c in df.rows[i] ensures filled.rows[i][c] == spec.rows[i][c] {
        assert Coerce(GenderCode(Wipe(df.rows[i][c])), parse) == GenderCode(Wipe(df.rows[i][c]));
      }
    }
    assert filled.rows == spec.rows;
  }

  /** After sanitisation every numeric column holds numbers only (so the
      block creating missing numeric columns never adds one), the gender is 1
      exactly for `Female` and 0 for everything else, `Unknown` is NaN in the
      other columns, and nothing else changes. */
  lemma SanitisedSpec(df: Frame, parse: string -> Option<real>)
    requires WellFormed(df)
    ensures Sanitised(df, parse).Ok? <==> forall c :: c in NumericTargets ==> c in df.columns
    ensures Sanitised(df, parse).Ok? ==> var r := Sanitised(df, parse).value;
      && Clean(r) && r.columns == df.columns && |r.rows| == |df.rows|
      && (forall i :: 0 <= i < |df.rows| ==>
            r.rows[i]["GENDER"] == (if df.rows[i]["GENDER"] == Text("Female") then Num(1.0) else Num(0.0)))
      && (forall i, c :: 0 <= i < |df.rows| && c in df.columns && c !in NumericTargets ==>
            r.rows[i][c] == (if df.rows[i][c] == Text("Unknown") then Missing else df.rows[i][c]))
  {
  }

  /** The state sanitisation establishes: a well-formed frame whose numeric
      columns hold numbers only. */
  predicate Clean(df: Frame) {
    && WellFormed(df)
    && (forall c :: c in NumericTargets ==> c in df.columns)
    && forall i :: 0 <= i < |df.rows| ==> CleanRow(df.rows[i])
  }

  /** A row whose numeric columns all hold numbers. */
  predicate CleanRow(row: Row) {
    forall c :: c in NumericTargets ==> c in row && row[c].Num?
  }

  // ---------------------------------------------------------------------
  // Patient split

  /** `Series.unique()`: each value once, in order of first appearance. */
  function Unique(ids: seq<Cell>): (u: seq<Cell>)
    ensures forall c :: c in u <==> c in ids
    ensures forall i, j :: 0 <= i < j < |u| ==> u[i] != u[j]
  {
    if ids == [] then []
    else
      var u := Unique(ids[..|ids| - 1]);
      assert forall c :: c in ids <==> c in ids[..|ids| - 1] || c == ids[|ids| - 1];
      if ids[|ids| - 1] in u then u else u + [ids[|ids| - 1]]
  }

  /** `df[df['PATIENT_ID'].isin(target)]`: the rows of the target patients, in order. */
  function RowsOf(rows: seq<Row>, target: seq<Cell>): (r: seq<Row>)
    requires forall i :: 0 <= i < |rows| ==> "PATIENT_ID" in rows[i]
    ensures |r| <= |rows|
    ensures forall row :: row in r <==> row in rows && row["PATIENT_ID"] in target
  {
    if rows == [] then []
    else
      var r := RowsOf(rows[..|rows| - 1], target);
      var last := rows[|rows| - 1];
      assert forall row :: row in rows <==> row in rows[..|rows| - 1] || row == last;
      if last["PATIENT_ID"] in target then r + [last] else r
  }

  /** The patients of this mode: the distinct ids are split (`split` stands
      for `train_test_split` with its fixed seed, None when it raises), and
      the rows of the chosen side are kept. */
  function PatientData(df: Frame, mode: string, split: seq<Cell> -> Option<(seq<Cell>, seq<Cell>)>)
    : (r: Result<Frame, DatasetError>)
    requires WellFormed(df)
    ensures r.Ok? ==> r.value.columns == df.columns && WellFormed(r.value)
    ensures r.Ok? ==> forall i :: 0 <= i < |r.value.rows| ==> r.value.rows[i] in df.rows
  {
    if "PATIENT_ID" !in df.columns then Err(Table(MissingColumn))
    else
      var ids := Unique(Column(df, "PATIENT_ID"));
      var parts := split(ids);
      if parts.None? then Err(SplitFailed)
      else
        var target := if mode == "train" then parts.value.0 else parts.value.1;
        var rows := RowsOf(df.rows, target);
        assert forall i :: 0 <= i < |rows| ==> rows[i] in df.rows;
        Ok(Frame(df.columns, rows))
  }

  /** Patients, not slices, are split: when the two sides of the split share
      no patient, no patient has rows in both the training and the validation
      selection, and when the sides cover every patient, every row of the
      frame is in one of the two selections. */
  lemma NoPatientLeakage(df: Frame, split: seq<Cell> -> Option<(seq<Cell>, seq<Cell>)>)
    requires WellFormed(df) && "PATIENT_ID" in df.columns
    requires split(Unique(Column(df, "PATIENT_ID"))).Some?
    ensures PatientData(df, "train", split).Ok? && PatientData(df, "val", split).Ok?
    ensures var parts := split(Unique(Column(df, "PATIENT_ID"))).value;
      var train := PatientData(df, "train", split).value.rows;
      var val := PatientData(df, "val", split).value.rows;
      (forall id :: id in parts.0 ==> id !in parts.1) ==>
        forall i, j :: 0 <= i < |train| && 0 <= j < |val| ==> train[i]["PATIENT_ID"] != val[j]["PATIENT_ID"]
    ensures var ids := Unique(Column(df, "PATIENT_ID"));
      var parts := split(ids).value;
      var train := PatientData(df, "train", split).value.rows;
      var val := PatientData(df, "val", split).value.rows;
      (forall id :: id in ids ==> id in parts.0 || id in parts.1) ==>
        forall row :: row in df.rows ==> row in train || row in val
  {
    var ids := Unique(Column(df, "PATIENT_ID"));
    var parts := split(ids).value;
    var train := RowsOf(df.rows, parts.0);
    var val := RowsOf(df.rows, parts.1);
    assert PatientData(df, "train", split).value.rows == train;
    assert PatientData(df, "val", split).value.rows == val;
    if forall id :: id in parts.0 ==> id !in parts.1 {
      forall i, j | 0 <= i < |train| && 0 <= j < |val|
        ensures train[i]["PATIENT_ID"] != val[j]["PATIENT_ID"]
      {
        assert train[i] in train && val[j] in val;
      }
    }
    if forall id :: id in ids ==> id in parts.0 || id in parts.1 {
      forall row | row in df.rows ensures row in train || row in val {
        var k :| 0 <= k < |df.rows| && df.rows[k] == row;
        assert Column(df, "PATIENT_ID")[k] == row["PATIENT_ID"];
      }
    }
  }

  // ---------------------------------------------------------------------
  // Slice expansion

  /** The file system the expansion reads: whether a path exists, the
      entries of a directory, and the number of positive pixels of a mask
      (None when `cv2.imread` cannot read it). */
  datatype FileSystem = FileSystem(
    present: string -> bool,
    listdir: string -> seq<string>,
    maskArea: string -> Option<nat>)

  /** `os.path.join(a, b)`. */
  function PathJoin(a: string, b: string): string {
    if StartsWith(b, "/") || a == "" then b
    else if a[|a| - 1] == '/' then a + b
    else a + "/" + b
  }

  /** The first entry of a listing that starts with the prefix. */
  function FirstWithPrefix(items: seq<string>, prefix: string): (r: Option<nat>)
    ensures r.Some? ==> (r.value < |items| && StartsWith(items[r.value], prefix)
      && forall j :: 0 <= j < r.value ==> !StartsWith(items[j], prefix))
    ensures r.None? ==> forall j :: 0 <= j < |items| ==> !StartsWith(items[j], prefix)
  {
    if items == [] then None
    else if StartsWith(items[0], prefix) then Some(0)
    else
      var r := FirstWithPrefix(items[1..], prefix);
      if r.None? then None else Some(r.value + 1)
  }

  /** The folder of a patient: the first entry of the data folder that
      starts with the patient's id with `-` replaced by `_`. */
  function PatientFolder(kaggle: string, pid: string, fs: FileSystem): Option<string> {
    if !fs.present(kaggle) then None
    else
      var items := fs.listdir(kaggle);
      var found := FirstWithPrefix(items, ReplaceAll(pid, "-", "_"));
      if found.None? then None else Some(PathJoin(kaggle, items[found.value]))
  }

  /** The folder search of `_expand_slices`. */
  method FindPatientFolder(kaggle: string, pid: string, fs: FileSystem) returns (path: Option<string>)
    ensures path == PatientFolder(kaggle, pid, fs)
  {
    var prefix := ReplaceAll(pid, "-", "_");
    path := None;
    if fs.present(kaggle) {
      var items := fs.listdir(kaggle);
      var i := 0;
      while i < |items|
        invariant 0 <= i <= |items|
        invariant forall j :: 0 <= j < i ==> !StartsWith(items[j], prefix)
      {
        if StartsWith(items[i], prefix) {
          return Some(PathJoin(kaggle, items[i]));
        }
        i := i + 1;
      }
    }
  }

  /** A slice candidate: the mask area and the path of the image. */
  type Candidate = (nat, string)

  /** The image of a mask file: `_mask.tif` replaced by `.tif`. */
  function ImageName(mask: string): string {
    ReplaceAll(mask, MaskSuffix, ImageSuffix)
  }

  /** The candidate a directory entry gives, if any: a mask file that can
      be read and has a positive area. */
  function CandidateOf(dir: string, f: string, fs: FileSystem): Option<Candidate> {
    if !Contains(f, MaskSuffix) then None
    else
      var area := fs.maskArea(PathJoin(dir, f));
      if area.None? || area.value == 0 then None
      else Some((area.value, PathJoin(dir, ImageName(f))))
  }

  /** The candidates of the entries, in listing order. */
  function CandidatesFrom(dir: string, files: seq<string>, fs: FileSystem): (cs: seq<Candidate>)
    ensures |cs| <= |files|
  {
    if files == [] then []
    else
      var prev := CandidatesFrom(dir, files[..|files| - 1], fs);
      var c := CandidateOf(dir, files[|files| - 1], fs);
      if c.Some? then prev + [c.value] else prev
  }

  /** The slice candidates of a patient folder. */
  function Candidates(dir: string, fs: FileSystem): seq<Candidate> {
    if fs.present(dir) then CandidatesFrom(dir, fs.listdir(dir), fs) else []
  }

  /** The mask scan of `_expand_slices`. */
  method CollectCandidates(dir: string, fs: FileSystem) returns (cs: seq<Candidate>)
    ensures cs == Candidates(dir, fs)
  {
    cs := [];
    if fs.present(dir) {
      var files := fs.listdir(dir);
      var i := 0;
      while i < |files|
        invariant 0 <= i <= |files|
        invariant cs == CandidatesFrom(dir, files[..i], fs)
      {
        assert files[..i + 1][..i] == files[..i];
        var f := files[i];
        if Contains(f, MaskSuffix) {
          var area := fs.maskArea(PathJoin(dir, f));
          if area.Some? && area.value > 0 {
            cs := cs + [(area.value, PathJoin(dir, ImageName(f)))];
          }
        }
        i := i + 1;
      }
      assert files[..|files|] == files;
    }
  }

  /** Every candidate comes from a readable mask file of the listing with a
      positive area and names that mask's image; every such mask gives one. */
  lemma {:induction false} CandidatesSpec(dir: string, files: seq<string>, fs: FileSystem)
    ensures forall c :: c in CandidatesFrom(dir, files, fs) ==> c.0 > 0 && exists f :: f in files && CandidateOf(dir, f, fs) == Some(c)
    ensures forall f :: (f in files && Contains(f, MaskSuffix) && fs.maskArea(PathJoin(dir, f)).Some? && fs.maskArea(PathJoin(dir, f)).value > 0
      ==> (fs.maskArea(PathJoin(dir, f)).value, PathJoin(dir, ImageName(f))) in CandidatesFrom(dir, files, fs))
  {
    if files != [] {
      var init := files[..|files| - 1];
      CandidatesSpec(dir, init, fs);
      assert forall f :: f in files <==> f in init || f == files[|files| - 1];
    }
  }

  // ---------------------------------------------------------------------
  // Top slices

  /** Areas in non-increasing order. */
  predicate Descending(s: seq<Candidate>) {
    forall i, j :: 0 <= i < j < |s| ==> s[i].0 >= s[j].0
  }

  /** Insertion into a descending list after every candidate of an area at
      least as large, so equal areas keep their order. */
  function Insert(s: seq<Candidate>, x: Candidate): seq<Candidate> {
    if s == [] then [x]
    else if s[0].0 >= x.0 then [s[0]] + Insert(s[1..], x)
    else [x] + s
  }

  /** `sort(key=area, reverse=True)`: a stable sort by descending area. */
  function SortDesc(s: seq<Candidate>): seq<Candidate> {
    if s == [] then [] else Insert(SortDesc(s[..|s| - 1]), s[|s| - 1])
  }

  lemma {:induction false} InsertSpec(s: seq<Candidate>, x: Candidate)
    requires Descending(s)
    ensures multiset(Insert(s, x)) == multiset(s) + multiset{x}
    ensures Descending(Insert(s, x))
  {
    InsertPermutes(s, x);
    if s == [] {
    } else if s[0].0 >= x.0 {
      var t := s[1..];
      InsertSpec(t, x);
      var r := Insert(t, x);
      forall j | 0 <= j < |r| ensures s[0].0 >= r[j].0 {
        InsertPermutes(t, x);
        assert r[j] in multiset(t) + multiset{x};
        if r[j] != x {
          assert r[j] in t;
          var k :| 0 <= k < |t| && t[k] == r[j];
          assert s[k + 1] == r[j];
        }
      }
      DescendingCons(s[0], r);
    } else {
      DescendingCons(x, s);
    }
  }

  lemma {:induction false} InsertPermutes(s: seq<Candidate>, x: Candidate)
    ensures multiset(Insert(s, x)) == multiset(s) + multiset{x}
  {
    if s != [] && s[0].0 >= x.0 {
      InsertPermutes(s[1..], x);
      assert s == [s[0]] + s[1..];
    }
  }

  lemma DescendingCons(h: Candidate, r: seq<Candidate>)
    requires Descending(r) && forall j :: 0 <= j < |r| ==> h.0 >= r[j].0
    ensures Descending([h] + r)
  {
    var l := [h] + r;
    forall i, j | 0 <= i < j < |l| ensures l[i].0 >= l[j].0 {
      assert l[j] == r[j - 1];
      if i > 0 {
        assert l[i] == r[i - 1];
      }
    }
  }

  /** The sorted candidates are in descending order of area and are the same
      candidates. */
  lemma {:induction false} SortDescSpec(s: seq<Candidate>)
    ensures Descending(SortDesc(s))
    ensures multiset(SortDesc(s)) == multiset(s)
  {
    SortDescPermutes(s);
    SortDescSorted(s);
  }

  lemma {:induction false} SortDescPermutes(s: seq<Candidate>)
    ensures multiset(SortDesc(s)) == multiset(s)
  {
    if s != [] {
      var prefix := s[..|s| - 1];
      SortDescPermutes(prefix);
      InsertPermutes(SortDesc(prefix), s[|s| - 1]);
      assert s == prefix + [s[|s| - 1]];
    }
  }

  lemma {:induction false} SortDescSorted(s: seq<Candidate>)
    ensures Descending(SortDesc(s))
  {
    if s != [] {
      var prefix := s[..|s| - 1];
      SortDescSorted(prefix);
      InsertSpec(SortDesc(prefix), s[|s| - 1]);
    }
  }

  /** `s[:n]` with Python's meaning of a negative or oversized bound. */
  function TakePy<T>(s: seq<T>, n: int): (r: seq<T>)
    ensures n >= 0 ==> |r| == if n <= |s| then n else |s|
    ensures n < 0 ==> |r| == if |s| + n >= 0 then |s| + n else 0
    ensures r == s[..|r|]
  {
    if n >= 0 then (if n <= |s| then s[..n] else s)
    else if |s| + n >= 0 then s[..|s| + n] else []
  }

  /** `slice_candidates[:slices_per_patient]` after the sort. */
  function TopSlices(cs: seq<Candidate>, n: int): seq<Candidate> {
    TakePy(SortDesc(cs), n)
  }

  /** The top slices are at most `n` of the candidates in descending order of
      area, and no candidate left out has a larger area than one taken. */
  lemma TopSlicesSpec(cs: seq<Candidate>, n: int)
    ensures var top := TopSlices(cs, n);
      && Descending(top)
      && (n >= 0 ==> |top| == if n <= |cs| then n else |cs|)
      && exists rest :: multiset(top + rest) == multiset(cs)
           && forall x, y :: x in top && y in rest ==> x.0 >= y.0
  {
    SortDescSpec(cs);
    var sorted := SortDesc(cs);
    var top := TopSlices(cs, n);
    assert |sorted| == |cs| by {
      assert |multiset(sorted)| == |multiset(cs)|;
    }
    var rest := sorted[|top|..];
    assert top + rest == sorted by {
      assert top == sorted[..|top|];
    }
    PrefixDominates(sorted, |top|);
  }

  /** In a descending list, a prefix is itself descending and dominates the
      remainder. */
  lemma PrefixDominates(sorted: seq<Candidate>, k: nat)
    requires Descending(sorted) && k <= |sorted|
    ensures Descending(sorted[..k])
    ensures forall x, y :: x in sorted[..k] && y in sorted[k..] ==> x.0 >= y.0
  {
    forall x, y | x in sorted[..k] && y in sorted[k..] ensures x.0 >= y.0 {
      var i :| 0 <= i < k && sorted[..k][i] == x;
      var j :| 0 <= j < |sorted| - k && sorted[k..][j] == y;
      assert sorted[i] == x && sorted[k + j] == y;
    }
  }

  /** The candidates of area `k`, in their order in `s`. */
  function OfArea(s: seq<Candidate>, k: nat): (r: seq<Candidate>)
    ensures |r| <= |s|
  {
    if s == [] then []
    else (if s[0].0 == k then [s[0]] else []) + OfArea(s[1..], k)
  }

  lemma {:induction false} OfAreaAppend(a: seq<Candidate>, b: seq<Candidate>, k: nat)
    ensures OfArea(a + b, k) == OfArea(a, k) + OfArea(b, k)
  {
    if a != [] {
      OfAreaAppend(a[1..], b, k);
      var h := if a[0].0 == k then [a[0]] else [];
      assert (a + b)[0] == a[0];
      assert (a + b)[1..] == a[1..] + b;
      assert OfArea(a + b, k) == h + OfArea(a[1..] + b, k);
      assert OfArea(a, k) == h + OfArea(a[1..], k);
      assert h + (OfArea(a[1..], k) + OfArea(b, k)) == (h + OfArea(a[1..], k)) + OfArea(b, k);
    } else {
      assert a + b == b;
    }
  }

  lemma {:induction false} OfAreaNone(s: seq<Candidate>, k: nat)
    requires forall i :: 0 <= i < |s| ==> s[i].0 != k
    ensures OfArea(s, k) == []
  {
    if s != [] {
      OfAreaNone(s[1..], k);
    }
  }

  lemma {:induction false} InsertStable(s: seq<Candidate>, x: Candidate, k: nat)
    requires Descending(s)
    ensures OfArea(Insert(s, x), k) == OfArea(s, k) + (if x.0 == k then [x] else [])
  {
    if s == [] {
    } else if s[0].0 >= x.0 {
      assert Descending(s[1..]) by {
        forall i, j | 0 <= i < j < |s[1..]| ensures s[1..][i].0 >= s[1..][j].0 {
          assert s[1..][i] == s[i + 1] && s[1..][j] == s[j + 1];
        }
      }
      InsertStable(s[1..], x, k);
    } else if x.0 == k {
      forall i | 0 <= i < |s| ensures s[i].0 != k {
        assert s[0].0 >= s[i].0;
      }
      OfAreaNone(s, k);
    }
  }

  /** The sort is stable: the candidates of every area keep their order.
      Which of several equally large slices `[:n]` keeps is therefore fixed
      by the order in which the slices were scanned. */
  lemma {:induction false} SortDescStable(s: seq<Candidate>, k: nat)
    ensures OfArea(SortDesc(s), k) == OfArea(s, k)
  {
    if s != [] {
      var prefix := s[..|s| - 1];
      var last := s[|s| - 1];
      SortDescStable(prefix, k);
      SortDescSorted(prefix);
      InsertStable(SortDesc(prefix), last, k);
      assert s == prefix + [last];
      OfAreaAppend(prefix, [last], k);
    }
  }

  /** Of the candidates of any one area, the top slices hold the first ones
      scanned. */
  lemma TopSlicesKeepScanOrder(cs: seq<Candidate>, n: int, k: nat)
    ensures OfArea(TopSlices(cs, n), k) <= OfArea(cs, k)
  {
    var sorted := SortDesc(cs);
    var top := TopSlices(cs, n);
    assert sorted == top + sorted[|top|..] by {
      assert top == sorted[..|top|];
    }
    OfAreaAppend(top, sorted[|top|..], k);
    SortDescStable(cs, k);
  }

  // ---------------------------------------------------------------------
  // Samples

  /** One expanded sample: a slice image, the patient's 7 numeric features,
      the grade and the survival in months (None for NaN). */
  datatype Sample = Sample(imagePath: string, tabular: seq<real>, grade: int, survival: Option<real>)

  /** `row[numeric_targets].values`. */
  function TabularOf(row: Row): (t: seq<real>)
    requires CleanRow(row)
    ensures |t| == |NumericTargets|
  {
    seq(|NumericTargets|, k requires 0 <= k < |NumericTargets| => row[NumericTargets[k]].x)
  }

  /** `str(row.get('GRADE', ''))`: `show` stands for `str()` of a number. */
  function GradeText(row: Row, show: real -> string): string {
    if "GRADE" !in row then ""
    else match row["GRADE"]
      case Text(s) => s
      case Missing => "nan"
      case Num(x) => show(x)
  }

  /** 1 when the upper-cased grade text is a high grade, else 0. */
  function GradeOf(row: Row, show: real -> string): int {
    if Upper(GradeText(row, show)) in HighGrades then 1 else 0
  }

  /** `float(row.get('SURVIVAL_MONTHS', 0))`. */
  function SurvivalOf(row: Row, parse: string -> Option<real>): Result<Option<real>, DatasetError> {
    if "SURVIVAL_MONTHS" !in row then Ok(Some(0.0))
    else match row["SURVIVAL_MONTHS"]
      case Num(x) => Ok(Some(x))
      case Missing => Ok(None)
      case Text(s) => if parse(s).Some? then Ok(Some(parse(s).value)) else Err(NotANumber)
  }

  /** The samples one patient row expands into. */
  function RowSamples(row: Row, n: int, kaggle: string, fs: FileSystem,
                      parse: string -> Option<real>, show: real -> string): Result<seq<Sample>, DatasetError>
    requires CleanRow(row)
  {
    if "PATIENT_ID" !in row then Err(Table(MissingColumn))
    else if !row["PATIENT_ID"].Text? then Err(PatientIdNotText)
    else
      var folder := PatientFolder(kaggle, row["PATIENT_ID"].s, fs);
      if folder.None? || folder.value == "" then Ok([])
      else
        var top := TopSlices(Candidates(folder.value, fs), n);
        if top == [] then Ok([])
        else
          var survival := SurvivalOf(row, parse);
          if survival.Err? then Err(survival.error)
          else Ok(SlicesOf(top, TabularOf(row), GradeOf(row, show), survival.value))
  }

  /** One sample per selected slice, all sharing the patient's features,
      grade and survival. */
  function SlicesOf(top: seq<Candidate>, tabular: seq<real>, grade: int, survival: Option<real>): seq<Sample> {
    seq(|top|, k requires 0 <= k < |top| => Sample(top[k].1, tabular, grade, survival))
  }

  /** The samples of the rows, in row order; the first failing row aborts. */
  function ExpandedSamples(rows: seq<Row>, n: int, kaggle: string, fs: FileSystem,
                           parse: string -> Option<real>, show: real -> string): Result<seq<Sample>, DatasetError>
    requires forall i :: 0 <= i < |rows| ==> CleanRow(rows[i])
  {
    if rows == [] then Ok([])
    else
      var prev := ExpandedSamples(rows[..|rows| - 1], n, kaggle, fs, parse, show);
      if prev.Err? then prev
      else
        var last := RowSamples(rows[|rows| - 1], n, kaggle, fs, parse, show);
        if last.Err? then last else Ok(prev.value + last.value)
  }

  /** A patient row gives one sample per top slice, in descending order of
      area, each carrying the row's features and survival; the grade is 1
      exactly for a high grade whatever its case; no folder means no samples. */
  lemma RowSamplesSpec(row: Row, n: int, kaggle: string, fs: FileSystem,
                       parse: string -> Option<real>, show: real -> string)
    requires CleanRow(row) && "PATIENT_ID" in row && row["PATIENT_ID"].Text?
    ensures var folder := PatientFolder(kaggle, row["PATIENT_ID"].s, fs);
      var r := RowSamples(row, n, kaggle, fs, parse, show);
      && (folder.None? ==> r == Ok([]))
      && (r.Ok? && folder.Some? && folder.value != "" ==>
            var top := TopSlices(Candidates(folder.value, fs), n);
            && |r.value| == |top|
            && forall k :: 0 <= k < |top| ==> (r.value[k].imagePath == top[k].1
                 && r.value[k].tabular == TabularOf(row) && Ok(r.value[k].survival) == SurvivalOf(row, parse)))
      && (r.Ok? ==> forall k :: 0 <= k < |r.value| ==>
            (r.value[k].grade == 1 <==> Upper(GradeText(row, show)) in HighGrades) && 0 <= r.value[k].grade <= 1)
      && (r.Ok? && "GRADE" !in row ==> forall k :: 0 <= k < |r.value| ==> r.value[k].grade == 0)
  {
    assert Upper("") == "";
  }

  /** Every expanded sample carries the features of one of the rows. */
  lemma {:induction false} ExpandedFrom(rows: seq<Row>, n: int, kaggle: string, fs: FileSystem,
                                        parse: string -> Option<real>, show: real -> string)
    requires forall i :: 0 <= i < |rows| ==> CleanRow(rows[i])
    requires ExpandedSamples(rows, n, kaggle, fs, parse, show).Ok?
    ensures forall s :: s in ExpandedSamples(rows, n, kaggle, fs, parse, show).value ==>
      exists i :: 0 <= i < |rows| && s.tabular == TabularOf(rows[i])
  {
    if rows != [] {
      var init := rows[..|rows| - 1];
      ExpandedFrom(init, n, kaggle, fs, parse, show);
      var prev: seq<Sample> := ExpandedSamples(init, n, kaggle, fs, parse, show).value;
      var last: seq<Sample> := RowSamples(rows[|rows| - 1], n, kaggle, fs, parse, show).value;
      forall s: Sample | s in prev + last ensures exists i :: 0 <= i < |rows| && s.tabular == TabularOf(rows[i]) {
        if s in prev {
          var i :| 0 <= i < |init| && s.tabular == TabularOf(init[i]);
          assert init[i] == rows[i];
        } else {
          assert s.tabular == TabularOf(rows[|rows| - 1]);
        }
      }
    }
  }

  /** Every sample a row gives is among the expanded samples. */
  lemma {:induction false} ExpandedContains(rows: seq<Row>, i: nat, n: int, kaggle: string, fs: FileSystem,
                                            parse: string -> Option<real>, show: real -> string)
    requires forall i :: 0 <= i < |rows| ==> CleanRow(rows[i])
    requires i < |rows| && ExpandedSamples(rows, n, kaggle, fs, parse, show).Ok?
    ensures RowSamples(rows[i], n, kaggle, fs, parse, show).Ok?
    ensures forall s :: s in RowSamples(rows[i], n, kaggle, fs, parse, show).value ==>
      s in ExpandedSamples(rows, n, kaggle, fs, parse, show).value
  {
    var init := rows[..|rows| - 1];
    if i < |rows| - 1 {
      assert init[i] == rows[i];
      ExpandedContains(init, i, n, kaggle, fs, parse, show);
    }
  }

  // ---------------------------------------------------------------------
  // The dataset object

  /** What `__getitem__` returns, before the image transforms: the image,
      the features, the grade and the normalised survival (None for NaN). */
  datatype Item = Item(image: Image, tabular: seq<real>, grade: int, survival: Option<real>)

  datatype ItemError = IndexOutOfRange(idx: int)  // IndexError from `self.samples[idx]`

  class GliomaAdvancedDataset {
    const mode: string
    const slicesPerPatient: int
    const kaggleFolder: string
    const maxSurvival: real := MaxSurvival
    var patientData: Frame
    var samples: seq<Sample>

    /** `__init__` up to `self.samples = []`: the selected patients are kept. */
    constructor(mode: string, slicesPerPatient: int, kaggleFolder: string, patients: Frame)
      ensures this.mode == mode && this.slicesPerPatient == slicesPerPatient
      ensures this.kaggleFolder == kaggleFolder
      ensures patientData == patients && samples == []
    {
      this.mode := mode;
      this.slicesPerPatient := slicesPerPatient;
      this.kaggleFolder := kaggleFolder;
      patientData := patients;
      samples := [];
    }

    /** `_expand_slices`: the samples of every patient row are appended in
        row order; the patient data is not changed. On failure the samples
        are left as they are (the half-built object is discarded anyway). */
    method ExpandSlices(fs: FileSystem, parse: string -> Option<real>, show: real -> string)
      returns (err: Option<DatasetError>)
      requires Clean(patientData)
      modifies this
      ensures patientData == old(patientData)
      ensures var r := ExpandedSamples(patientData.rows, slicesPerPatient, kaggleFolder, fs, parse, show);
        && (err.None? <==> r.Ok?)
        && (err.None? ==> samples == old(samples) + r.value)
        && (err.Some? ==> err.value == r.error)
    {
      var expanded := ExpandRows(patientData.rows, slicesPerPatient, kaggleFolder, fs, parse, show);
      if expanded.Err? {
        return Some(expanded.error);
      }
      samples := samples + expanded.value;
      err := None;
    }

    /** The feature scaling of `__init__`: `fit_transform` over the numeric
        columns of the patient data. */
    method ScaleFeatures() returns (err: Option<TableError>)
      requires WellFormed(patientData)
      modifies this
      ensures samples == old(samples)
      ensures var r := ScaleColumns(old(patientData), NumericTargets);
        && (err.None? <==> r.Ok?)
        && (err.None? ==> patientData == r.value)
        && (err.Some? ==> err.value == r.error && patientData == old(patientData))
    {
      var scaled := ScaleColumns(patientData, NumericTargets);
      if scaled.Err? {
        return Some(scaled.error);
      }
      patientData := scaled.value;
      err := None;
    }

    /** `__len__`. */
    function Length(): (n: nat)
      reads this
      ensures n == |samples|
    {
      |samples|
    }

    /** `__getitem__` without resizing, colour conversion, augmentation and
        normalisation: `load` stands for `cv2.imread` (None when it fails). */
    function GetItem(idx: int, load: string -> Option<Image>): (r: Result<Item, ItemError>)
      reads this
    {
      if !(-(|samples| as int) <= idx < |samples|) then Err(IndexOutOfRange(idx))
      else
        var s := samples[if idx >= 0 then idx else idx + |samples|];
        var loaded := load(s.imagePath);
        Ok(Item(if loaded.Some? then loaded.value else ZeroImage(),
                s.tabular, s.grade,
                if s.survival.Some? then Some(s.survival.value / maxSurvival) else None))
    }
  }

  /** The loop over the patient rows of `_expand_slices`. */
  method ExpandRows(rows: seq<Row>, n: int, kaggle: string, fs: FileSystem,
                    parse: string -> Option<real>, show: real -> string) returns (r: Result<seq<Sample>, DatasetError>)
    requires forall i :: 0 <= i < |rows| ==> CleanRow(rows[i])
    ensures r == ExpandedSamples(rows, n, kaggle, fs, parse, show)
  {
    var samples: seq<Sample> := [];
    var i := 0;
    while i < |rows|
      invariant 0 <= i <= |rows|
      invariant ExpandedSamples(rows[..i], n, kaggle, fs, parse, show) == Ok(samples)
    {
      ExpandedStep(rows, i, n, kaggle, fs, parse, show);
      var row := ExpandRow(rows[i], n, kaggle, fs, parse, show);
      if row.Err? {
        ErrorPersists(rows, i + 1, n, kaggle, fs, parse, show);
        return Err(row.error);
      }
      samples := samples + row.value;
      i := i + 1;
    }
    assert rows[..i] == rows;
    r := Ok(samples);
  }

  /** The body of the loop over the rows of `_expand_slices`. */
  method ExpandRow(row: Row, n: int, kaggle: string, fs: FileSystem,
                   parse: string -> Option<real>, show: real -> string) returns (r: Result<seq<Sample>, DatasetError>)
    requires CleanRow(row)
    ensures r == RowSamples(row, n, kaggle, fs, parse, show)
  {
    if "PATIENT_ID" !in row {
      return Err(Table(MissingColumn));
    }
    var pid := row["PATIENT_ID"];
    if !pid.Text? {
      return Err(PatientIdNotText);
    }
    var folder := FindPatientFolder(kaggle, pid.s, fs);
    if folder.None? || folder.value == "" {
      return Ok([]);
    }
    var candidates := CollectCandidates(folder.value, fs);
    var top := TopSlices(candidates, n);
    if top == [] {
      return Ok([]);
    }
    var survival := SurvivalOf(row, parse);
    if survival.Err? {
      return Err(survival.error);
    }
    var out := BuildSlices(top, TabularOf(row), GradeOf(row, show), survival.value);
    r := Ok(out);
  }

  /** The inner loop of `_expand_slices`: one sample appended per slice. */
  method BuildSlices(top: seq<Candidate>, tabular: seq<real>, grade: int, survival: Option<real>)
    returns (out: seq<Sample>)
    ensures out == SlicesOf(top, tabular, grade, survival)
  {
    out := [];
    var k := 0;
    while k < |top|
      invariant 0 <= k <= |top| && |out| == k
      invariant forall j :: 0 <= j < k ==> out[j] == Sample(top[j].1, tabular, grade, survival)
    {
      out := out + [Sample(top[k].1, tabular, grade, survival)];
      k := k + 1;
    }
  }

  /** A failing prefix makes the whole expansion fail with its error. */
  lemma {:induction false} ErrorPersists(rows: seq<Row>, i: nat, n: int, kaggle: string, fs: FileSystem,
                                         parse: string -> Option<real>, show: real -> string)
    requires forall i :: 0 <= i < |rows| ==> CleanRow(rows[i])
    requires 0 < i <= |rows| && ExpandedSamples(rows[..i], n, kaggle, fs, parse, show).Err?
    ensures ExpandedSamples(rows, n, kaggle, fs, parse, show) == ExpandedSamples(rows[..i], n, kaggle, fs, parse, show)
    decreases |rows| - i
  {
    if i < |rows| {
      assert rows[..i + 1][..i] == rows[..i];
      ErrorPersists(rows, i + 1, n, kaggle, fs, parse, show);
    } else {
      assert rows[..i] == rows;
    }
  }

  /** One more row: its samples follow those of the rows before it. */
  lemma ExpandedStep(rows: seq<Row>, i: nat, n: int, kaggle: string, fs: FileSystem,
                     parse: string -> Option<real>, show: real -> string)
    requires forall i :: 0 <= i < |rows| ==> CleanRow(rows[i])
    requires i < |rows| && ExpandedSamples(rows[..i], n, kaggle, fs, parse, show).Ok?
    ensures var prev := ExpandedSamples(rows[..i], n, kaggle, fs, parse, show);
      var row := RowSamples(rows[i], n, kaggle, fs, parse, show);
      ExpandedSamples(rows[..i + 1], n, kaggle, fs, parse, show)
        == if row.Err? then Err(row.error) else Ok(prev.value + row.value)
  {
    assert rows[..i + 1][..i] == rows[..i];
  }

  /** The selection keeps clean rows clean. */
  lemma PatientDataClean(df: Frame, mode: string, split: seq<Cell> -> Option<(seq<Cell>, seq<Cell>)>)
    requires Clean(df) && PatientData(df, mode, split).Ok?
    ensures Clean(PatientData(df, mode, split).value)
  {
    var p := PatientData(df, mode, split).value;
    forall i | 0 <= i < |p.rows| ensures CleanRow(p.rows[i]) {
      var j :| 0 <= j < |df.rows| && df.rows[j] == p.rows[i];
    }
  }

  /** The state `__init__` leaves: the scaled patient data and the samples. */
  datatype Initial = Initial(patientData: Frame, samples: seq<Sample>)

  /** `__init__` as written: sanitise, select the patients, then build. */
  function Initialised(csv: Frame, kaggle: string, mode: string, n: int,
                       split: seq<Cell> -> Option<(seq<Cell>, seq<Cell>)>, fs: FileSystem,
                       parse: string -> Option<real>, show: real -> string): Result<Initial, DatasetError>
    requires WellFormed(csv)
  {
    var clean := Sanitised(csv, parse);
    if clean.Err? then Err(clean.error)
    else
      SanitisedSpec(csv, parse);
      var patients := PatientData(clean.value, mode, split);
      if patients.Err? then Err(patients.error)
      else
        PatientDataClean(clean.value, mode, split);
        Built(patients.value, kaggle, n, fs, parse, show)
  }

  /** The rest of `__init__` as written: the slices are expanded from the
      selected rows, then the numeric columns are scaled. */
  function Built(patients: Frame, kaggle: string, n: int, fs: FileSystem,
                 parse: string -> Option<real>, show: real -> string): Result<Initial, DatasetError>
    requires Clean(patients)
  {
    var samples := ExpandedSamples(patients.rows, n, kaggle, fs, parse, show);
    if samples.Err? then Err(samples.error)
    else
      var scaled := ScaleColumns(patients, NumericTargets);
      if scaled.Err? then Err(Table(scaled.error)) else Ok(Initial(scaled.value, samples.value))
  }

  /** `GliomaAdvancedDataset(...)`: `split` stands for `train_test_split`
      with the split ratio and its fixed seed. */
  method Load(csv: Frame, kaggle: string, mode: string, n: int,
              split: seq<Cell> -> Option<(seq<Cell>, seq<Cell>)>, fs: FileSystem,
              parse: string -> Option<real>, show: real -> string)
    returns (r: Result<GliomaAdvancedDataset, DatasetError>)
    requires WellFormed(csv)
    ensures var spec := Initialised(csv, kaggle, mode, n, split, fs, parse, show);
      && (r.Ok? <==> spec.Ok?)
      && (r.Ok? ==> (fresh(r.value) && r.value.mode == mode && r.value.slicesPerPatient == n
            && r.value.kaggleFolder == kaggle
            && r.value.patientData == spec.value.patientData && r.value.samples == spec.value.samples))
      && (r.Err? ==> r.error == spec.error)
  {
    var clean := Sanitise(csv, parse);
    if clean.Err? {
      return Err(clean.error);
    }
    SanitisedSpec(csv, parse);
    var patients := PatientData(clean.value, mode, split);
    if patients.Err? {
      return Err(patients.error);
    }
    PatientDataClean(clean.value, mode, split);
    var ds := new GliomaAdvancedDataset(mode, n, kaggle, patients.value);
    var err := ds.ExpandSlices(fs, parse, show);
    if err.Some? {
      return Err(err.value);
    }
    var failed := ds.ScaleFeatures();
    if failed.Some? {
      return Err(Table(failed.value));
    }
    r := Ok(ds);
  }

  /** A clean frame with rows scales without error into a clean frame whose
      numeric cells all lie in [0, 1]. */
  lemma ScaledClean(df: Frame)
    requires Clean(df) && |df.rows| > 0
    ensures ScaleColumns(df, NumericTargets).Ok?
    ensures var r := ScaleColumns(df, NumericTargets).value;
      && Clean(r) && r.columns == df.columns && |r.rows| == |df.rows|
      && forall i, c :: 0 <= i < |r.rows| && c in NumericTargets ==> 0.0 <= r.rows[i][c].x <= 1.0
  {
    assert forall c, i :: c in NumericTargets && 0 <= i < |df.rows| ==> !df.rows[i][c].Text?;
    var r := ScaleColumns(df, NumericTargets).value;
    assert r == ScaleEach(df, NumericTargets);
    forall i, c | 0 <= i < |r.rows| && c in NumericTargets
      ensures r.rows[i][c].Num? && 0.0 <= r.rows[i][c].x <= 1.0
    {
      ScaleEachSpec(df, NumericTargets, i, c);
    }
  }

  /** What `__init__` as written establishes: the numeric columns always
      exist before scaling (the selection is clean), so the block that would
      create them adds nothing; the scaled patient data holds numbers in
      [0, 1]; every sample carries the features of a selected row as they
      were before scaling; an empty selection is the one scaling failure, and otherwise only the
      expansion can fail. */
  lemma BuiltSpec(patients: Frame, kaggle: string, n: int, fs: FileSystem,
                  parse: string -> Option<real>, show: real -> string)
    requires Clean(patients)
    ensures var r := Built(patients, kaggle, n, fs, parse, show);
      && (r.Ok? ==> (Clean(r.value.patientData) && |r.value.patientData.rows| == |patients.rows|
            && forall i, c :: 0 <= i < |patients.rows| && c in NumericTargets ==> 0.0 <= r.value.patientData.rows[i][c].x <= 1.0))
      && (r.Ok? ==> forall s :: s in r.value.samples ==>
            exists i :: 0 <= i < |patients.rows| && s.tabular == TabularOf(patients.rows[i]))
      && (|patients.rows| == 0 ==> r == Err(Table(NoRows)))
      && (|patients.rows| > 0 ==> (r.Ok? <==> ExpandedSamples(patients.rows, n, kaggle, fs, parse, show).Ok?))
  {
    var samples := ExpandedSamples(patients.rows, n, kaggle, fs, parse, show);
    if samples.Ok? {
      ExpandedFrom(patients.rows, n, kaggle, fs, parse, show);
      if |patients.rows| > 0 {
        ScaledClean(patients);
      }
    }
  }

  /** The selected patients are clean, so `Built` applies to them. */
  lemma SelectionClean(csv: Frame, mode: string, split: seq<Cell> -> Option<(seq<Cell>, seq<Cell>)>,
                       parse: string -> Option<real>)
    requires WellFormed(csv) && Sanitised(csv, parse).Ok?
    ensures WellFormed(Sanitised(csv, parse).value)
    ensures PatientData(Sanitised(csv, parse).value, mode, split).Ok? ==>
      Clean(PatientData(Sanitised(csv, parse).value, mode, split).value)
  {
    SanitisedSpec(csv, parse);
    if PatientData(Sanitised(csv, parse).value, mode, split).Ok? {
      PatientDataClean(Sanitised(csv, parse).value, mode, split);
    }
  }

  /** As written, a selected patient whose age is above 1 and who has a
      tumour slice gives a sample whose first feature is that age, outside
      [0, 1]: the samples copy the features before they are scaled. */
  lemma AsWrittenUnscaled(patients: Frame, kaggle: string, n: int, fs: FileSystem,
                          parse: string -> Option<real>, show: real -> string, i: nat)
    requires Clean(patients) && Built(patients, kaggle, n, fs, parse, show).Ok?
    requires i < |patients.rows| && patients.rows[i]["AGE"].x > 1.0
    requires RowSamples(patients.rows[i], n, kaggle, fs, parse, show).Ok?
    requires RowSamples(patients.rows[i], n, kaggle, fs, parse, show).value != []
    ensures exists s :: (s in Built(patients, kaggle, n, fs, parse, show).value.samples
      && |s.tabular| == |NumericTargets| && s.tabular[0] > 1.0)
  {
    var row := patients.rows[i];
    var s := RowSamples(row, n, kaggle, fs, parse, show).value[0];
    ExpandedContains(patients.rows, i, n, kaggle, fs, parse, show);
    assert s.tabular == TabularOf(row);
    assert s.tabular[0] == row["AGE"].x;
  }

  /** The rest of `__init__` as evidently intended: the numeric columns are
      scaled first and the slices expanded from the scaled rows. */
  function CorrectedBuilt(patients: Frame, kaggle: string, n: int, fs: FileSystem,
                          parse: string -> Option<real>, show: real -> string): Result<Initial, DatasetError>
    requires Clean(patients)
  {
    if |patients.rows| == 0 then Err(Table(NoRows))
    else
      ScaledClean(patients);
      var scaled := ScaleColumns(patients, NumericTargets).value;
      var samples := ExpandedSamples(scaled.rows, n, kaggle, fs, parse, show);
      if samples.Err? then Err(samples.error) else Ok(Initial(scaled, samples.value))
  }

  /** With scaling first, every feature of every sample lies in [0, 1]. */
  lemma CorrectedScaled(patients: Frame, kaggle: string, n: int, fs: FileSystem,
                        parse: string -> Option<real>, show: real -> string)
    requires Clean(patients) && CorrectedBuilt(patients, kaggle, n, fs, parse, show).Ok?
    ensures var r := CorrectedBuilt(patients, kaggle, n, fs, parse, show).value;
      forall s, k :: s in r.samples && 0 <= k < |s.tabular| ==> 0.0 <= s.tabular[k] <= 1.0
  {
    ScaledClean(patients);
    var scaled := ScaleColumns(patients, NumericTargets).value;
    assert forall i :: 0 <= i < |scaled.rows| ==> UnitRow(scaled.rows[i]);
    UnitSamples(scaled.rows, n, kaggle, fs, parse, show);
  }

  /** Rows whose numeric cells lie in [0, 1] expand into samples whose
      features do. */
  lemma UnitSamples(rows: seq<Row>, n: int, kaggle: string, fs: FileSystem,
                    parse: string -> Option<real>, show: real -> string)
    requires forall i :: 0 <= i < |rows| ==> UnitRow(rows[i]) && CleanRow(rows[i])
    requires ExpandedSamples(rows, n, kaggle, fs, parse, show).Ok?
    ensures forall s, k :: (s in ExpandedSamples(rows, n, kaggle, fs, parse, show).value && 0 <= k < |s.tabular|
      ==> 0.0 <= s.tabular[k] <= 1.0)
  {
    ExpandedFrom(rows, n, kaggle, fs, parse, show);
    forall s, k | s in ExpandedSamples(rows, n, kaggle, fs, parse, show).value && 0 <= k < |s.tabular|
      ensures 0.0 <= s.tabular[k] <= 1.0
    {
      var i :| 0 <= i < |rows| && s.tabular == TabularOf(rows[i]);
      UnitTabular(rows[i], k);
    }
  }

  /** A clean row whose numeric cells lie in [0, 1]. */
  predicate UnitRow(row: Row) {
    CleanRow(row) && forall c :: c in NumericTargets ==> 0.0 <= row[c].x <= 1.0
  }

  lemma UnitTabular(row: Row, k: nat)
    requires UnitRow(row) && k < |NumericTargets|
    ensures 0.0 <= TabularOf(row)[k] <= 1.0
  {
    assert NumericTargets[k] in NumericTargets;
  }

  /** An index in range, counted from either end, gives the sample's
      features and grade unchanged, its survival divided by 100, and the
      blank image when the slice cannot be read; any other index fails. */
  lemma GetItemSpec(ds: GliomaAdvancedDataset, idx: int, load: string -> Option<Image>)
    ensures var r := ds.GetItem(idx, load);
      && (r.Ok? <==> -|ds.samples| <= idx < |ds.samples|)
      && (0 <= idx < |ds.samples| ==>
            var s := ds.samples[idx];
            && r.value.tabular == s.tabular && r.value.grade == s.grade
            && (s.survival.Some? ==> r.value.survival == Some(s.survival.value / 100.0))
            && (s.survival.None? ==> r.value.survival.None?)
            && (load(s.imagePath).None? ==> r.value.image == ZeroImage())
            && (load(s.imagePath).Some? ==> r.value.image == load(s.imagePath).value))
      && (-|ds.samples| <= idx < 0 ==> r == ds.GetItem(idx + |ds.samples|, load))
  {
  }
}
