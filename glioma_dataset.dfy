/** The first glioma dataset: one CSV row per sample, with the gender and
    the tumour grade encoded as numbers and the age and five gene columns
    min-max scaled when the dataset is built. */
module Glioma {
  import opened Wrappers
  import opened Images
  import opened Tables

  /** The columns the scaler rescales: age and five genes. */
  const ScaledCols: seq<string> := ["AGE", "IDH1", "TP53", "ATRX", "CIC", "PTEN"]

  /** The tabular vector of an item, in this order. */
  const TabularCols: seq<string> := ["AGE", "GENDER", "IDH1", "TP53", "ATRX", "CIC", "PTEN"]

  /** `replace('Unknown', 'Male')` on the gender column. */
  function UnknownAsMale(c: Cell): Cell {
    if c == Text("Unknown") then Text("Male") else c
  }

  /** `apply(lambda x: 1 if x == 'Male' else 0)`. */
  function MaleFlag(c: Cell): Cell {
    if c == Text("Male") then Num(1.0) else Num(0.0)
  }

  /** `map({'G2': 0, 'G3': 1, 'GBM': 1, 'Unknown': 0}).fillna(0)`: an unmapped
      value becomes NaN, then 0. */
  function GradeCode(c: Cell): Cell {
    if c == Text("G3") || c == Text("GBM") then Num(1.0) else Num(0.0)
  }

  /** What `__init__` leaves in `self.data`: the gender and grade columns
      rewritten, then the scaled columns rescaled; a missing column raises. */
  function Preprocessed(df: Frame): (r: Result<Frame, TableError>)
    requires WellFormed(df)
  {
    if "GENDER" !in df.columns then Err(MissingColumn)
    else
      var gender := MapColumn(MapColumn(df, "GENDER", UnknownAsMale), "GENDER", MaleFlag);
      if "GRADE" !in gender.columns then Err(MissingColumn)
      else ScaleColumns(MapColumn(gender, "GRADE", GradeCode), ScaledCols)
  }

  /** The state `__init__` establishes: gender and grade are 0 or 1, and the
      scaled columns hold missing values or numbers in [0, 1]. */
  predicate Encoded(df: Frame) {
    && WellFormed(df)
    && (forall c :: c in TabularCols ==> c in df.columns)
    && "GRADE" in df.columns
    && forall i :: 0 <= i < |df.rows| ==>
      && (df.rows[i]["GENDER"] == Num(0.0) || df.rows[i]["GENDER"] == Num(1.0))
      && (df.rows[i]["GRADE"] == Num(0.0) || df.rows[i]["GRADE"] == Num(1.0))
      && forall c :: c in ScaledCols ==> UnitOrMissing(df.rows[i][c])
  }

  predicate UnitOrMissing(c: Cell) {
    c == Missing || (c.Num? && 0.0 <= c.x <= 1.0)
  }

  /** Gender 1 exactly for `Male` and `Unknown`, grade 1 exactly for `G3`
      and `GBM`; the encoded frame has the invariant above, the same rows and
      columns, and every other column untouched. */
  lemma PreprocessedSpec(df: Frame)
    requires WellFormed(df) && Preprocessed(df).Ok?
    ensures var r := Preprocessed(df).value;
      && Encoded(r) && r.columns == df.columns && |r.rows| == |df.rows|
      && (forall i :: 0 <= i < |df.rows| ==>
            (r.rows[i]["GENDER"] == Num(1.0) <==> df.rows[i]["GENDER"] in {Text("Male"), Text("Unknown")}))
      && (forall i :: 0 <= i < |df.rows| ==>
            (r.rows[i]["GRADE"] == Num(1.0) <==> df.rows[i]["GRADE"] in {Text("G3"), Text("GBM")}))
      && (forall i, c :: 0 <= i < |df.rows| && c in df.columns && c !in ScaledCols && c != "GENDER" && c != "GRADE"
            ==> r.rows[i][c] == df.rows[i][c])
  {
    var gender := MapColumn(MapColumn(df, "GENDER", UnknownAsMale), "GENDER", MaleFlag);
    var graded := MapColumn(gender, "GRADE", GradeCode);
    var r := Preprocessed(df).value;
    assert r == ScaleEach(graded, ScaledCols);
    forall i, c | 0 <= i < |df.rows| && c in df.columns
      ensures c !in ScaledCols ==> r.rows[i][c] == graded.rows[i][c]
      ensures c in ScaledCols ==> UnitOrMissing(r.rows[i][c])
    {
      ScaleEachSpec(graded, ScaledCols, i, c);
    }
    assert "GENDER" !in ScaledCols && "GRADE" !in ScaledCols;
  }

  /** A sample: the image, the 7 tabular features (None for NaN), the grade
      and the survival in months (None for NaN). */
  datatype Item = Item(image: Image, tabular: seq<Option<real>>, grade: int, survival: Option<real>)

  datatype ItemError =
    | IndexOutOfRange(idx: int)  // IndexError from `iloc`
    | NoSuchColumn(col: string)  // KeyError
    | NotAPath                   // `cv2.imread` of a value that is not a string
    | NotANumber                 // `float()` of a string that is not a number

  /** `GliomaDataset(csv_file)`: `__init__` reads the frame and preprocesses it
      at once, so a caller only ever holds an encoded dataset, or the error. */
  method Load(csv: Frame) returns (r: Result<GliomaDataset, TableError>)
    requires WellFormed(csv)
    ensures r.Ok? <==> Preprocessed(csv).Ok?
    ensures r.Ok? ==> fresh(r.value) && r.value.data == Preprocessed(csv).value && r.value.Valid()
    ensures r.Err? ==> r.error == Preprocessed(csv).error
  {
    var ds := new GliomaDataset(csv);
    var err := ds.Preprocess();
    if err.Some? {
      return Err(err.value);
    }
    return Ok(ds);
  }

  /** The dataset object: the preprocessed frame. */
  class GliomaDataset {
    var data: Frame

    ghost predicate Valid()
      reads this
    {
      Encoded(data)
    }

    /** `pd.read_csv`: the frame as read, before preprocessing. */
    constructor(csv: Frame)
      ensures data == csv
    {
      data := csv;
    }

    /** The preprocessing steps of `__init__`, each rewriting `self.data`. */
    method Preprocess() returns (err: Option<TableError>)
      requires WellFormed(data)
      modifies this
      ensures err.None? <==> Preprocessed(old(data)).Ok?
      ensures err.None? ==> data == Preprocessed(old(data)).value && Valid()
      ensures err.Some? ==> err.value == Preprocessed(old(data)).error
    {
      ghost var csv := data;
      if "GENDER" !in data.columns {
        return Some(MissingColumn);
      }
      data := MapColumn(data, "GENDER", UnknownAsMale);
      data := MapColumn(data, "GENDER", MaleFlag);
      if "GRADE" !in data.columns {
        return Some(MissingColumn);
      }
      data := MapColumn(data, "GRADE", GradeCode);
      var scaled := ScaleColumns(data, ScaledCols);
      if scaled.Err? {
        return Some(scaled.error);
      }
      data := scaled.value;
      PreprocessedSpec(csv);
      err := None;
    }

    /** `__len__`. */
    function Length(): (n: nat)
      reads this
      ensures n == |data.rows|
    {
      |data.rows|
    }

    /** `__getitem__` without the transform: `load` stands for `cv2.imread`
        (None when it fails) and `parse` for `float()` of a string. */
    function GetItem(idx: int, load: string -> Option<Image>, parse: string -> Option<real>)
      : (r: Result<Item, ItemError>)
      reads this
      requires Valid()
    {
      if !(-(|data.rows| as int) <= idx < |data.rows|) then Err(IndexOutOfRange(idx))
      else
        var row := data.rows[if idx >= 0 then idx else idx + |data.rows|];
        if "IMAGE_PATH" !in row then Err(NoSuchColumn("IMAGE_PATH"))
        else if !row["IMAGE_PATH"].Text? then Err(NotAPath)
        else
          var loaded := load(row["IMAGE_PATH"].s);
          var image := if loaded.Some? then loaded.value else ZeroImage();
          var tabular := seq(7, k requires 0 <= k < 7 => Feature(row[TabularCols[k]]));
          var grade := if row["GRADE"] == Num(1.0) then 1 else 0;
          if "SURVIVAL_MONTHS" !in row then Err(NoSuchColumn("SURVIVAL_MONTHS"))
          else
            match Survival(row["SURVIVAL_MONTHS"], parse)
            case Err(e) => Err(e)
            case Ok(months) => Ok(Item(image, tabular, grade, months))
    }
  }

  /** `astype(np.float32)` of a cell that holds no string. */
  function Feature(c: Cell): Option<real> {
    if c.Num? then Some(c.x) else None
  }

  /** `float(value)`: NaN for a missing value. */
  function Survival(c: Cell, parse: string -> Option<real>): Result<Option<real>, ItemError> {
    match c
    case Num(x) => Ok(Some(x))
    case Missing => Ok(None)
    case Text(s) => if parse(s).Some? then Ok(Some(parse(s).value)) else Err(NotANumber)
  }

  /** For an index in range, the tabular vector is the seven features of the
      row in the order age, gender, the five genes; each lies in [0, 1] or is
      NaN; the grade is 0 or 1 as encoded; and an image that cannot be read
      is the blank image. */
  lemma GetItemSpec(ds: GliomaDataset, idx: int, load: string -> Option<Image>, parse: string -> Option<real>)
    requires ds.Valid() && 0 <= idx < ds.Length()
    ensures var row := ds.data.rows[idx];
      var r := ds.GetItem(idx, load, parse);
      && (r.Ok? ==> |r.value.tabular| == 7)
      && (r.Ok? ==> forall k :: 0 <= k < 7 ==> r.value.tabular[k] == Feature(row[TabularCols[k]]))
      && (r.Ok? ==> forall k :: 0 <= k < 7 && r.value.tabular[k].Some? ==> 0.0 <= r.value.tabular[k].value <= 1.0)
      && (r.Ok? ==> (r.value.grade == 1 <==> row["GRADE"] == Num(1.0)) && 0 <= r.value.grade <= 1)
      && (r.Ok? ==> load(row["IMAGE_PATH"].s).None? ==> r.value.image == ZeroImage())
      && (r.Err? <==> ("IMAGE_PATH" !in row || !row["IMAGE_PATH"].Text? || "SURVIVAL_MONTHS" !in row
            || (row["SURVIVAL_MONTHS"].Text? && parse(row["SURVIVAL_MONTHS"].s).None?)))
  {
    var row := ds.data.rows[idx];
    forall k | 0 <= k < 7 ensures Feature(row[TabularCols[k]]).Some? ==> 0.0 <= Feature(row[TabularCols[k]]).value <= 1.0 {
      if k == 1 {
        assert row["GENDER"] == Num(0.0) || row["GENDER"] == Num(1.0);
      } else {
        assert TabularCols[k] in ScaledCols;
        assert UnitOrMissing(row[TabularCols[k]]);
      }
    }
  }
}
