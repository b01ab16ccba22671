/** Merging the HAM10000 and ISIC 2019 registries into one master table:
    ISIC one-hot labels are harmonised to the HAM `dx` spelling, ISIC rows whose
    `image_id` already occurs in HAM are dropped (HAM is authoritative), and the
    HAM rows followed by the remaining ISIC rows form the master table. */
module DataMerger {
  import opened Wrappers
  import opened Strings
  import opened Counting

  /** The one-hot indicator columns of the ISIC 2019 ground truth, in column order. */
  const LabelColumns: seq<string> := ["MEL", "NV", "BCC", "AK", "BKL", "DF", "VASC", "SCC"]

  /** The diagnosis spellings a harmonised ISIC row can carry. */
  const CanonicalLabels: set<string> := {"mel", "nv", "bcc", "akiec", "bkl", "df", "vasc", "scc"}

  const HamSource: string := "ham10000"
  const IsicSource: string := "isic2019"

  /** A row of the master table: `image_id`, `dx`, `source`. */
  datatype Row = Row(imageId: string, dx: string, source: string)

  /** The two columns both metadata frames are cut down to. */
  const KeyColumns: set<string> := {"image_id", "dx"}

  /** A row of the HAM10000 metadata, restricted to `image_id` and `dx`. */
  datatype HamRecord = HamRecord(imageId: string, dx: string)

  /** The HAM10000 metadata frame: its column names and its rows. */
  datatype HamTable = HamTable(columns: set<string>, rows: seq<HamRecord>)

  /** A row of the ISIC 2019 ground truth after `image` is renamed `image_id`:
      its numeric cells by column name. */
  datatype IsicRecord = IsicRecord(imageId: string, cells: map<string, real>)

  /** The ISIC ground-truth frame: its column names (after the rename) and its rows. */
  datatype IsicTable = IsicTable(columns: set<string>, rows: seq<IsicRecord>)

  /** A frame has a cell in every column of every row. */
  predicate WellFormed(t: IsicTable) {
    forall i, c :: 0 <= i < |t.rows| && c in t.columns ==> c in t.rows[i].cells
  }

  datatype MergeError =
    | RawDirMissing                        // FileNotFoundError in the constructor
    | HamFileMissing                       // FileNotFoundError for the HAM metadata
    | IsicFileMissing                      // FileNotFoundError for the ISIC ground truth
    | HamColumnsMissing(missing: set<string>)    // KeyError from `ham_df[['image_id', 'dx']]`
    | MissingLabelColumns(missing: set<string>)  // ValueError from harmonisation
    | IsicIdMissing                        // KeyError from `isic_df[['image_id', 'dx']]`
    | EmptyClassDistribution               // ValueError: `max()` of an empty distribution

  /** What the file system holds: the raw directory, and the two metadata files
      when they exist. */
  datatype Sources = Sources(rawDirExists: bool, ham: Option<HamTable>, isic: Option<IsicTable>)

  datatype Stats = Stats(
    totalImages: nat,
    hamCount: nat,
    isicCount: nat,
    classDistribution: map<string, nat>,
    sourceDistribution: map<string, nat>)

  // ---------------------------------------------------------------------------
  // Label harmonisation
  // ---------------------------------------------------------------------------

  /** `idxmax`: the position of the first maximum. */
  function FirstMax(vals: seq<real>): (i: nat)
    requires |vals| > 0
    ensures i < |vals|
    ensures forall j :: 0 <= j < |vals| ==> vals[j] <= vals[i]
    ensures forall j :: 0 <= j < i ==> vals[j] < vals[i]
  {
    if |vals| == 1 then 0
    else
      var k := FirstMax(vals[1..]);
      if vals[0] >= vals[1..][k] then 0 else k + 1
  }

  /** The ak spelling of ISIC is the akiec spelling of HAM; nothing else is renamed. */
  function Rename(name: string): string {
    if name == "ak" then "akiec" else name
  }

  /** The indicator values of a row, in `LabelColumns` order. */
  function Indicators(r: IsicRecord): (vals: seq<real>)
    requires forall c :: c in LabelColumns ==> c in r.cells
    ensures |vals| == |LabelColumns|
  {
    seq(|LabelColumns|, k requires 0 <= k < |LabelColumns| => r.cells[LabelColumns[k]])
  }

  /** The harmonised label of one row: the lower-cased name of the first column
      holding the row maximum, with ak renamed. */
  function HarmonizedLabel(r: IsicRecord): string
    requires forall c :: c in LabelColumns ==> c in r.cells
  {
    Rename(Lower(LabelColumns[FirstMax(Indicators(r))]))
  }

  /** `harmonize_isic_labels`: the new `dx` column, or the ValueError naming the
      missing indicator columns. */
  function HarmonizeIsicLabels(t: IsicTable): (r: Result<seq<string>, MergeError>)
    requires WellFormed(t)
    ensures r.Err? <==> exists c :: c in LabelColumns && c !in t.columns
    ensures r.Err? ==> r.error == MissingLabelColumns(set c | c in LabelColumns && c !in t.columns)
    ensures r.Ok? ==> |r.value| == |t.rows|
    ensures r.Ok? ==> forall i :: 0 <= i < |t.rows| ==> r.value[i] in CanonicalLabels
    ensures r.Ok? ==> forall i :: 0 <= i < |t.rows| ==> r.value[i] == HarmonizedLabel(t.rows[i])
  {
    var missing := set c | c in LabelColumns && c !in t.columns;
    if missing != {} then Err(MissingLabelColumns(missing))
    else
      assert forall c :: c in LabelColumns ==> c in t.columns by {
        forall c | c in LabelColumns ensures c in t.columns {
          assert c !in missing;
        }
      }
      var dx := seq(|t.rows|, i requires 0 <= i < |t.rows| => HarmonizedLabel(t.rows[i]));
      assert forall i :: 0 <= i < |t.rows| ==> dx[i] in CanonicalLabels by {
        forall i | 0 <= i < |t.rows| ensures dx[i] in CanonicalLabels {
          HarmonizedLabelCanonical(t.rows[i]);
        }
      }
      Ok(dx)
  }

  /** Every harmonised label is one of the eight canonical spellings; ak never survives. */
  lemma HarmonizedLabelCanonical(r: IsicRecord)
    requires forall c :: c in LabelColumns ==> c in r.cells
    ensures HarmonizedLabel(r) in CanonicalLabels && HarmonizedLabel(r) != "ak"
  {
    var k := FirstMax(Indicators(r));
    assert k < 8;
    assert Lower("MEL") == "mel" && Lower("NV") == "nv" && Lower("BCC") == "bcc" && Lower("AK") == "ak";
    assert Lower("BKL") == "bkl" && Lower("DF") == "df" && Lower("VASC") == "vasc" && Lower("SCC") == "scc";
  }

  /** A one-hot row whose indicator is set in column `k` (1 there, 0 elsewhere)
      gets that column's label. */
  lemma OneHotLabel(r: IsicRecord, k: nat)
    requires forall c :: c in LabelColumns ==> c in r.cells
    requires k < |LabelColumns|
    requires r.cells[LabelColumns[k]] == 1.0
    requires forall j :: 0 <= j < |LabelColumns| && j != k ==> r.cells[LabelColumns[j]] == 0.0
    ensures HarmonizedLabel(r) == Rename(Lower(LabelColumns[k]))
  {
    var vals := Indicators(r);
    var m := FirstMax(vals);
    assert vals[k] == 1.0;
    assert m == k;
  }

  /** An all-zero row is not rejected: the first column wins, so it is labelled mel. */
  lemma AllZeroRowIsMel(r: IsicRecord)
    requires forall c :: c in LabelColumns ==> c in r.cells
    requires forall j :: 0 <= j < |LabelColumns| ==> r.cells[LabelColumns[j]] == 0.0
    ensures HarmonizedLabel(r) == "mel"
  {
    var vals := Indicators(r);
    assert FirstMax(vals) == 0;
    assert Lower("MEL") == "mel";
  }

  /** The only label that renaming changes is ak. */
  lemma RenameOnlyAk(name: string)
    ensures Rename(name) != name <==> name == "ak"
    ensures Rename(name) == "akiec" <==> name == "ak" || name == "akiec"
  {
  }

  // ---------------------------------------------------------------------------
  // De-duplication
  // ---------------------------------------------------------------------------

  function IdsOf(rows: seq<Row>): (ids: seq<string>)
    ensures |ids| == |rows|
    ensures forall i :: 0 <= i < |rows| ==> ids[i] == rows[i].imageId
  {
    seq(|rows|, i requires 0 <= i < |rows| => rows[i].imageId)
  }

  function HamIds(ham: seq<Row>): set<string> {
    set r | r in ham :: r.imageId
  }

  /** The rows of `rows` whose id is not in `ids`, in their original order. */
  function KeepNotIn(ids: set<string>, rows: seq<Row>): (kept: seq<Row>)
    ensures |kept| <= |rows|
  {
    if rows == [] then []
    else (if rows[0].imageId in ids then [] else [rows[0]]) + KeepNotIn(ids, rows[1..])
  }

  /** A row is kept exactly when it is one of the input rows and its id is not in `ids`. */
  lemma {:induction false} KeepNotInMembers(ids: set<string>, rows: seq<Row>)
    ensures forall r :: r in KeepNotIn(ids, rows) <==> r in rows && r.imageId !in ids
  {
    if rows != [] {
      KeepNotInMembers(ids, rows[1..]);
      assert rows == [rows[0]] + rows[1..];
    }
  }

  /** `remove_duplicates`: the ISIC rows whose `image_id` is not a HAM `image_id`. */
  function RemoveDuplicates(ham: seq<Row>, isic: seq<Row>): seq<Row> {
    KeepNotIn(HamIds(ham), isic)
  }

  /** The number of rows `remove_duplicates` logs as removed: exactly the
      ISIC rows whose id is a HAM id. */
  function DuplicatesRemoved(ham: seq<Row>, isic: seq<Row>): (n: nat)
    ensures n == |KeepIn(HamIds(ham), isic)|
    ensures n <= |isic|
  {
    DedupPartition(HamIds(ham), isic);
    |isic| - |RemoveDuplicates(ham, isic)|
  }

  /** Filtering commutes with concatenation: the kept rows keep their relative order. */
  lemma {:induction false} KeepNotInConcat(ids: set<string>, a: seq<Row>, b: seq<Row>)
    ensures KeepNotIn(ids, a + b) == KeepNotIn(ids, a) + KeepNotIn(ids, b)
  {
    if a == [] {
      assert a + b == b;
    } else {
      var head := if a[0].imageId in ids then [] else [a[0]];
      var ab := a + b;
      assert ab != [] && ab[0] == a[0] && ab[1..] == a[1..] + b;
      assert KeepNotIn(ids, ab) == head + KeepNotIn(ids, a[1..] + b);
      assert KeepNotIn(ids, a) == head + KeepNotIn(ids, a[1..]);
      KeepNotInConcat(ids, a[1..], b);
      assert head + (KeepNotIn(ids, a[1..]) + KeepNotIn(ids, b))
          == (head + KeepNotIn(ids, a[1..])) + KeepNotIn(ids, b);
    }
  }

  /** Removing duplicates a second time removes nothing more. */
  lemma {:induction false} KeepNotInIdempotent(ids: set<string>, rows: seq<Row>)
    ensures KeepNotIn(ids, KeepNotIn(ids, rows)) == KeepNotIn(ids, rows)
  {
    if rows != [] {
      var head := if rows[0].imageId in ids then [] else [rows[0]];
      KeepNotInConcat(ids, head, KeepNotIn(ids, rows[1..]));
      KeepNotInIdempotent(ids, rows[1..]);
    }
  }

  /** The rows of `rows` whose id is in `ids`: the ones de-duplication drops. */
  function KeepIn(ids: set<string>, rows: seq<Row>): (dropped: seq<Row>)
    ensures forall r :: r in dropped ==> r.imageId in ids
  {
    if rows == [] then []
    else (if rows[0].imageId in ids then [rows[0]] else []) + KeepIn(ids, rows[1..])
  }

  /** De-duplication splits the ISIC rows into the kept ones and the duplicates,
      so `duplicates_removed` counts exactly the rows whose id is a HAM id. */
  lemma {:induction false} DedupPartition(ids: set<string>, rows: seq<Row>)
    ensures multiset(rows) == multiset(KeepNotIn(ids, rows)) + multiset(KeepIn(ids, rows))
    ensures |rows| - |KeepNotIn(ids, rows)| == |KeepIn(ids, rows)|
  {
    if rows != [] {
      DedupPartition(ids, rows[1..]);
      assert rows == [rows[0]] + rows[1..];
    }
  }

  lemma {:induction false} KeepNotInNoDup(ids: set<string>, rows: seq<Row>)
    requires NoDup(IdsOf(rows))
    ensures NoDup(IdsOf(KeepNotIn(ids, rows)))
  {
    if rows != [] {
      var rest := KeepNotIn(ids, rows[1..]);
      assert NoDup(IdsOf(rows[1..])) by {
        forall i, j | 0 <= i < j < |rows| - 1 ensures IdsOf(rows[1..])[i] != IdsOf(rows[1..])[j] {
          assert IdsOf(rows)[i + 1] != IdsOf(rows)[j + 1];
        }
      }
      KeepNotInNoDup(ids, rows[1..]);
      KeepNotInMembers(ids, rows[1..]);
      forall k | 0 <= k < |rest| ensures rest[k].imageId != rows[0].imageId {
        assert rest[k] in rows[1..];
        var m :| 0 <= m < |rows| - 1 && rows[1..][m] == rest[k];
        assert IdsOf(rows)[0] != IdsOf(rows)[m + 1];
      }
    }
  }

  // ---------------------------------------------------------------------------
  // The merge pipeline
  // ---------------------------------------------------------------------------

  /** The HAM rows tagged with their source. */
  function TagHam(ham: seq<HamRecord>): (rows: seq<Row>)
    ensures |rows| == |ham|
    ensures forall i :: 0 <= i < |ham| ==> rows[i] == Row(ham[i].imageId, ham[i].dx, HamSource)
  {
    seq(|ham|, i requires 0 <= i < |ham| => Row(ham[i].imageId, ham[i].dx, HamSource))
  }

  /** The ISIC rows with their harmonised labels, tagged with their source. */
  function TagIsic(t: IsicTable, dx: seq<string>): (rows: seq<Row>)
    requires |dx| == |t.rows|
    ensures |rows| == |t.rows|
    ensures forall i :: 0 <= i < |dx| ==> rows[i] == Row(t.rows[i].imageId, dx[i], IsicSource)
  {
    seq(|dx|, i requires 0 <= i < |dx| => Row(t.rows[i].imageId, dx[i], IsicSource))
  }

  function DxColumn(rows: seq<Row>): (col: seq<string>)
    ensures |col| == |rows| && forall i :: 0 <= i < |rows| ==> col[i] == rows[i].dx
  {
    seq(|rows|, i requires 0 <= i < |rows| => rows[i].dx)
  }

  function SourceColumn(rows: seq<Row>): (col: seq<string>)
    ensures |col| == |rows| && forall i :: 0 <= i < |rows| ==> col[i] == rows[i].source
  {
    seq(|rows|, i requires 0 <= i < |rows| => rows[i].source)
  }

  /** `value_counts().to_dict()`: each value present, with its count. */
  function Distribution(col: seq<string>): (d: map<string, nat>)
    ensures forall v :: v in d <==> v in col
    ensures forall v :: v in d ==> d[v] == Count(col, v) && d[v] > 0
  {
    var labels := Distinct(col);
    map v | v in labels :: Count(col, v)
  }

  function Statistics(master: seq<Row>, hamCount: nat, isicCount: nat): Stats {
    Stats(|master|, hamCount, isicCount, Distribution(DxColumn(master)), Distribution(SourceColumn(master)))
  }

  /** `merge_datasets`: the master table and its statistics, or the error that
      aborts the pipeline. Errors are checked in the source's order: the raw
      directory (constructor), the HAM file and its key columns, the ISIC
      file, the indicator columns, the ISIC id column (selected only after
      harmonisation), and finally the empty class distribution whose `max()`
      fails. */
  function MergeDatasets(src: Sources): (r: Result<(seq<Row>, Stats), MergeError>)
    requires src.isic.Some? ==> WellFormed(src.isic.value)
  {
    if !src.rawDirExists then Err(RawDirMissing)
    else if src.ham.None? then Err(HamFileMissing)
    else if !(KeyColumns <= src.ham.value.columns) then Err(HamColumnsMissing(KeyColumns - src.ham.value.columns))
    else if src.isic.None? then Err(IsicFileMissing)
    else
      var hamRows := TagHam(src.ham.value.rows);
      match HarmonizeIsicLabels(src.isic.value)
      case Err(e) => Err(e)
      case Ok(dx) =>
        if "image_id" !in src.isic.value.columns then Err(IsicIdMissing)
        else
        var isicRows := RemoveDuplicates(hamRows, TagIsic(src.isic.value, dx));
        var master := hamRows + isicRows;
        if master == [] then Err(EmptyClassDistribution)
        else Ok((master, Statistics(master, |hamRows|, |isicRows|)))
  }

  /** Every missing file or column aborts before anything is merged, in the
      source's order. */
  lemma MergeErrors(src: Sources)
    requires src.isic.Some? ==> WellFormed(src.isic.value)
    ensures !src.rawDirExists ==> MergeDatasets(src) == Err(RawDirMissing)
    ensures src.rawDirExists && src.ham.None? ==> MergeDatasets(src) == Err(HamFileMissing)
    ensures src.rawDirExists && src.ham.Some? && !(KeyColumns <= src.ham.value.columns) ==>
      MergeDatasets(src) == Err(HamColumnsMissing(KeyColumns - src.ham.value.columns))
    ensures src.rawDirExists && src.ham.Some? && KeyColumns <= src.ham.value.columns && src.isic.None? ==>
      MergeDatasets(src) == Err(IsicFileMissing)
    ensures src.rawDirExists && src.ham.Some? && KeyColumns <= src.ham.value.columns && src.isic.Some? ==>
      ((MergeDatasets(src).Err? && MergeDatasets(src).error.MissingLabelColumns?)
       <==> (exists c :: c in LabelColumns && c !in src.isic.value.columns))
    ensures src.rawDirExists && src.ham.Some? && KeyColumns <= src.ham.value.columns && src.isic.Some? ==>
      (MergeDatasets(src) == Err(IsicIdMissing)
       <==> (forall c :: c in LabelColumns ==> c in src.isic.value.columns) && "image_id" !in src.isic.value.columns)
  {
  }

  /** The ISIC rows that survive de-duplication, as `merge_datasets` computes them. */
  function IsicKept(ham: seq<HamRecord>, t: IsicTable): seq<Row>
    requires WellFormed(t)
    requires HarmonizeIsicLabels(t).Ok?
  {
    RemoveDuplicates(TagHam(ham), TagIsic(t, HarmonizeIsicLabels(t).value))
  }

  lemma MasterIs(src: Sources)
    requires src.isic.Some? ==> WellFormed(src.isic.value)
    requires MergeDatasets(src).Ok?
    ensures src.ham.Some? && src.isic.Some? && HarmonizeIsicLabels(src.isic.value).Ok?
    ensures KeyColumns <= src.ham.value.columns && "image_id" in src.isic.value.columns
    ensures MergeDatasets(src).value.0 == TagHam(src.ham.value.rows) + IsicKept(src.ham.value.rows, src.isic.value)
  {
  }

  /** The master table starts with the HAM rows, tagged ham10000, labels unchanged. */
  lemma MergeHamPrefix(src: Sources)
    requires src.isic.Some? ==> WellFormed(src.isic.value)
    requires MergeDatasets(src).Ok?
    ensures src.ham.Some?
    ensures |src.ham.value.rows| <= |MergeDatasets(src).value.0|
    ensures forall i :: 0 <= i < |src.ham.value.rows| ==>
      MergeDatasets(src).value.0[i] == Row(src.ham.value.rows[i].imageId, src.ham.value.rows[i].dx, HamSource)
  {
    MasterIs(src);
  }

  /** After the HAM rows come exactly the ISIC rows, tagged isic2019 with their
      harmonised label, whose id is not a HAM id, in their original order. */
  lemma MergeIsicSuffix(src: Sources)
    requires src.isic.Some? ==> WellFormed(src.isic.value)
    requires MergeDatasets(src).Ok?
    ensures src.ham.Some? && src.isic.Some? && HarmonizeIsicLabels(src.isic.value).Ok?
    ensures var ham := src.ham.value.rows; var t := src.isic.value;
      var master := MergeDatasets(src).value.0;
      && |ham| <= |master|
      && (forall i :: |ham| <= i < |master| ==>
            master[i].source == IsicSource && master[i].dx in CanonicalLabels
            && master[i].imageId !in HamIds(TagHam(ham)))
      && (forall k :: 0 <= k < |t.rows| && t.rows[k].imageId !in HamIds(TagHam(ham)) ==>
            Row(t.rows[k].imageId, HarmonizedLabel(t.rows[k]), IsicSource) in master[|ham|..])
  {
    MasterIs(src);
    var ham := src.ham.value.rows;
    var t := src.isic.value;
    var tagged := TagIsic(t, HarmonizeIsicLabels(t).value);
    var kept := IsicKept(ham, t);
    var master := TagHam(ham) + kept;
    KeepNotInMembers(HamIds(TagHam(ham)), tagged);
    assert master[|ham|..] == kept;
    forall i | |ham| <= i < |master|
      ensures master[i].source == IsicSource && master[i].dx in CanonicalLabels
      ensures master[i].imageId !in HamIds(TagHam(ham))
    {
      assert master[i] == kept[i - |ham|];
      assert kept[i - |ham|] in tagged;
    }
    forall k | 0 <= k < |t.rows| && t.rows[k].imageId !in HamIds(TagHam(ham))
      ensures Row(t.rows[k].imageId, HarmonizedLabel(t.rows[k]), IsicSource) in master[|ham|..]
    {
      assert tagged[k] in tagged;
    }
  }

  /** The statistics agree with the table: the total is the sum of the two
      per-source counts, and the class counts add up to the total. */
  lemma MergeStatsConsistent(src: Sources)
    requires src.isic.Some? ==> WellFormed(src.isic.value)
    requires MergeDatasets(src).Ok?
    ensures var (master, stats) := MergeDatasets(src).value;
      && stats.totalImages == |master| == stats.hamCount + stats.isicCount
      && SumCounts(Distinct(DxColumn(master)), DxColumn(master)) == stats.totalImages
      && (forall c :: c in stats.classDistribution ==> stats.classDistribution[c] == Count(DxColumn(master), c))
      && stats.hamCount == |src.ham.value.rows|
  {
    var master := MergeDatasets(src).value.0;
    CountsSumToLength(Distinct(DxColumn(master)), DxColumn(master));
  }

  /** If each source has unique ids, the master table has unique ids; an id shared
      by both sources is kept once, from HAM. */
  lemma MergedIdsUnique(src: Sources)
    requires src.isic.Some? ==> WellFormed(src.isic.value)
    requires MergeDatasets(src).Ok?
    requires src.ham.Some? && NoDup(IdsOf(TagHam(src.ham.value.rows)))
    requires src.isic.Some? && NoDup(seq(|src.isic.value.rows|, i requires 0 <= i < |src.isic.value.rows| => src.isic.value.rows[i].imageId))
    ensures NoDup(IdsOf(MergeDatasets(src).value.0))
  {
    var hamRows := TagHam(src.ham.value.rows);
    var t := src.isic.value;
    var dx := HarmonizeIsicLabels(t).value;
    var tagged := TagIsic(t, dx);
    assert IdsOf(tagged) == seq(|t.rows|, i requires 0 <= i < |t.rows| => t.rows[i].imageId);
    KeepNotInNoDup(HamIds(hamRows), tagged);
    var kept := RemoveDuplicates(hamRows, tagged);
    var master := hamRows + kept;
    KeepNotInMembers(HamIds(hamRows), tagged);
    assert MergeDatasets(src).value.0 == master;
    var ids := IdsOf(master);
    forall i, j | 0 <= i < j < |master| ensures ids[i] != ids[j] {
      if j < |hamRows| {
        assert IdsOf(hamRows)[i] != IdsOf(hamRows)[j];
      } else if i < |hamRows| {
        assert master[j] == kept[j - |hamRows|];
        assert kept[j - |hamRows|] in kept;
        assert master[i] in hamRows;
      } else {
        assert IdsOf(kept)[i - |hamRows|] != IdsOf(kept)[j - |hamRows|];
      }
    }
  }
}
