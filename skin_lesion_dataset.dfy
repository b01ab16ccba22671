/** The skin-lesion dataset: the metadata rows of one split, the two image
    directories, and the label encoding; items are looked up by position. */
module SkinLesion {
  import opened Wrappers
  import opened Dicts
  import opened DataMerger
  import opened Images
  import opened Strings

  const FileExtension: string := ".jpg"

  datatype DatasetError =
    | CsvMissing                     // FileNotFoundError from the constructor
    | NoClassMapping                 // ValueError from the constructor
    | UnknownSource(source: string)  // ValueError from the path construction
    | IndexOutOfRange(idx: int)      // IndexError from `iloc`
    | UnknownLabel(dx: string)       // KeyError from `class_to_idx[dx]`

  datatype Warning = HamDirMissing | IsicDirMissing

  /** The fields a constructed dataset holds. */
  datatype Dataset = Dataset(
    data: seq<Row>,
    hamDir: string,
    isicDir: string,
    classToIdx: Items<string, int>,
    idxToClass: map<int, string>,
    numClasses: nat,
    classDistribution: map<string, nat>)

  /** The warnings of `_validate_directories`, HAM first. */
  function DirectoryWarnings(hamDirExists: bool, isicDirExists: bool): (ws: seq<Warning>)
    ensures HamDirMissing in ws <==> !hamDirExists
    ensures IsicDirMissing in ws <==> !isicDirExists
    ensures |ws| <= 2
  {
    (if hamDirExists then [] else [HamDirMissing]) + (if isicDirExists then [] else [IsicDirMissing])
  }

  /** `SkinLesionDataset.__init__`: the metadata file (None when it does not
      exist), then the directory warnings, then the class mapping. */
  function NewDataset(csv: Option<seq<Row>>, hamDir: string, isicDir: string,
                      hamDirExists: bool, isicDirExists: bool,
                      classToIdx: Option<Items<string, int>>)
    : (r: (seq<Warning>, Result<Dataset, DatasetError>))
  {
    if csv.None? then ([], Err(CsvMissing))
    else
      var warnings := DirectoryWarnings(hamDirExists, isicDirExists);
      if classToIdx.None? then (warnings, Err(NoClassMapping))
      else
        var items := classToIdx.value;
        (warnings, Ok(Dataset(csv.value, hamDir, isicDir, items, Invert(items), |items|,
                              Distribution(DxColumn(csv.value)))))
  }

  /** Construction fails only for a missing metadata file or a missing class
      mapping, in that order; missing image directories only produce warnings. */
  lemma NewDatasetErrors(csv: Option<seq<Row>>, hamDir: string, isicDir: string,
                         hamDirExists: bool, isicDirExists: bool,
                         classToIdx: Option<Items<string, int>>)
    ensures var (ws, r) := NewDataset(csv, hamDir, isicDir, hamDirExists, isicDirExists, classToIdx);
      && (r.Ok? <==> csv.Some? && classToIdx.Some?)
      && (csv.None? ==> r == Err(CsvMissing) && ws == [])
      && (csv.Some? && classToIdx.None? ==> r == Err(NoClassMapping))
      && (csv.Some? ==> (HamDirMissing in ws <==> !hamDirExists) && (IsicDirMissing in ws <==> !isicDirExists))
      && (r.Ok? ==> r.value.data == csv.value && r.value.numClasses == |classToIdx.value|)
  {
  }

  /** For a mapping with distinct labels and distinct indices, `idx_to_class`
      inverts `class_to_idx` both ways and has one entry per class. */
  lemma IdxToClassRoundTrip(csv: seq<Row>, hamDir: string, isicDir: string,
                            hamDirExists: bool, isicDirExists: bool,
                            classToIdx: Items<string, int>)
    requires DistinctKeys(classToIdx) && InjectiveValues(classToIdx)
    ensures var ds := NewDataset(Some(csv), hamDir, isicDir, hamDirExists, isicDirExists, Some(classToIdx)).1.value;
      && (forall k :: 0 <= k < |classToIdx| ==>
            classToIdx[k].1 in ds.idxToClass && ds.idxToClass[classToIdx[k].1] == classToIdx[k].0)
      && (forall i :: i in ds.idxToClass ==> Get(ds.classToIdx, ds.idxToClass[i]) == Some(i))
      && |ds.idxToClass| == ds.numClasses
  {
    InvertRoundTrip(classToIdx);
  }

  /** `_get_image_path`: `<dir> / "<image_id>.jpg"` in the directory of the row's source. */
  function ImagePath(ds: Dataset, imageId: string, source: string): (r: Result<string, DatasetError>)
    ensures r.Err? <==> source != HamSource && source != IsicSource
    ensures r.Err? ==> r.error == UnknownSource(source)
  {
    if source == HamSource then Ok(JoinPath(ds.hamDir, imageId + FileExtension))
    else if source == IsicSource then Ok(JoinPath(ds.isicDir, imageId + FileExtension))
    else Err(UnknownSource(source))
  }

  /** For an id that is a plain file stem (no separator, so pathlib leaves
      it as it is), the path lies in the source's directory, ends in `.jpg`,
      and names the image id. */
  lemma ImagePathShape(ds: Dataset, imageId: string, source: string)
    requires source == HamSource || source == IsicSource
    requires '/' !in imageId
    ensures var dir := if source == HamSource then ds.hamDir else ds.isicDir;
      var p := ImagePath(ds, imageId, source).value;
      && |p| == |dir| + 1 + |imageId| + |FileExtension|
      && p[..|dir|] == dir && p[|dir|] == '/'
      && p[|dir| + 1..|p| - |FileExtension|] == imageId
      && p[|p| - |FileExtension|..] == FileExtension
  {
    var dir := if source == HamSource then ds.hamDir else ds.isicDir;
    var name := imageId + FileExtension;
    assert name[0] != '/' by {
      if |imageId| > 0 { assert name[0] == imageId[0]; } else { assert name == FileExtension; }
    }
    assert !StartsWith(name, "/") by { assert name[..1] != "/"; }
    var p := dir + "/" + name;
    assert ImagePath(ds, imageId, source).value == p;
    assert p[|dir| + 1..|p| - |FileExtension|] == imageId;
  }

  /** Two plain file stems of the same source never share a path. */
  lemma ImagePathInjective(ds: Dataset, id1: string, id2: string, source: string)
    requires source == HamSource || source == IsicSource
    requires '/' !in id1 && '/' !in id2
    requires ImagePath(ds, id1, source) == ImagePath(ds, id2, source)
    ensures id1 == id2
  {
    ImagePathShape(ds, id1, source);
    ImagePathShape(ds, id2, source);
  }

  /** `__len__`. */
  function Length(ds: Dataset): (n: nat)
    ensures n == |ds.data|
  {
    |ds.data|
  }

  /** The row `iloc[idx]` selects: negative positions count from the end. */
  function RowAt(ds: Dataset, idx: int): (r: Result<Row, DatasetError>)
    ensures r.Ok? <==> -(Length(ds) as int) <= idx < Length(ds)
    ensures r.Ok? ==> r.value == ds.data[if idx >= 0 then idx else idx + |ds.data|]
  {
    if 0 <= idx < |ds.data| then Ok(ds.data[idx])
    else if -(|ds.data| as int) <= idx < 0 then Ok(ds.data[idx + |ds.data|])
    else Err(IndexOutOfRange(idx))
  }

  /** `__getitem__` without the transform: the row's image, or the blank
      image when loading fails, and the row's class index. `load` stands for
      `_load_image`, None when it raises. */
  function GetItem(ds: Dataset, idx: int, load: string -> Option<Image>)
    : (r: Result<(Image, int), DatasetError>)
  {
    match RowAt(ds, idx)
    case Err(e) => Err(e)
    case Ok(row) =>
      match ImagePath(ds, row.imageId, row.source)
      case Err(e) => Err(e)
      case Ok(path) =>
        var image := if load(path).Some? then load(path).value else ZeroImage();
        match Get(ds.classToIdx, row.dx)
        case None => Err(UnknownLabel(row.dx))
        case Some(classIdx) => Ok((image, classIdx))
  }

  /** For an index in range, an item fails only for an unknown source or an
      unknown label, never because of the image; its label is the class index
      of the row's diagnosis, and its image is the loaded one or the blank one. */
  lemma GetItemSpec(ds: Dataset, idx: int, load: string -> Option<Image>)
    requires 0 <= idx < Length(ds)
    ensures var row := ds.data[idx];
      var r := GetItem(ds, idx, load);
      && (r.Ok? <==> (row.source == HamSource || row.source == IsicSource) && HasKey(ds.classToIdx, row.dx))
      && (r.Err? && row.source != HamSource && row.source != IsicSource ==> r.error == UnknownSource(row.source))
      && (r.Ok? ==> Some(r.value.1) == Get(ds.classToIdx, row.dx))
      && (r.Ok? ==> var path := ImagePath(ds, row.imageId, row.source).value;
            r.value.0 == (if load(path).Some? then load(path).value else ZeroImage()))
  {
  }

  /** With a mapping of distinct labels, the label of an item is the index the
      mapping gives the row's diagnosis, whatever happens to the image. */
  lemma GetItemLabel(ds: Dataset, idx: nat, load: string -> Option<Image>, k: nat)
    requires idx < Length(ds) && DistinctKeys(ds.classToIdx)
    requires k < |ds.classToIdx| && ds.classToIdx[k].0 == ds.data[idx].dx
    requires ds.data[idx].source == HamSource || ds.data[idx].source == IsicSource
    ensures GetItem(ds, idx, load).Ok? && GetItem(ds, idx, load).value.1 == ds.classToIdx[k].1
  {
    Dicts.GetItem(ds.classToIdx, k);
  }
}
