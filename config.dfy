/** The configuration tree: a parsed YAML mapping turned into nested
    configuration objects, dotted-path lookup, conversion back to a mapping,
    the critical-path check and the loading step that normalises the class
    mapping. Objects are modelled as values: each configuration object is its
    ordered attribute list. */
module Configuration {
  import opened Wrappers
  import opened Dicts
  import opened Strings

  /** A parsed YAML value: a string, a mapping, or any other value (number,
      boolean, list, null) kept by its text. */
  datatype Yaml = Str(s: string) | Other(text: string) | Mapping(items: seq<(string, Yaml)>)

  /** An attribute of a configuration object: a value stored unchanged, or a
      nested configuration object. */
  datatype Attr = Plain(value: Yaml) | Nested(config: ConfigObj)

  /** A configuration object: its instance attributes in insertion order. */
  datatype ConfigObj = ConfigObj(attrs: seq<(string, Attr)>)

  datatype ConfigError =
    | ConfigFileMissing                 // FileNotFoundError from `from_yaml`
    | NotAMapping                       // the parsed file is not a mapping
    | MissingAttribute(name: string)    // AttributeError
    | ToDictShadowed                    // `to_dict` shadowed by an attribute: TypeError
    | NotAPath                          // a non-string path joined to the base: TypeError
    | CriticalFileMissing(path: string) // FileNotFoundError from `validate_paths`

  /** `setattr`: replaces the value of an existing attribute in place, or
      adds the attribute at the end. */
  function SetAttr(attrs: seq<(string, Attr)>, k: string, v: Attr): (r: seq<(string, Attr)>)
    ensures HasKey(attrs, k) ==> |r| == |attrs|
    ensures !HasKey(attrs, k) ==> r == attrs + [(k, v)]
  {
    if attrs == [] then [(k, v)]
    else if attrs[0].0 == k then [(k, v)] + attrs[1..]
    else
      var rest := SetAttr(attrs[1..], k, v);
      assert HasKey(attrs, k) ==> HasKey(attrs[1..], k) by {
        if HasKey(attrs, k) {
          var i :| 0 <= i < |attrs| && attrs[i].0 == k;
          assert attrs[1..][i - 1].0 == k;
        }
      }
      assert !HasKey(attrs, k) ==> !HasKey(attrs[1..], k) by {
        if HasKey(attrs[1..], k) {
          var i :| 0 <= i < |attrs[1..]| && attrs[1..][i].0 == k;
          assert attrs[i + 1].0 == k;
        }
      }
      assert attrs == [attrs[0]] + attrs[1..];
      [attrs[0]] + rest
  }

  /** The attribute a YAML value becomes: mappings become nested objects,
      everything else is stored unchanged. */
  function Convert(y: Yaml): Attr
    decreases y, 2
  {
    if y.Mapping? then Nested(FromDict(y.items)) else Plain(y)
  }

  /** `Config(config_dict)`: `setattr` for every item, in order. */
  function FromDict(d: seq<(string, Yaml)>): ConfigObj
    decreases d, 1
  {
    ConfigObj(AttrsFrom(d))
  }

  function AttrsFrom(d: seq<(string, Yaml)>): seq<(string, Attr)>
    decreases d, 0
  {
    if d == [] then []
    else
      var e := d[|d| - 1];
      assert e in d && e.1 < e;
      SetAttr(AttrsFrom(d[..|d| - 1]), e.0, Convert(e.1))
  }

  /** `Config.__init__` with its loop: one `setattr` per item, building a
      nested object for every mapping value. */
  method NewConfig(d: seq<(string, Yaml)>) returns (c: ConfigObj)
    ensures c == FromDict(d)
    decreases d
  {
    var attrs := [];
    var i := 0;
    while i < |d|
      invariant 0 <= i <= |d|
      invariant attrs == AttrsFrom(d[..i])
    {
      var (key, value) := d[i];
      assert d[i] in d && d[i].1 < d[i];
      var attr;
      if value.Mapping? {
        var nested := NewConfig(value.items);
        attr := Nested(nested);
      } else {
        attr := Plain(value);
      }
      assert d[..i + 1][..i] == d[..i];
      attrs := SetAttr(attrs, key, attr);
      i := i + 1;
    }
    assert d[..|d|] == d;
    c := ConfigObj(attrs);
  }

  /** A mapping as YAML produces it: distinct keys at every level. */
  predicate WellFormed(d: seq<(string, Yaml)>)
    decreases d, 0
  {
    DistinctKeys(d) && forall e | e in d :: (assert e.1 < e; WellFormedValue(e.1))
  }

  predicate WellFormedValue(y: Yaml)
    decreases y, 1
  {
    y.Mapping? ==> WellFormed(y.items)
  }

  /** No mapping at any level has a `to_dict` key, which would shadow the method. */
  predicate NoShadow(d: seq<(string, Yaml)>)
    decreases d, 0
  {
    !HasKey(d, "to_dict") && forall e | e in d :: (assert e.1 < e; NoShadowValue(e.1))
  }

  predicate NoShadowValue(y: Yaml)
    decreases y, 1
  {
    y.Mapping? ==> NoShadow(y.items)
  }

  /** `to_dict`: the attributes back as a mapping, nested objects converted
      recursively. Calling it on an object with a `to_dict` attribute calls
      that attribute instead, which is not callable. */
  function ToDict(c: ConfigObj): Result<seq<(string, Yaml)>, ConfigError>
    decreases c, 1
  {
    if HasKey(c.attrs, "to_dict") then Err(ToDictShadowed) else ItemsToDict(c.attrs)
  }

  function ItemsToDict(attrs: seq<(string, Attr)>): Result<seq<(string, Yaml)>, ConfigError>
    decreases attrs, 0
  {
    if attrs == [] then Ok([])
    else
      var e := attrs[|attrs| - 1];
      assert e in attrs && e.1 < e;
      match ItemsToDict(attrs[..|attrs| - 1])
      case Err(err) => Err(err)
      case Ok(rest) =>
        match e.1
        case Plain(y) => Ok(rest + [(e.0, y)])
        case Nested(c) =>
          match ToDict(c)
          case Err(err) => Err(err)
          case Ok(d) => Ok(rest + [(e.0, Mapping(d))])
  }

  /** With distinct keys, every `setattr` adds a new attribute at the end. */
  lemma {:induction false} AttrsFromAppends(d: seq<(string, Yaml)>)
    requires DistinctKeys(d)
    ensures |AttrsFrom(d)| == |d|
    ensures forall i :: 0 <= i < |d| ==> AttrsFrom(d)[i] == (d[i].0, Convert(d[i].1))
  {
    if d != [] {
      var k := |d| - 1;
      AttrsFromAppends(d[..k]);
    }
  }

  /** The attributes built from a mapping with distinct keys have distinct names. */
  lemma KeysOf(d: seq<(string, Yaml)>)
    requires DistinctKeys(d)
    ensures DistinctKeys(AttrsFrom(d))
  {
    AttrsFromAppends(d);
    var attrs := AttrsFrom(d);
    forall i, j | 0 <= i < j < |attrs| ensures attrs[i].0 != attrs[j].0 {
      assert attrs[i].0 == d[i].0 && attrs[j].0 == d[j].0;
    }
  }

  /** Converting a YAML mapping to a configuration object and back gives the
      mapping again, when its keys are distinct and none is `to_dict`. */
  lemma {:induction false} RoundTrip(d: seq<(string, Yaml)>)
    requires WellFormed(d) && NoShadow(d)
    ensures ToDict(FromDict(d)) == Ok(d)
    decreases d, 1
  {
    AttrsFromAppends(d);
    var attrs := AttrsFrom(d);
    assert !HasKey(attrs, "to_dict");
    ItemsRoundTrip(d, |d|);
    assert attrs[..|d|] == attrs && d[..|d|] == d;
  }

  lemma {:induction false} ItemsRoundTrip(d: seq<(string, Yaml)>, n: nat)
    requires WellFormed(d) && NoShadow(d) && n <= |d|
    requires |AttrsFrom(d)| == |d|
    requires forall i :: 0 <= i < |d| ==> AttrsFrom(d)[i] == (d[i].0, Convert(d[i].1))
    ensures ItemsToDict(AttrsFrom(d)[..n]) == Ok(d[..n])
    decreases d, 0, n
  {
    if n > 0 {
      var attrs := AttrsFrom(d)[..n];
      ItemsRoundTrip(d, n - 1);
      assert attrs[..n - 1] == AttrsFrom(d)[..n - 1];
      assert d[..n] == d[..n - 1] + [d[n - 1]];
      var e := d[n - 1];
      assert e in d && e.1 < e;
      if e.1.Mapping? {
        assert WellFormedValue(e.1) && NoShadowValue(e.1);
        RoundTrip(e.1.items);
      }
    }
  }

  /** `getattr` along a path of attribute names; None is the AttributeError
      raised when a name is missing or the value reached is not an object. */
  function Lookup(a: Attr, path: seq<string>): Option<Attr>
    decreases |path|
  {
    if path == [] then Some(a)
    else if a.Plain? then None
    else
      match Get(a.config.attrs, path[0])
      case None => None
      case Some(next) => Lookup(next, path[1..])
  }

  /** The same walk on the YAML mapping itself: one key per step. */
  function DictLookup(y: Yaml, path: seq<string>): Option<Yaml>
    decreases |path|
  {
    if path == [] then Some(y)
    else if !y.Mapping? then None
    else
      match Get(y.items, path[0])
      case None => None
      case Some(next) => DictLookup(next, path[1..])
  }

  /** `get`: the value at the dotted key, or the default when a segment is missing. */
  method GetValue(c: ConfigObj, key: string, default: Attr) returns (r: Attr)
    ensures r == (match Lookup(Nested(c), Split(key, '.')) case Some(a) => a case None => default)
  {
    var keys := Split(key, '.');
    var value := Nested(c);
    var i := 0;
    while i < |keys|
      invariant 0 <= i <= |keys|
      invariant Lookup(Nested(c), keys) == Lookup(value, keys[i..])
    {
      assert keys[i..][1..] == keys[i + 1..];
      if value.Plain? {
        return default;
      }
      var next := Get(value.config.attrs, keys[i]);
      if next.None? {
        return default;
      }
      value := next.value;
      i := i + 1;
    }
    r := value;
  }

  /** With distinct keys at every level, a key of the mapping becomes an
      attribute holding the converted value. */
  lemma GetConverted(d: seq<(string, Yaml)>, k: string)
    requires DistinctKeys(d)
    ensures Get(FromDict(d).attrs, k) == (match Get(d, k) case Some(y) => Some(Convert(y)) case None => None)
  {
    AttrsFromAppends(d);
    KeysOf(d);
    var attrs := AttrsFrom(d);
    var b := Get(d, k);
    if b.Some? {
      var i :| 0 <= i < |d| && d[i] == (k, b.value);
      GetItem(attrs, i);
    } else {
      assert !HasKey(attrs, k);
    }
  }

  /** Dotted lookup on the configuration follows the mapping one key per
      segment: it fails exactly where the mapping walk fails, and otherwise
      finds the converted value. */
  lemma {:induction false} LookupFollowsDict(y: Yaml, path: seq<string>)
    requires WellFormedValue(y)
    ensures Lookup(Convert(y), path) == (match DictLookup(y, path) case Some(v) => Some(Convert(v)) case None => None)
    decreases |path|
  {
    if path != [] && y.Mapping? {
      GetConverted(y.items, path[0]);
      match Get(y.items, path[0])
      case None =>
      case Some(next) =>
        var i :| 0 <= i < |y.items| && y.items[i] == (path[0], next);
        LookupFollowsDict(next, path[1..]);
    }
  }

  /** `get("a.b.c")` on a configuration built from a mapping returns the
      converted value at keys a, b, c, or the default when any is missing. */
  lemma GetDotted(d: seq<(string, Yaml)>, key: string, default: Attr)
    requires WellFormed(d)
    ensures var found := DictLookup(Mapping(d), Split(key, '.'));
      (match Lookup(Nested(FromDict(d)), Split(key, '.')) case Some(a) => a case None => default)
      == (match found case Some(v) => Convert(v) case None => default)
  {
    LookupFollowsDict(Mapping(d), Split(key, '.'));
  }

  /** `self.paths.<name>`: the AttributeError names the first attribute missing. */
  function PathAttr(c: ConfigObj, name: string): Result<Attr, ConfigError> {
    match Get(c.attrs, "paths")
    case None => Err(MissingAttribute("paths"))
    case Some(paths) =>
      if paths.Plain? then Err(MissingAttribute(name))
      else
        match Get(paths.config.attrs, name)
        case None => Err(MissingAttribute(name))
        case Some(a) => Ok(a)
  }

  const CriticalFiles: seq<string> := ["train_csv", "val_csv", "test_csv"]
  const CriticalDirs: seq<string> := ["ham_images", "isic_images"]

  /** The list literal of `validate_paths`: every attribute is looked up
      before any path is checked; the first failure wins. */
  function PathAttrs(c: ConfigObj, names: seq<string>): Result<seq<Attr>, ConfigError> {
    if names == [] then Ok([])
    else
      match PathAttr(c, names[0])
      case Err(e) => Err(e)
      case Ok(a) =>
        match PathAttrs(c, names[1..])
        case Err(e) => Err(e)
        case Ok(rest) => Ok([a] + rest)
  }

  /** The lookups succeed exactly when every attribute is there, and give
      the attributes in order; otherwise the error is the first lookup's. */
  lemma {:induction false} PathAttrsSpec(c: ConfigObj, names: seq<string>)
    ensures PathAttrs(c, names).Ok? ==> (|PathAttrs(c, names).value| == |names|
      && forall i :: 0 <= i < |names| ==> PathAttr(c, names[i]) == Ok(PathAttrs(c, names).value[i]))
    ensures PathAttrs(c, names).Err? ==> exists i :: (0 <= i < |names|
      && PathAttr(c, names[i]) == Err(PathAttrs(c, names).error)
      && forall j :: 0 <= j < i ==> PathAttr(c, names[j]).Ok?)
  {
    if names != [] {
      PathAttrsSpec(c, names[1..]);
      var r := PathAttrs(c, names);
      if r.Err? && PathAttr(c, names[0]).Ok? {
        var i :| 0 <= i < |names[1..]| && PathAttr(c, names[1..][i]) == Err(r.error)
          && forall j :: 0 <= j < i ==> PathAttr(c, names[1..][j]).Ok?;
        assert PathAttr(c, names[i + 1]) == Err(r.error);
        assert forall j :: 0 <= j < i + 1 ==> PathAttr(c, names[j]).Ok? by {
          forall j | 0 <= j < i + 1 ensures PathAttr(c, names[j]).Ok? {
            if j > 0 {
              assert names[j] == names[1..][j - 1];
            }
          }
        }
      }
    }
  }

  /** `base_path / value`: only a string can be joined to the base. */
  function Joined(base: string, a: Attr): Result<string, ConfigError> {
    if a.Plain? && a.value.Str? then Ok(JoinPath(base, a.value.s)) else Err(NotAPath)
  }

  /** The value joins to a path that exists. */
  predicate Found(base: string, a: Attr, present: string -> bool) {
    Joined(base, a).Ok? && present(Joined(base, a).value)
  }

  /** The first loop of `validate_paths`: the first critical file, in order,
      that cannot be joined or does not exist, decides the error. */
  function FileCheck(base: string, files: seq<Attr>, present: string -> bool): Option<ConfigError> {
    if files == [] then None
    else
      match Joined(base, files[0])
      case Err(e) => Some(e)
      case Ok(p) => if !present(p) then Some(CriticalFileMissing(p)) else FileCheck(base, files[1..], present)
  }

  /** The second loop: every directory is joined; a missing one adds a warning. */
  function DirCheck(base: string, dirs: seq<Attr>, present: string -> bool): Result<seq<string>, ConfigError> {
    if dirs == [] then Ok([])
    else
      match Joined(base, dirs[0])
      case Err(e) => Err(e)
      case Ok(p) => Prepend(if present(p) then [] else [p], DirCheck(base, dirs[1..], present))
  }

  function Prepend(ws: seq<string>, r: Result<seq<string>, ConfigError>): Result<seq<string>, ConfigError> {
    match r
    case Err(e) => Err(e)
    case Ok(rest) => Ok(ws + rest)
  }

  /** The file check passes exactly when every file is found; when it fails,
      every file before the culprit was found and the culprit gives the error. */
  lemma {:induction false} FileCheckSpec(base: string, files: seq<Attr>, present: string -> bool)
    ensures FileCheck(base, files, present).None? <==> forall i :: 0 <= i < |files| ==> Found(base, files[i], present)
    ensures FileCheck(base, files, present).Some? ==> exists i :: (0 <= i < |files|
      && !Found(base, files[i], present)
      && FileCheck(base, files, present).value
         == (if Joined(base, files[i]).Err? then NotAPath else CriticalFileMissing(Joined(base, files[i]).value))
      && forall j :: 0 <= j < i ==> Found(base, files[j], present))
  {
    if files != [] && Found(base, files[0], present) {
      FileCheckSpec(base, files[1..], present);
      assert forall i :: 1 <= i < |files| ==> files[i] == files[1..][i - 1];
      var r := FileCheck(base, files, present);
      if r.Some? {
        var i :| 0 <= i < |files[1..]| && !Found(base, files[1..][i], present)
          && r.value == (if Joined(base, files[1..][i]).Err? then NotAPath else CriticalFileMissing(Joined(base, files[1..][i]).value))
          && forall j :: 0 <= j < i ==> Found(base, files[1..][j], present);
        assert !Found(base, files[i + 1], present);
      }
    }
  }

  /** The directory check fails only for a value that cannot be joined;
      otherwise its warnings are exactly the joined directories that are missing. */
  lemma {:induction false} DirCheckSpec(base: string, dirs: seq<Attr>, present: string -> bool)
    ensures DirCheck(base, dirs, present).Ok? <==> forall i :: 0 <= i < |dirs| ==> Joined(base, dirs[i]).Ok?
    ensures DirCheck(base, dirs, present).Err? ==> DirCheck(base, dirs, present).error == NotAPath
    ensures DirCheck(base, dirs, present).Ok? ==> forall p :: p in DirCheck(base, dirs, present).value <==>
      exists i :: 0 <= i < |dirs| && Joined(base, dirs[i]) == Ok(p) && !present(p)
  {
    if dirs != [] {
      DirCheckSpec(base, dirs[1..], present);
      assert forall i :: 1 <= i < |dirs| ==> dirs[i] == dirs[1..][i - 1];
    }
  }

  /** What `validate_paths` decides: the attributes are looked up, the three
      critical files must exist, checked in order, and missing image
      directories only produce warnings, which are the result. */
  function Validation(c: ConfigObj, base: string, present: string -> bool): Result<seq<string>, ConfigError> {
    match PathAttrs(c, CriticalFiles)
    case Err(e) => Err(e)
    case Ok(files) =>
      match FileCheck(base, files, present)
      case Some(e) => Err(e)
      case None =>
        match PathAttrs(c, CriticalDirs)
        case Err(e) => Err(e)
        case Ok(dirs) => DirCheck(base, dirs, present)
  }

  /** The first loop of `validate_paths`, over the critical files. */
  method CheckFiles(base: string, files: seq<Attr>, present: string -> bool) returns (e: Option<ConfigError>)
    ensures e == FileCheck(base, files, present)
  {
    var i := 0;
    while i < |files|
      invariant 0 <= i <= |files|
      invariant FileCheck(base, files, present) == FileCheck(base, files[i..], present)
    {
      assert files[i..][0] == files[i] && files[i..][1..] == files[i + 1..];
      var full := Joined(base, files[i]);
      if full.Err? {
        return Some(full.error);
      }
      if !present(full.value) {
        return Some(CriticalFileMissing(full.value));
      }
      i := i + 1;
    }
    assert files[i..] == [];
    e := None;
  }

  /** The second loop of `validate_paths`, collecting the warnings for
      missing image directories. */
  method CollectWarnings(base: string, dirs: seq<Attr>, present: string -> bool)
    returns (r: Result<seq<string>, ConfigError>)
    ensures r == DirCheck(base, dirs, present)
  {
    var warnings := [];
    var j := 0;
    var all := DirCheck(base, dirs, present);
    if all.Ok? {
      assert warnings + all.value == all.value;
    }
    assert dirs[0..] == dirs;
    while j < |dirs|
      invariant 0 <= j <= |dirs|
      invariant all == Prepend(warnings, DirCheck(base, dirs[j..], present))
    {
      assert dirs[j..][0] == dirs[j] && dirs[j..][1..] == dirs[j + 1..];
      var full := Joined(base, dirs[j]);
      if full.Err? {
        assert DirCheck(base, dirs[j..], present) == Err(full.error);
        return Err(full.error);
      }
      var w := if present(full.value) then [] else [full.value];
      var rest := DirCheck(base, dirs[j + 1..], present);
      if rest.Ok? {
        assert warnings + (w + rest.value) == (warnings + w) + rest.value;
      }
      warnings := warnings + w;
      j := j + 1;
    }
    assert dirs[j..] == [] && warnings + [] == warnings;
    r := Ok(warnings);
  }

  /** `validate_paths`: the result holds the warnings. */
  method ValidatePaths(c: ConfigObj, base: string, present: string -> bool)
    returns (r: Result<seq<string>, ConfigError>)
    ensures r == Validation(c, base, present)
  {
    var files := PathAttrs(c, CriticalFiles);
    if files.Err? {
      return Err(files.error);
    }
    var problem := CheckFiles(base, files.value, present);
    if problem.Some? {
      return Err(problem.value);
    }
    var dirs := PathAttrs(c, CriticalDirs);
    if dirs.Err? {
      return Err(dirs.error);
    }
    r := CollectWarnings(base, dirs.value, present);
  }

  /** Validation passes only when all three critical files are found; a
      missing file is reported only after every earlier one was found; and
      a passing validation warns about exactly the missing image directories. */
  lemma ValidationSpec(c: ConfigObj, base: string, present: string -> bool)
    ensures var v := Validation(c, base, present);
      var files := PathAttrs(c, CriticalFiles);
      && (v.Ok? ==> files.Ok? && |files.value| == 3 && forall i :: 0 <= i < 3 ==> Found(base, files.value[i], present))
      && (v.Err? && v.error.CriticalFileMissing? ==> files.Ok? && |files.value| == 3 && exists i :: (0 <= i < 3
            && Joined(base, files.value[i]) == Ok(v.error.path) && !present(v.error.path)
            && forall j :: 0 <= j < i ==> Found(base, files.value[j], present)))
      && (v.Ok? ==> forall p :: p in v.value <==> exists i :: (0 <= i < 2 && PathAttr(c, CriticalDirs[i]).Ok?
            && Joined(base, PathAttr(c, CriticalDirs[i]).value) == Ok(p) && !present(p)))
  {
    PathAttrsSpec(c, CriticalFiles);
    PathAttrsSpec(c, CriticalDirs);
    var files := PathAttrs(c, CriticalFiles);
    if files.Ok? {
      FileCheckSpec(base, files.value, present);
      var dirs := PathAttrs(c, CriticalDirs);
      if dirs.Ok? {
        DirCheckSpec(base, dirs.value, present);
      }
    }
  }

  /** Replaces the attribute `k` of an object, as an assignment to it does. */
  function Assign(c: ConfigObj, k: string, v: Attr): ConfigObj {
    ConfigObj(SetAttr(c.attrs, k, v))
  }

  /** `load_config`: the file (None when it does not exist), the object built
      from it, then `dataset.class_to_idx`, when present, replaced by its
      mapping. */
  function LoadConfig(file: Option<Yaml>): Result<ConfigObj, ConfigError> {
    if file.None? then Err(ConfigFileMissing)
    else if !file.value.Mapping? then Err(NotAMapping)
    else
      var c := FromDict(file.value.items);
      match Get(c.attrs, "dataset")
      case None => Err(MissingAttribute("dataset"))
      case Some(dataset) =>
        if dataset.Plain? then Ok(c)
        else
          var mapping: Option<Attr> := Get(dataset.config.attrs, "class_to_idx");
          if mapping.None? then Ok(c)
          else if mapping.value.Plain? then Err(MissingAttribute("to_dict"))
          else
            match ToDict(mapping.value.config)
            case Err(e) => Err(e)
            case Ok(d) => Ok(Assign(c, "dataset", Nested(Assign(dataset.config, "class_to_idx", Plain(Mapping(d))))))
  }

  /** Assigning an existing attribute replaces its value where it stands and
      changes nothing else. */
  lemma AssignAt(c: ConfigObj, i: nat, v: Attr)
    requires DistinctKeys(c.attrs) && i < |c.attrs|
    ensures var r := Assign(c, c.attrs[i].0, v);
      && |r.attrs| == |c.attrs| && DistinctKeys(r.attrs)
      && r.attrs[i] == (c.attrs[i].0, v)
      && (forall j :: 0 <= j < |c.attrs| && j != i ==> r.attrs[j] == c.attrs[j])
      && Get(r.attrs, c.attrs[i].0) == Some(v)
      && (forall k :: k != c.attrs[i].0 ==> Get(r.attrs, k) == Get(c.attrs, k))
  {
    SetAttrAt(c.attrs, i, v);
    var r := Assign(c, c.attrs[i].0, v);
    assert forall j :: 0 <= j < |r.attrs| ==> r.attrs[j].0 == c.attrs[j].0;
    GetItem(r.attrs, i);
    forall k | k != c.attrs[i].0 ensures Get(r.attrs, k) == Get(c.attrs, k) {
      GetSameExcept(c.attrs, r.attrs, i, k);
    }
  }

  /** The nested mapping under key `k` of a well-formed mapping is itself
      well-formed, and becomes a nested object. */
  lemma NestedAt(d: seq<(string, Yaml)>, k: string, inner: seq<(string, Yaml)>) returns (i: nat)
    requires WellFormed(d) && Get(d, k) == Some(Mapping(inner))
    ensures WellFormed(inner) && i < |d| && d[i] == (k, Mapping(inner))
    ensures DistinctKeys(FromDict(d).attrs) && |FromDict(d).attrs| == |d|
    ensures FromDict(d).attrs[i] == (k, Nested(FromDict(inner)))
    ensures Get(FromDict(d).attrs, k) == Some(Nested(FromDict(inner)))
  {
    i :| 0 <= i < |d| && d[i] == (k, Mapping(inner));
    assert d[i] in d;
    assert WellFormedValue(d[i].1);
    AttrsFromAppends(d);
    KeysOf(d);
    GetItem(FromDict(d).attrs, i);
  }

  /** Loading turns a nested class mapping back into the mapping the file
      holds, and changes nothing else: every other top-level attribute and
      every other attribute of `dataset` keeps its place and its value. */
  lemma LoadNormalisesClassMapping(d: seq<(string, Yaml)>, dataset: seq<(string, Yaml)>, m: seq<(string, Yaml)>)
    requires WellFormed(d) && Get(d, "dataset") == Some(Mapping(dataset))
    requires Get(dataset, "class_to_idx") == Some(Mapping(m)) && NoShadow(m)
    ensures var r := LoadConfig(Some(Mapping(d)));
      && r.Ok?
      && |r.value.attrs| == |d|
      && Lookup(Nested(r.value), ["dataset", "class_to_idx"]) == Some(Plain(Mapping(m)))
      && (forall i :: 0 <= i < |d| && d[i].0 != "dataset" ==> r.value.attrs[i] == FromDict(d).attrs[i])
      && (forall k :: k != "class_to_idx" ==>
            Lookup(Nested(r.value), ["dataset", k]) == Lookup(Nested(FromDict(d)), ["dataset", k]))
  {
    var i := NestedAt(d, "dataset", dataset);
    var j := NestedAt(dataset, "class_to_idx", m);
    RoundTrip(m);
    var c := FromDict(d);
    var ds := FromDict(dataset);
    var ds' := Assign(ds, "class_to_idx", Plain(Mapping(m)));
    AssignAt(ds, j, Plain(Mapping(m)));
    AssignAt(c, i, Nested(ds'));
    var r := Assign(c, "dataset", Nested(ds'));
    assert LoadConfig(Some(Mapping(d))) == Ok(r);
    assert ["dataset", "class_to_idx"][1..] == ["class_to_idx"];
    assert Lookup(Nested(r), ["dataset", "class_to_idx"]) == Lookup(Nested(ds'), ["class_to_idx"]);
    forall k | k != "class_to_idx"
      ensures Lookup(Nested(r), ["dataset", k]) == Lookup(Nested(c), ["dataset", k])
    {
      assert ["dataset", k][1..] == [k];
      assert Lookup(Nested(r), ["dataset", k]) == Lookup(Nested(ds'), [k]);
      assert Lookup(Nested(c), ["dataset", k]) == Lookup(Nested(ds), [k]);
    }
  }

  /** Assigning an existing attribute replaces it where it stands. */
  lemma {:induction false} SetAttrAt(attrs: seq<(string, Attr)>, i: nat, v: Attr)
    requires DistinctKeys(attrs) && i < |attrs|
    ensures var r := SetAttr(attrs, attrs[i].0, v);
      |r| == |attrs| && r[i] == (attrs[i].0, v) && forall j :: 0 <= j < |attrs| && j != i ==> r[j] == attrs[j]
  {
    if i > 0 {
      SetAttrAt(attrs[1..], i - 1, v);
    }
  }

  /** Two attribute lists that differ only at position `j` answer every other
      name alike. */
  lemma GetSameExcept(a: seq<(string, Attr)>, b: seq<(string, Attr)>, j: nat, k: string)
    requires |a| == |b| && j < |a| && a[j].0 == b[j].0 && a[j].0 != k
    requires forall i :: 0 <= i < |a| && i != j ==> a[i] == b[i]
    ensures Get(a, k) == Get(b, k)
    decreases |a|
  {
    if a != [] && a[0].0 != k {
      if j > 0 {
        GetSameExcept(a[1..], b[1..], j - 1, k);
      } else {
        assert a[1..] == b[1..];
      }
    }
  }
}
