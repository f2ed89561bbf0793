/** The Python descriptor classes: repository, dataset, file and version
    ("data") records with strict loading from a parsed JSON value and
    serialisation back to one.  Loaders raise on the first missing or mistyped
    member; the fields assigned before that point keep their new values. */
module PyMetadata {
  import opened Results
  import opened Json
  import opened Records
  import NameLists

  /** The repository type tag and the format version that `version()` reports. */
  const RepoType := "autodataman"
  const FormatVersion := "1"

  /** The digest member of a Python file descriptor. */
  const DigestKey := "SHA256sum"

  // ---------------------------------------------------------------- repository

  /** What a repository load leaves behind: the format version value it stored
      (none if it stopped before reading it) and the dataset list or the error. */
  datatype RepoLoadOutcome = RepoLoadOutcome(version: Option<Json>, names: Result<seq<string>, MetaError>)

  /** The checks of the repository loader, in the source's order.  The stored
      version is any JSON value: the Python loader does not check its type. */
  function RepoLoad(j: Json): (r: RepoLoadOutcome)
    ensures r.names.Ok? ==> r.version.Some? && Member(j, "_DATASETS") == Some(JArray(StringArray(r.names.value)))
    ensures r.version.Some? ==>
      && Member(j, "_REPO").Some? && Member(Member(j, "_REPO").value, "type") == Some(JString(RepoType))
      && Member(Member(j, "_REPO").value, "version") == r.version
  {
    match Member(j, "_REPO")
    case None => RepoLoadOutcome(None, Err(Missing("_REPO")))
    case Some(repo) =>
      match Member(repo, "type")
      case None => RepoLoadOutcome(None, Err(Missing("_REPO::type")))
      case Some(t) =>
        if t != JString(RepoType) then RepoLoadOutcome(None, Err(BadRepoType))
        else
          match Member(repo, "version")
          case None => RepoLoadOutcome(None, Err(Missing("_REPO::version")))
          case Some(v) => RepoLoadOutcome(Some(v), StringArrayMember(j, "_DATASETS"))
  }

  /** The repository loader accepts a document exactly when `_REPO` holds type
      "autodataman" and some version, and `_DATASETS` is an array of strings. */
  lemma RepoLoadAccepts(j: Json)
    ensures RepoLoad(j).names.Ok? <==>
      && Member(j, "_REPO").Some?
      && Member(Member(j, "_REPO").value, "type") == Some(JString(RepoType))
      && Member(Member(j, "_REPO").value, "version").Some?
      && Member(j, "_DATASETS").Some? && Member(j, "_DATASETS").value.JArray?
      && AllStrings(Member(j, "_DATASETS").value.items)
    ensures RepoLoad(j).names.Ok? ==> Member(j, "_DATASETS") == Some(JArray(StringArray(RepoLoad(j).names.value)))
  {
  }

  /** The repository descriptor: always type "autodataman" and the current
      format version, whatever version was loaded, then the dataset names. */
  function RepoToJson(names: seq<string>): (r: Json)
    ensures RepoLoad(r).names.Ok?
  {
    StringsOfStringArray(names);
    JObject(map[
      "_REPO" := JObject(map["type" := JString(RepoType), "version" := JString(FormatVersion)]),
      "_DATASETS" := JArray(StringArray(names))])
  }

  /** Reloading a serialised repository restores its dataset names in order and
      reads back the format version "1". */
  lemma RepoRoundTrip(names: seq<string>)
    ensures RepoLoad(RepoToJson(names)) == RepoLoadOutcome(Some(JString(FormatVersion)), Ok(names))
  {
    StringsOfStringArray(names);
  }

  /** The dataset list of a repository descriptor, or why it was rejected. */
  function ParseRepo(j: Json): Result<seq<string>, MetaError>
  {
    RepoLoad(j).names
  }

  class RepoMD {
    var version: Json
    var datasetNames: seq<string>

    constructor ()
      ensures version == JString(FormatVersion) && datasetNames == []
    {
      version := JString(FormatVersion);
      datasetNames := [];
    }

    /** `clear` calls an unqualified `version()`, which is not in scope, so it
        raises NameError before assigning anything. */
    method Clear() returns (raisedNameError: bool)
      ensures raisedNameError
      ensures unchanged(this)
    {
      raisedNameError := true;
    }

    method FromJson(j: Json) returns (err: Option<MetaError>)
      modifies this
      ensures var o := RepoLoad(j);
        && version == (if o.version.Some? then o.version.value else old(version))
        && datasetNames == (if o.names.Ok? then o.names.value else old(datasetNames))
        && err == (if o.names.Ok? then None else Some(o.names.error))
    {
      var repo := Member(j, "_REPO");
      if repo.None? { return Some(Missing("_REPO")); }
      var t := Member(repo.value, "type");
      if t.None? { return Some(Missing("_REPO::type")); }
      if t.value != JString(RepoType) { return Some(BadRepoType); }
      var v := Member(repo.value, "version");
      if v.None? { return Some(Missing("_REPO::version")); }
      version := v.value;
      var names := StringArrayMember(j, "_DATASETS");
      if names.Err? { return Some(names.error); }
      datasetNames := names.value;
      err := None;
    }

    function ToJson(): Json
      reads this
    {
      RepoToJson(datasetNames)
    }

    /** The index of the first entry equal to `name`, or -1 when there is none. */
    function FindDataset(name: string): (r: int)
      reads this
      ensures r == -1 <==> name !in datasetNames
      ensures r != -1 ==> 0 <= r < |datasetNames| && datasetNames[r] == name && forall k :: 0 <= k < r ==> datasetNames[k] != name
    {
      NameLists.FindIndex(datasetNames, name)
    }

    method AddDataset(name: string)
      modifies this
      ensures datasetNames == old(datasetNames) + [name]
      ensures version == old(version)
    {
      datasetNames := datasetNames + [name];
    }

    method RemoveDataset(name: string)
      modifies this
      ensures datasetNames == NameLists.RemoveFirst(old(datasetNames), name)
      ensures version == old(version)
    {
      if name in datasetNames {
        datasetNames := NameLists.RemoveFirst(datasetNames, name);
      }
      NameLists.RemoveFirstSpec(old(datasetNames), name);
    }

    function NumDatasets(): nat
      reads this
    {
      |datasetNames|
    }
  }

  // ---------------------------------------------------------------- dataset

  /** The record a dataset load leaves (the loader clears every field first)
      and the error that stopped it.  `source` is never read. */
  function DatasetLoad(j: Json): (r: (DatasetRecord, Option<MetaError>))
    ensures r.1.None? ==>
      && Member(j, "_DATASET").Some?
      && Member(Member(j, "_DATASET").value, "short_name") == Some(JString(r.0.shortName))
      && Member(Member(j, "_DATASET").value, "long_name") == Some(JString(r.0.longName))
      && Member(Member(j, "_DATASET").value, "default") == Some(JString(r.0.defaultVersion))
      && Member(j, "_VERSIONS") == Some(JArray(StringArray(r.0.versions)))
  {
    match Member(j, "_DATASET")
    case None => (EmptyDataset, Some(Missing("_DATASET")))
    case Some(d) =>
      match StringMember(d, "short_name", "_DATASET::short_name")
      case Err(e) => (EmptyDataset, Some(e))
      case Ok(short) =>
        match StringMember(d, "long_name", "_DATASET::long_name")
        case Err(e) => (EmptyDataset.(shortName := short), Some(e))
        case Ok(long) =>
          match StringMember(d, "default", "_DATASET::default")
          case Err(e) => (EmptyDataset.(shortName := short, longName := long), Some(e))
          case Ok(default) =>
            var rec := DatasetRecord(short, long, "", default, []);
            match StringArrayMember(j, "_VERSIONS")
            case Err(e) => (rec, Some(e))
            case Ok(versions) => (rec.(versions := versions), None)
  }

  /** Whatever the input, a loaded dataset has an empty source, and a failed
      load leaves no versions. */
  lemma DatasetLoadNeverReadsSource(j: Json)
    ensures DatasetLoad(j).0.source == ""
    ensures DatasetLoad(j).1.Some? ==> DatasetLoad(j).0.versions == []
  {
  }

  function DatasetToJson(d: DatasetRecord): (r: Json)
    ensures DatasetLoad(r).1.None?
  {
    StringsOfStringArray(d.versions);
    JObject(map[
      "_DATASET" := JObject(map[
        "short_name" := JString(d.shortName),
        "long_name" := JString(d.longName),
        "source" := JString(d.source),
        "default" := JString(d.defaultVersion)]),
      "_VERSIONS" := JArray(StringArray(d.versions))])
  }

  /** Reloading a serialised dataset restores every field except `source`,
      which comes back empty. */
  lemma DatasetRoundTrip(d: DatasetRecord)
    ensures DatasetLoad(DatasetToJson(d)) == (d.(source := ""), None)
  {
    StringsOfStringArray(d.versions);
  }

  function ParseDataset(j: Json): Result<DatasetRecord, MetaError>
  {
    var (d, e) := DatasetLoad(j);
    if e.Some? then Err(e.value) else Ok(d)
  }

  class DatasetMD {
    var shortName: string
    var longName: string
    var source: string
    var defaultVersion: string
    var versions: seq<string>

    function Record(): DatasetRecord
      reads this
    {
      DatasetRecord(shortName, longName, source, defaultVersion, versions)
    }

    constructor ()
      ensures Record() == EmptyDataset
    {
      shortName, longName, source, defaultVersion, versions := "", "", "", "", [];
    }

    method Clear()
      modifies this
      ensures Record() == EmptyDataset
    {
      shortName, longName, source, defaultVersion, versions := "", "", "", "", [];
    }

    /** Copies the descriptive fields of another dataset and starts with no
        versions (`other` may be this object itself). */
    method SetFrom(other: DatasetMD)
      modifies this
      ensures Record() == old(other.Record()).(versions := [])
    {
      shortName := other.shortName;
      longName := other.longName;
      source := other.source;
      defaultVersion := other.defaultVersion;
      versions := [];
    }

    method FromJson(j: Json) returns (err: Option<MetaError>)
      modifies this
      ensures (Record(), err) == DatasetLoad(j)
    {
      Clear();
      var d := Member(j, "_DATASET");
      if d.None? { return Some(Missing("_DATASET")); }
      var short := StringMember(d.value, "short_name", "_DATASET::short_name");
      if short.Err? { return Some(short.error); }
      shortName := short.value;
      var long := StringMember(d.value, "long_name", "_DATASET::long_name");
      if long.Err? { return Some(long.error); }
      longName := long.value;
      var default := StringMember(d.value, "default", "_DATASET::default");
      if default.Err? { return Some(default.error); }
      defaultVersion := default.value;
      var vs := StringArrayMember(j, "_VERSIONS");
      if vs.Err? { return Some(vs.error); }
      versions := vs.value;
      err := None;
    }

    function ToJson(): Json
      reads this
    {
      DatasetToJson(Record())
    }

    /** The index of the first entry equal to `version`, or -1 when there is none. */
    function FindVersion(version: string): (r: int)
      reads this
      ensures r == -1 <==> version !in versions
      ensures r != -1 ==> 0 <= r < |versions| && versions[r] == version && forall k :: 0 <= k < r ==> versions[k] != version
    {
      NameLists.FindIndex(versions, version)
    }

    method AddVersion(version: string)
      modifies this
      ensures Record() == old(Record()).(versions := old(versions) + [version])
    {
      versions := versions + [version];
    }

    method RemoveVersion(version: string)
      modifies this
      ensures Record() == old(Record()).(versions := NameLists.RemoveFirst(old(versions), version))
    {
      if version in versions {
        versions := NameLists.RemoveFirst(versions, version);
      }
      NameLists.RemoveFirstSpec(old(versions), version);
    }

    function NumVersions(): nat
      reads this
    {
      |versions|
    }
  }

  // ---------------------------------------------------------------- file

  function FileToJson(f: FileRecord): Json
  {
    JObject(map[
      "filename" := JString(f.filename),
      DigestKey := JString(f.digest),
      "format" := JString(f.format),
      "on_download" := JString(f.onDownload)])
  }

  /** Reloading a serialised file restores it exactly. */
  lemma FileRoundTrip(f: FileRecord)
    ensures LoadFile(FileToJson(f), DigestKey) == (f, None)
  {
  }

  class FileMD {
    var filename: string
    var digest: string
    var format: string
    var onDownload: string

    function Record(): FileRecord
      reads this
    {
      FileRecord(filename, digest, format, onDownload)
    }

    constructor ()
      ensures Record() == EmptyFile
    {
      filename, digest, format, onDownload := "", "", "", "";
    }

    method Clear()
      modifies this
      ensures Record() == EmptyFile
    {
      filename, digest, format, onDownload := "", "", "", "";
    }

    method FromJson(j: Json) returns (err: Option<MetaError>)
      modifies this
      ensures (Record(), err) == LoadFile(j, DigestKey)
    {
      Clear();
      var name := StringMember(j, "filename", "_FILES::filename");
      if name.Err? { return Some(name.error); }
      filename := name.value;
      var sum := StringMember(j, DigestKey, "_FILES::" + DigestKey);
      if sum.Err? { return Some(sum.error); }
      digest := sum.value;
      var fmt := StringMember(j, "format", "_FILES::format");
      if fmt.Err? { return Some(fmt.error); }
      format := fmt.value;
      var od := Member(j, "on_download");
      if od.Some? {
        if !od.value.JString? { return Some(NotString("_FILES::format")); }
        onDownload := od.value.str;
      }
      err := None;
    }

    function ToJson(): Json
      reads this
    {
      FileToJson(Record())
    }
  }

  // ---------------------------------------------------------------- version

  /** What a version load leaves: the three header strings (cleared first,
      then assigned as each passes), the files it appended, and the error. */
  datatype DataLoadOutcome = DataLoadOutcome(
    version: string, date: string, source: string, files: seq<FileRecord>, error: Option<MetaError>)

  function DataLoad(j: Json): (r: DataLoadOutcome)
    ensures r.error.None? ==>
      && Member(j, "_DATA").Some?
      && Member(Member(j, "_DATA").value, "version") == Some(JString(r.version))
      && Member(Member(j, "_DATA").value, "date") == Some(JString(r.date))
      && Member(Member(j, "_DATA").value, "source") == Some(JString(r.source))
      && Member(j, "_FILES").Some? && Member(j, "_FILES").value.JArray?
      && |r.files| == |Member(j, "_FILES").value.items|
  {
    match Member(j, "_DATA")
    case None => DataLoadOutcome("", "", "", [], Some(Missing("_DATA")))
    case Some(d) =>
      match StringMember(d, "version", "_DATA::version")
      case Err(e) => DataLoadOutcome("", "", "", [], Some(e))
      case Ok(version) =>
        match StringMember(d, "date", "_DATA::date")
        case Err(e) => DataLoadOutcome(version, "", "", [], Some(e))
        case Ok(date) =>
          match StringMember(d, "source", "_DATA::source")
          case Err(e) => DataLoadOutcome(version, date, "", [], Some(e))
          case Ok(source) =>
            var (files, e) := FilesMember(j, DigestKey);
            DataLoadOutcome(version, date, source, files, e)
  }

  /** `to_json`: the `_DATA` header and one object per file.  That the
      loader reads every field back is `DataRoundTrip`. */
  function DataToJson(d: DataRecord): Json
  {
    JObject(map[
      "_DATA" := JObject(map[
        "version" := JString(d.version),
        "date" := JString(d.date),
        "source" := JString(d.source)]),
      "_FILES" := JArray(FilesToJson(d.files))])
  }

  function FilesToJson(files: seq<FileRecord>): (r: seq<Json>)
    ensures |r| == |files|
    ensures forall i :: 0 <= i < |files| ==> r[i] == FileToJson(files[i])
  {
    seq(|files|, i requires 0 <= i < |files| => FileToJson(files[i]))
  }

  /** Reloading serialised files gives back the same files, in order. */
  lemma {:induction false} FilesRoundTrip(files: seq<FileRecord>)
    ensures LoadFiles(FilesToJson(files), DigestKey) == (files, None)
    decreases |files|
  {
    if files != [] {
      var items := FilesToJson(files);
      FileRoundTrip(files[0]);
      assert items[0] == FileToJson(files[0]);
      assert items[1..] == FilesToJson(files[1..]);
      FilesRoundTrip(files[1..]);
      assert files == [files[0]] + files[1..];
    }
  }

  /** Reloading a serialised version (into a fresh object) restores it exactly. */
  lemma DataRoundTrip(d: DataRecord)
    ensures DataLoad(DataToJson(d)) == DataLoadOutcome(d.version, d.date, d.source, d.files, None)
  {
    FilesRoundTrip(d.files);
  }

  /** A version descriptor with exactly the members the serialiser writes, and
      an `on_download` in every file. */
  predicate CanonicalData(j: Json)
  {
    && j.JObject? && j.fields.Keys == {"_DATA", "_FILES"}
    && j.fields["_DATA"].JObject? && j.fields["_DATA"].fields.Keys == {"version", "date", "source"}
    && j.fields["_FILES"].JArray?
    && forall i :: 0 <= i < |j.fields["_FILES"].items| ==>
         && j.fields["_FILES"].items[i].JObject?
         && j.fields["_FILES"].items[i].fields.Keys == {"filename", DigestKey, "format", "on_download"}
  }

  /** Serialising what was loaded from a canonical descriptor reproduces it. */
  lemma DataReproducesCanonical(j: Json)
    requires CanonicalData(j)
    requires DataLoad(j).error.None?
    ensures var o := DataLoad(j); DataToJson(DataRecord(o.version, o.date, o.source, o.files)) == j
  {
    var o := DataLoad(j);
    var items := j.fields["_FILES"].items;
    assert FilesMember(j, DigestKey) == LoadFiles(items, DigestKey);
    var out := FilesToJson(o.files);
    assert |out| == |items|;
    forall i | 0 <= i < |items| ensures out[i] == items[i] {
      LoadFilesPointwise(items, DigestKey, i);
      LoadFileAccepts(items[i], DigestKey);
      assert FileToJson(o.files[i]).fields == items[i].fields;
    }
    assert out == items;
    var d := j.fields["_DATA"];
    assert DataToJson(DataRecord(o.version, o.date, o.source, o.files)).fields["_DATA"].fields == d.fields;
    assert DataToJson(DataRecord(o.version, o.date, o.source, o.files)).fields == j.fields;
  }

  function ParseData(j: Json): Result<DataRecord, MetaError>
  {
    var o := DataLoad(j);
    if o.error.Some? then Err(o.error.value) else Ok(DataRecord(o.version, o.date, o.source, o.files))
  }

  class DataMD {
    var version: string
    var date: string
    var source: string
    var files: seq<FileRecord>

    function Record(): DataRecord
      reads this
    {
      DataRecord(version, date, source, files)
    }

    constructor ()
      ensures Record() == DataRecord("", "", "", [])
    {
      version, date, source := "", "", "";
      files := [];
    }

    /** Resets the three header strings only; the file list is kept. */
    method Clear()
      modifies this
      ensures Record() == DataRecord("", "", "", old(files))
    {
      version, date, source := "", "", "";
    }

    /** Loads a version descriptor.  The files are appended to those already
        held, because `clear` does not reset the list. */
    method FromJson(j: Json) returns (err: Option<MetaError>)
      modifies this
      ensures var o := DataLoad(j);
        && (version, date, source) == (o.version, o.date, o.source)
        && files == old(files) + o.files
        && err == o.error
    {
      Clear();
      var d := Member(j, "_DATA");
      if d.None? { return Some(Missing("_DATA")); }
      var v := StringMember(d.value, "version", "_DATA::version");
      if v.Err? { return Some(v.error); }
      version := v.value;
      var dt := StringMember(d.value, "date", "_DATA::date");
      if dt.Err? { return Some(dt.error); }
      date := dt.value;
      var src := StringMember(d.value, "source", "_DATA::source");
      if src.Err? { return Some(src.error); }
      source := src.value;
      var fm := Member(j, "_FILES");
      if fm.None? { return Some(Missing("_FILES")); }
      if !fm.value.JArray? { return Some(NotArray("_FILES")); }
      var items := fm.value.items;
      ghost var loaded := LoadFiles(items, DigestKey);
      var i := 0;
      while i < |items|
        invariant 0 <= i <= |items| && i <= |loaded.0|
        invariant files == old(files) + loaded.0[..i]
        invariant (version, date, source) == (v.value, dt.value, src.value)
      {
        LoadFilesAt(items, DigestKey, i);
        if !items[i].JObject? {
          return Some(NotObjectArray("_FILES"));
        }
        var f := new FileMD();
        var e := f.FromJson(items[i]);
        if e.Some? {
          return e;
        }
        files := files + [f.Record()];
        assert loaded.0[..i + 1] == loaded.0[..i] + [loaded.0[i]];
        i := i + 1;
      }
      LoadFilesAt(items, DigestKey, i);
      err := None;
    }

    function ToJson(): Json
      reads this
    {
      DataToJson(Record())
    }

    function NumFiles(): nat
      reads this
    {
      |files|
    }
  }
}
