/** The C++ descriptor classes.  Their loaders differ from the Python ones in
    three ways: they never clear first (a field keeps its old value until the
    check that assigns it passes), they append list elements one at a time to
    whatever the list already holds (so a bad element leaves the good ones
    before it appended), and the file digest member is "MD5sum". */
module CppMetadata {
  import opened Results
  import opened Json
  import opened Records
  import NameLists

  const RepoType := "autodataman"
  const DigestKey := "MD5sum"

  /** `s` if the loader reached the assignment, else the field's old value. */
  function Assigned(s: Option<string>, prior: string): string
  {
    if s.Some? then s.value else prior
  }

  // ---------------------------------------------------------------- repository

  /** The version string a repository load assigns, the names it appends and
      the error that stopped it. */
  datatype RepoLoadOutcome = RepoLoadOutcome(version: Option<string>, appended: seq<string>, error: Option<MetaError>)

  /** The element loop's result: the leading strings, and an error if an item
      that is not a string stopped it. */
  function AppendStrings(items: seq<Json>, key: string): (seq<string>, Option<MetaError>)
  {
    (StringPrefix(items), if AllStrings(items) then None else Some(NotStringArray(key)))
  }

  function RepoLoad(j: Json): (r: RepoLoadOutcome)
    ensures r.version.Some? ==>
      && Member(j, "_REPO").Some? && Member(Member(j, "_REPO").value, "type") == Some(JString(RepoType))
      && Member(Member(j, "_REPO").value, "version") == Some(JString(r.version.value))
    ensures r.version.None? ==> r.error.Some? && r.appended == []
  {
    match Member(j, "_REPO")
    case None => RepoLoadOutcome(None, [], Some(Missing("_REPO")))
    case Some(repo) =>
      match Member(repo, "type")
      case None => RepoLoadOutcome(None, [], Some(Missing("_REPO::type")))
      case Some(t) =>
        if t != JString(RepoType) then RepoLoadOutcome(None, [], Some(BadRepoType))
        else
          match StringMember(repo, "version", "_REPO::version")
          case Err(e) => RepoLoadOutcome(None, [], Some(e))
          case Ok(v) =>
            match Member(j, "_DATASETS")
            case None => RepoLoadOutcome(Some(v), [], Some(Missing("_DATASETS")))
            case Some(ds) =>
              if !ds.JArray? then RepoLoadOutcome(Some(v), [], Some(NotArray("_DATASETS")))
              else
                var (names, e) := AppendStrings(ds.items, "_DATASETS");
                RepoLoadOutcome(Some(v), names, e)
  }

  /** A successful repository load appends every entry of `_DATASETS`, in
      order; a failed one appends the entries before the first non-string. */
  lemma RepoLoadAppends(j: Json)
    ensures var o := RepoLoad(j);
      o.error.None? ==> Member(j, "_DATASETS") == Some(JArray(StringArray(o.appended)))
    ensures var o := RepoLoad(j);
      o.error == Some(NotStringArray("_DATASETS")) ==>
        var items := Member(j, "_DATASETS").value.items;
        |o.appended| < |items| && items[..|o.appended|] == StringArray(o.appended) && !items[|o.appended|].JString?
  {
    var o := RepoLoad(j);
    if o.error.None? {
      var items := Member(j, "_DATASETS").value.items;
      assert items == StringArray(o.appended);
    } else if o.error == Some(NotStringArray("_DATASETS")) {
      var items := Member(j, "_DATASETS").value.items;
      assert items[..|o.appended|] == StringArray(o.appended);
    }
  }

  class RepoMD {
    var version: string
    var datasetNames: seq<string>

    method Clear()
      modifies this
      ensures version == "" && datasetNames == []
    {
      version := "";
      datasetNames := [];
    }

    method FromJson(j: Json) returns (err: Option<MetaError>)
      modifies this
      ensures var o := RepoLoad(j);
        && version == Assigned(o.version, old(version))
        && datasetNames == old(datasetNames) + o.appended
        && err == o.error
    {
      var repo := Member(j, "_REPO");
      if repo.None? { return Some(Missing("_REPO")); }
      var t := Member(repo.value, "type");
      if t.None? { return Some(Missing("_REPO::type")); }
      if t.value != JString(RepoType) { return Some(BadRepoType); }
      var v := StringMember(repo.value, "version", "_REPO::version");
      if v.Err? { return Some(v.error); }
      version := v.value;
      var ds := Member(j, "_DATASETS");
      if ds.None? { return Some(Missing("_DATASETS")); }
      if !ds.value.JArray? { return Some(NotArray("_DATASETS")); }
      var items := ds.value.items;
      ghost var prefix := StringPrefix(items);
      var s := 0;
      while s < |items|
        invariant 0 <= s <= |items| && s <= |prefix|
        invariant forall k :: 0 <= k < s ==> items[k].JString?
        invariant datasetNames == old(datasetNames) + prefix[..s]
        invariant version == v.value
      {
        if !items[s].JString? {
          assert prefix[..s] == prefix;
          return Some(NotStringArray("_DATASETS"));
        }
        datasetNames := datasetNames + [items[s].str];
        assert prefix[..s + 1] == prefix[..s] + [prefix[s]];
        s := s + 1;
      }
      assert prefix[..s] == prefix;
      err := None;
    }

    /** The index of the first entry equal to `name`, or -1 when there is none. */
    function FindDataset(name: string): (r: int)
      reads this
      ensures r == -1 <==> name !in datasetNames
      ensures r != -1 ==> 0 <= r < |datasetNames| && datasetNames[r] == name && forall k :: 0 <= k < r ==> datasetNames[k] != name
    {
      NameLists.FindIndex(datasetNames, name)
    }
  }

  // ---------------------------------------------------------------- dataset

  /** The fields a dataset load assigns (none for `source`), the versions it
      appends and the error that stopped it. */
  datatype DatasetLoadOutcome = DatasetLoadOutcome(
    shortName: Option<string>, longName: Option<string>, defaultVersion: Option<string>,
    appended: seq<string>, error: Option<MetaError>)

  function DatasetLoad(j: Json): (r: DatasetLoadOutcome)
    ensures r.shortName.Some? ==> Member(j, "_DATASET").Some? && Member(Member(j, "_DATASET").value, "short_name") == Some(JString(r.shortName.value))
    ensures r.longName.Some? ==> r.shortName.Some? && Member(Member(j, "_DATASET").value, "long_name") == Some(JString(r.longName.value))
    ensures r.defaultVersion.Some? ==> r.longName.Some? && Member(Member(j, "_DATASET").value, "default") == Some(JString(r.defaultVersion.value))
    ensures r.error.None? ==>
      && r.defaultVersion.Some? && Member(j, "_VERSIONS").Some? && Member(j, "_VERSIONS").value.JArray?
      && |r.appended| == |Member(j, "_VERSIONS").value.items|
    ensures r.appended != [] ==>
      && Member(j, "_VERSIONS").Some? && Member(j, "_VERSIONS").value.JArray?
      && |r.appended| <= |Member(j, "_VERSIONS").value.items|
      && forall i :: 0 <= i < |r.appended| ==> Member(j, "_VERSIONS").value.items[i] == JString(r.appended[i])
  {
    match Member(j, "_DATASET")
    case None => DatasetLoadOutcome(None, None, None, [], Some(Missing("_DATASET")))
    case Some(d) =>
      match StringMember(d, "short_name", "_DATASET::short_name")
      case Err(e) => DatasetLoadOutcome(None, None, None, [], Some(e))
      case Ok(short) =>
        match StringMember(d, "long_name", "_DATASET::long_name")
        case Err(e) => DatasetLoadOutcome(Some(short), None, None, [], Some(e))
        case Ok(long) =>
          match StringMember(d, "default", "_DATASET::default")
          case Err(e) => DatasetLoadOutcome(Some(short), Some(long), None, [], Some(e))
          case Ok(default) =>
            match Member(j, "_VERSIONS")
            case None => DatasetLoadOutcome(Some(short), Some(long), Some(default), [], Some(Missing("_VERSIONS")))
            case Some(vs) =>
              if !vs.JArray? then DatasetLoadOutcome(Some(short), Some(long), Some(default), [], Some(NotArray("_VERSIONS")))
              else
                var (versions, e) := AppendStrings(vs.items, "_VERSIONS");
                DatasetLoadOutcome(Some(short), Some(long), Some(default), versions, e)
  }

  class DatasetMD {
    var shortName: string
    var longName: string
    var source: string
    var defaultVersion: string
    var versions: seq<string>

    function Record(): DatasetRecord
      reads this
    {
      DatasetRecord(shortName, longName, source, defaultVersion, versions)
    }

    method Clear()
      modifies this
      ensures Record() == EmptyDataset
    {
      shortName, longName, source, defaultVersion := "", "", "", "";
      versions := [];
    }

    /** Loads a dataset descriptor over the current fields; `source` is never
        assigned. */
    method FromJson(j: Json) returns (err: Option<MetaError>)
      modifies this
      ensures var o := DatasetLoad(j);
        && shortName == Assigned(o.shortName, old(shortName))
        && longName == Assigned(o.longName, old(longName))
        && defaultVersion == Assigned(o.defaultVersion, old(defaultVersion))
        && source == old(source)
        && versions == old(versions) + o.appended
        && err == o.error
    {
      var d := Member(j, "_DATASET");
      if d.None? { return Some(Missing("_DATASET")); }
      var short := StringMember(d.value, "short_name", "_DATASET::short_name");
      if short.Err? { return Some(short.error); }
      shortName := short.value;
      var long := StringMember(d.value, "long_name", "_DATASET::long_name");
      if long.Err? { return Some(long.error); }
      longName := long.value;
      var default := StringMember(d.value, "default", "_DATASET::default");
      if default.Err? { return Some(default.error); }
      defaultVersion := default.value;
      var vs := Member(j, "_VERSIONS");
      if vs.None? { return Some(Missing("_VERSIONS")); }
      if !vs.value.JArray? { return Some(NotArray("_VERSIONS")); }
      var items := vs.value.items;
      ghost var prefix := StringPrefix(items);
      var s := 0;
      while s < |items|
        invariant 0 <= s <= |items| && s <= |prefix|
        invariant forall k :: 0 <= k < s ==> items[k].JString?
        invariant versions == old(versions) + prefix[..s]
        invariant shortName == short.value && longName == long.value && defaultVersion == default.value
        invariant source == old(source)
      {
        if !items[s].JString? {
          assert prefix[..s] == prefix;
          return Some(NotStringArray("_VERSIONS"));
        }
        versions := versions + [items[s].str];
        assert prefix[..s + 1] == prefix[..s] + [prefix[s]];
        s := s + 1;
      }
      assert prefix[..s] == prefix;
      err := None;
    }

    /** The index of the first entry equal to `version`, or -1 when there is none. */
    function FindVersion(version: string): (r: int)
      reads this
      ensures r == -1 <==> version !in versions
      ensures r != -1 ==> 0 <= r < |versions| && versions[r] == version && forall k :: 0 <= k < r ==> versions[k] != version
    {
      NameLists.FindIndex(versions, version)
    }
  }

  // ---------------------------------------------------------------- file

  /** The fields a file load assigns over `prior`: each required string once
      its check passes, `on_download` only when present and a string. */
  function FileOverlay(prior: FileRecord, j: Json): FileRecord
  {
    match StringMember(j, "filename", "_FILES::filename")
    case Err(_) => prior
    case Ok(name) =>
      match StringMember(j, DigestKey, "_FILES::" + DigestKey)
      case Err(_) => prior.(filename := name)
      case Ok(digest) =>
        match StringMember(j, "format", "_FILES::format")
        case Err(_) => prior.(filename := name, digest := digest)
        case Ok(format) =>
          var f := prior.(filename := name, digest := digest, format := format);
          match Member(j, "on_download")
          case Some(JString(od)) => f.(onDownload := od)
          case _ => f
  }

  /** On a freshly constructed file object the overlay is the shared file load. */
  lemma FreshFileOverlay(j: Json)
    ensures FileOverlay(EmptyFile, j) == LoadFile(j, DigestKey).0
  {
  }

  class FileMD {
    var filename: string
    var digest: string
    var format: string
    var onDownload: string

    function Record(): FileRecord
      reads this
    {
      FileRecord(filename, digest, format, onDownload)
    }

    constructor ()
      ensures Record() == EmptyFile
    {
      filename, digest, format, onDownload := "", "", "", "";
    }

    method FromJson(j: Json) returns (err: Option<MetaError>)
      modifies this
      ensures Record() == FileOverlay(old(Record()), j)
      ensures err == LoadFile(j, DigestKey).1
    {
      var name := StringMember(j, "filename", "_FILES::filename");
      if name.Err? { return Some(name.error); }
      filename := name.value;
      var sum := StringMember(j, DigestKey, "_FILES::" + DigestKey);
      if sum.Err? { return Some(sum.error); }
      digest := sum.value;
      var fmt := StringMember(j, "format", "_FILES::format");
      if fmt.Err? { return Some(fmt.error); }
      format := fmt.value;
      var od := Member(j, "on_download");
      if od.Some? {
        if !od.value.JString? { return Some(NotString("_FILES::format")); }
        onDownload := od.value.str;
      }
      err := None;
    }

    /** `operator==`: the four fields compared one by one, which is equality
        of the files they describe. */
    predicate Equals(other: FileMD)
      reads this, other
      ensures Equals(other) <==> Record() == other.Record()
    {
      FileEqual(Record(), other.Record())
    }
  }

  // ---------------------------------------------------------------- version

  datatype DataLoadOutcome = DataLoadOutcome(
    version: Option<string>, date: Option<string>, source: Option<string>,
    appended: seq<FileRecord>, error: Option<MetaError>)

  function DataLoad(j: Json): (r: DataLoadOutcome)
    ensures r.version.Some? ==> Member(j, "_DATA").Some? && Member(Member(j, "_DATA").value, "version") == Some(JString(r.version.value))
    ensures r.date.Some? ==> r.version.Some? && Member(Member(j, "_DATA").value, "date") == Some(JString(r.date.value))
    ensures r.source.Some? ==> r.date.Some? && Member(Member(j, "_DATA").value, "source") == Some(JString(r.source.value))
    ensures r.error.None? ==>
      && r.source.Some? && Member(j, "_FILES").Some? && Member(j, "_FILES").value.JArray?
      && |r.appended| == |Member(j, "_FILES").value.items|
  {
    match Member(j, "_DATA")
    case None => DataLoadOutcome(None, None, None, [], Some(Missing("_DATA")))
    case Some(d) =>
      match StringMember(d, "version", "_DATA::version")
      case Err(e) => DataLoadOutcome(None, None, None, [], Some(e))
      case Ok(version) =>
        match StringMember(d, "date", "_DATA::date")
        case Err(e) => DataLoadOutcome(Some(version), None, None, [], Some(e))
        case Ok(date) =>
          match StringMember(d, "source", "_DATA::source")
          case Err(e) => DataLoadOutcome(Some(version), Some(date), None, [], Some(e))
          case Ok(source) =>
            var (files, e) := FilesMember(j, DigestKey);
            DataLoadOutcome(Some(version), Some(date), Some(source), files, e)
  }

  class DataMD {
    var version: string
    var date: string
    var source: string
    var files: seq<FileRecord>

    function Record(): DataRecord
      reads this
    {
      DataRecord(version, date, source, files)
    }

    /** Resets the three header strings only; the file list is kept. */
    method Clear()
      modifies this
      ensures Record() == DataRecord("", "", "", old(files))
    {
      version, date, source := "", "", "";
    }

    method FromJson(j: Json) returns (err: Option<MetaError>)
      modifies this
      ensures var o := DataLoad(j);
        && version == Assigned(o.version, old(version))
        && date == Assigned(o.date, old(date))
        && source == Assigned(o.source, old(source))
        && files == old(files) + o.appended
        && err == o.error
    {
      var d := Member(j, "_DATA");
      if d.None? { return Some(Missing("_DATA")); }
      var v := StringMember(d.value, "version", "_DATA::version");
      if v.Err? { return Some(v.error); }
      version := v.value;
      var dt := StringMember(d.value, "date", "_DATA::date");
      if dt.Err? { return Some(dt.error); }
      date := dt.value;
      var src := StringMember(d.value, "source", "_DATA::source");
      if src.Err? { return Some(src.error); }
      source := src.value;
      var fm := Member(j, "_FILES");
      if fm.None? { return Some(Missing("_FILES")); }
      if !fm.value.JArray? { return Some(NotArray("_FILES")); }
      var items := fm.value.items;
      ghost var loaded := LoadFiles(items, DigestKey);
      var s := 0;
      while s < |items|
        invariant 0 <= s <= |items| && s <= |loaded.0|
        invariant files == old(files) + loaded.0[..s]
        invariant (version, date, source) == (v.value, dt.value, src.value)
      {
        LoadFilesAt(items, DigestKey, s);
        if !items[s].JObject? {
          return Some(NotObjectArray("_FILES"));
        }
        var f := new FileMD();
        var e := f.FromJson(items[s]);
        if e.Some? {
          return e;
        }
        FreshFileOverlay(items[s]);
        files := files + [f.Record()];
        assert loaded.0[..s + 1] == loaded.0[..s] + [loaded.0[s]];
        s := s + 1;
      }
      LoadFilesAt(items, DigestKey, s);
      err := None;
    }

    /** `operator==`: equal file counts, pairwise equal files, equal header;
        it holds exactly when the two versions have the same record. */
    predicate Equals(other: DataMD)
      reads this, other
      ensures Equals(other) <==> Record() == other.Record()
    {
      DataEqual(Record(), other.Record())
    }
  }
}
