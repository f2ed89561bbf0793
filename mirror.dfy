/** The layout of a local mirror and the reads of its descriptors:
    `repo.json` at the root, `<name>/dataset.json` per dataset,
    `<name>/<version>/data.json` per version, and `<name>/<version>.part` as
    the staging directory of an overwrite. */
module Mirror {
  import opened Results
  import opened Json
  import opened Records
  import opened FileTree
  import PyMetadata

  const RepoJson: Path := ["repo.json"]

  function DatasetDir(name: string): Path
  {
    [name]
  }

  function DatasetJson(name: string): Path
  {
    [name, "dataset.json"]
  }

  function VersionDir(name: string, version: string): Path
  {
    [name, version]
  }

  /** Where an overwrite downloads before replacing the version directory. */
  function PartDir(name: string, version: string): Path
  {
    [name, version + ".part"]
  }

  function DataJson(dir: Path): Path
  {
    dir + ["data.json"]
  }

  /** The staging directory, the version directory and the dataset
      descriptor are three distinct places inside the dataset directory, none
      below another, unless the version is itself named "dataset.json"; the
      dataset directory holds the repository descriptor only when the dataset
      is named "repo.json". */
  lemma LayoutDisjoint(name: string, version: string)
    ensures var v, p, d := VersionDir(name, version), PartDir(name, version), DatasetJson(name);
      && !Under(v, p) && !Under(p, v) && !Under(p, d) && !Under(d, p)
      && (Under(v, d) || Under(d, v) <==> version == "dataset.json")
      && Parent(v) == Parent(p) == Parent(d) == DatasetDir(name)
      && (Under(DatasetDir(name), RepoJson) <==> name == "repo.json")
  {
    var v, p, d := VersionDir(name, version), PartDir(name, version), DatasetJson(name);
    assert |version + ".part"| > |version|;
    assert v[..2] == v && p[..2] == p && d[..2] == d;
    assert p != d by {
      assert "dataset.json"[7..] != ".part";
      if |version + ".part"| == |"dataset.json"| {
        assert (version + ".part")[7..] == ".part";
      }
    }
    assert RepoJson[..1] == RepoJson;
  }

  /** Why reading a local descriptor raised. */
  datatype LocalError = Unreadable(fsError: FsError) | Malformed(metaError: MetaError)

  /** `from_local_repo` of the repository descriptor, into a fresh object. */
  function LocalRepo(fs: Fs): (r: Result<seq<string>, LocalError>)
    ensures (r.Err? && r.error.Unreadable?) <==> !(RepoJson in fs.nodes && fs.nodes[RepoJson].Document?)
    ensures r.Ok? ==> Member(fs.nodes[RepoJson].doc, "_DATASETS") == Some(JArray(StringArray(r.value)))
  {
    match ReadDocument(fs, RepoJson)
    case Err(e) => Err(Unreadable(e))
    case Ok(j) =>
      match PyMetadata.ParseRepo(j)
      case Err(e) => Err(Malformed(e))
      case Ok(names) => Ok(names)
  }

  function LocalDataset(fs: Fs, name: string): (r: Result<DatasetRecord, LocalError>)
    ensures (r.Err? && r.error.Unreadable?) <==> !(DatasetJson(name) in fs.nodes && fs.nodes[DatasetJson(name)].Document?)
    ensures r.Ok? ==> r.value.source == "" && Member(fs.nodes[DatasetJson(name)].doc, "_VERSIONS") == Some(JArray(StringArray(r.value.versions)))
  {
    match ReadDocument(fs, DatasetJson(name))
    case Err(e) => Err(Unreadable(e))
    case Ok(j) =>
      match PyMetadata.ParseDataset(j)
      case Err(e) => Err(Malformed(e))
      case Ok(d) => Ok(d)
  }

  function LocalData(fs: Fs, name: string, version: string): (r: Result<DataRecord, LocalError>)
    ensures var p := DataJson(VersionDir(name, version));
      (r.Err? && r.error.Unreadable?) <==> !(p in fs.nodes && fs.nodes[p].Document?)
    ensures var p := DataJson(VersionDir(name, version));
      r.Ok? ==> && Member(fs.nodes[p].doc, "_FILES").Some? && Member(fs.nodes[p].doc, "_FILES").value.JArray?
                && |r.value.files| == |Member(fs.nodes[p].doc, "_FILES").value.items|
  {
    match ReadDocument(fs, DataJson(VersionDir(name, version)))
    case Err(e) => Err(Unreadable(e))
    case Ok(j) =>
      match PyMetadata.ParseData(j)
      case Err(e) => Err(Malformed(e))
      case Ok(d) => Ok(d)
  }

  /** A repository descriptor the engine writes reads back as the same list. */
  lemma LocalRepoAfterWrite(fs: Fs, names: seq<string>)
    requires WriteFile(fs, RepoJson, Document(PyMetadata.RepoToJson(names))).Ok?
    ensures LocalRepo(WriteFile(fs, RepoJson, Document(PyMetadata.RepoToJson(names))).value) == Ok(names)
  {
    PyMetadata.RepoRoundTrip(names);
  }

  /** A dataset descriptor the engine writes reads back with an empty source. */
  lemma LocalDatasetAfterWrite(fs: Fs, name: string, d: DatasetRecord)
    requires WriteFile(fs, DatasetJson(name), Document(PyMetadata.DatasetToJson(d))).Ok?
    ensures LocalDataset(WriteFile(fs, DatasetJson(name), Document(PyMetadata.DatasetToJson(d))).value, name)
      == Ok(d.(source := ""))
  {
    PyMetadata.DatasetRoundTrip(d);
  }

  /** `AutodatamanRepoMD().from_local_repo`: a fresh repository object
      loaded from `repo.json`. */
  method ReadRepo(fs: Fs) returns (md: PyMetadata.RepoMD, err: Option<LocalError>)
    ensures fresh(md)
    ensures err.None? <==> LocalRepo(fs).Ok?
    ensures err.None? ==> md.datasetNames == LocalRepo(fs).value
    ensures err.Some? ==> err.value == LocalRepo(fs).error
  {
    md := new PyMetadata.RepoMD();
    var j := ReadDocument(fs, RepoJson);
    if j.Err? {
      return md, Some(Unreadable(j.error));
    }
    var e := md.FromJson(j.value);
    if e.Some? {
      return md, Some(Malformed(e.value));
    }
    err := None;
  }

  /** `AutodatamanRepoDatasetMD().from_local_repo` for one dataset. */
  method ReadDataset(fs: Fs, name: string) returns (md: PyMetadata.DatasetMD, err: Option<LocalError>)
    ensures fresh(md)
    ensures err.None? <==> LocalDataset(fs, name).Ok?
    ensures err.None? ==> md.Record() == LocalDataset(fs, name).value
    ensures err.Some? ==> err.value == LocalDataset(fs, name).error
  {
    md := new PyMetadata.DatasetMD();
    var j := ReadDocument(fs, DatasetJson(name));
    if j.Err? {
      return md, Some(Unreadable(j.error));
    }
    var e := md.FromJson(j.value);
    if e.Some? {
      return md, Some(Malformed(e.value));
    }
    err := None;
  }

  /** `AutodatamanRepoDataMD().from_local_repo` for one version. */
  method ReadData(fs: Fs, name: string, version: string) returns (md: PyMetadata.DataMD, err: Option<LocalError>)
    ensures fresh(md)
    ensures err.None? <==> LocalData(fs, name, version).Ok?
    ensures err.None? ==> md.Record() == LocalData(fs, name, version).value
    ensures err.Some? ==> err.value == LocalData(fs, name, version).error
  {
    md := new PyMetadata.DataMD();
    var j := ReadDocument(fs, DataJson(VersionDir(name, version)));
    if j.Err? {
      return md, Some(Unreadable(j.error));
    }
    var e := md.FromJson(j.value);
    if e.Some? {
      return md, Some(Malformed(e.value));
    }
    err := None;
  }
}
