/** `adm_remove`: delete a whole dataset or one version of it from the local
    mirror, then rewrite the descriptor that listed it. */
module RemoveEngine {
  import opened Results
  import opened Json
  import opened Records
  import opened FileTree
  import opened Mirror
  import NameLists
  import Specifier
  import PyMetadata

  /** Why `adm_remove` raised.  `Danger` is the error of the final descriptor
      write, raised after the directory is already gone. */
  datatype RemoveError =
    | MissingRepoPath
    | MissingDatasetName
    | BadSpecifier(specifierError: Specifier.SpecifierError)
    | InvalidRepoName
    | LocalRead(localError: LocalError)
    | DatasetDirMissing
    | DatasetNotADirectory
    | Ambiguous(versionCount: nat)
    | VersionDirMissing
    | VersionNotADirectory
    | Danger(writeError: FsError)

  /** The tree after removing the dataset directory and writing `repo.json`
      without the dataset. */
  ghost predicate RemovedDataset(before: Fs, after: Fs, name: string, names: seq<string>)
  {
    forall q :: Lookup(after, q) ==
      if q == RepoJson then Some(Document(PyMetadata.RepoToJson(NameLists.RemoveFirst(names, name))))
      else if Under(DatasetDir(name), q) then None
      else Lookup(before, q)
  }

  /** The tree after removing one version directory and writing
      `dataset.json` without the version. */
  ghost predicate RemovedVersion(before: Fs, after: Fs, name: string, version: string, d: DatasetRecord)
  {
    forall q :: Lookup(after, q) ==
      if q == DatasetJson(name) then
        Some(Document(PyMetadata.DatasetToJson(d.(versions := NameLists.RemoveFirst(d.versions, version)))))
      else if Under(VersionDir(name, version), q) then None
      else Lookup(before, q)
  }

  /** The directory `adm_remove` deletes for a dataset and version name: the
      whole dataset when no version is named. */
  function Removed(nv: (string, string)): Path
  {
    if nv.1 == "" then DatasetDir(nv.0) else VersionDir(nv.0, nv.1)
  }

  /** Everything `adm_remove` checks before it deletes anything, in order;
      `None` when every check passes. */
  function Precheck(repoPath: string, token: string, removeAll: bool, fs: Fs): (r: Option<RemoveError>)
    ensures r.None? ==>
      && |repoPath| >= 2 && Specifier.NameVersion(token).Ok?
      && var (name, version) := Specifier.NameVersion(token).value;
      && LocalRepo(fs).Ok? && IsDir(fs, DatasetDir(name)) && LocalDataset(fs, name).Ok?
      && (version == "" ==> removeAll || |LocalDataset(fs, name).value.versions| <= 1)
      && (version != "" ==> IsDir(fs, VersionDir(name, version)))
  {
    if |repoPath| == 0 then Some(MissingRepoPath)
    else if |token| == 0 then Some(MissingDatasetName)
    else match Specifier.NameVersion(token)
      case Err(e) => Some(BadSpecifier(e))
      case Ok((name, version)) =>
        if |repoPath| < 2 then Some(InvalidRepoName)
        else if LocalRepo(fs).Err? then Some(LocalRead(LocalRepo(fs).error))
        else if DatasetDir(name) !in fs.nodes then Some(DatasetDirMissing)
        else if !IsDir(fs, DatasetDir(name)) then Some(DatasetNotADirectory)
        else if LocalDataset(fs, name).Err? then Some(LocalRead(LocalDataset(fs, name).error))
        else
          var n := |LocalDataset(fs, name).value.versions|;
          if version == "" then
            if n >= 2 && !removeAll then Some(Ambiguous(n)) else None
          else if VersionDir(name, version) !in fs.nodes then Some(VersionDirMissing)
          else if !IsDir(fs, VersionDir(name, version)) then Some(VersionNotADirectory)
          else None
  }

  /** With no version named and two or more versions present, removal needs
      `-a`; with none or one it removes the whole dataset unasked.  A named
      version is not looked up in the dataset descriptor: only its directory
      has to exist. */
  lemma PrecheckGuards(repoPath: string, token: string, removeAll: bool, fs: Fs)
    requires |repoPath| >= 2 && |token| >= 1 && Specifier.NameVersion(token).Ok?
    requires var name := Specifier.NameVersion(token).value.0;
      LocalRepo(fs).Ok? && IsDir(fs, DatasetDir(name)) && LocalDataset(fs, name).Ok?
    ensures var (name, version) := Specifier.NameVersion(token).value;
      var n := |LocalDataset(fs, name).value.versions|;
      && (version == "" ==> (Precheck(repoPath, token, removeAll, fs).None? <==> removeAll || n <= 1))
      && (version != "" ==> (Precheck(repoPath, token, removeAll, fs).None? <==> IsDir(fs, VersionDir(name, version))))
  {
  }

  /** Once the checks pass, the removal succeeds and the descriptor that
      listed the removed directory can be written back, unless that
      descriptor is `repo.json` and the root is not a directory: a version's
      directory is never `dataset.json`, nor the dataset's `repo.json`, since
      one is read as a document and the other checked to be a directory. */
  lemma RewriteAfterRemoval(fs: Fs, name: string, version: string, doc: Json)
    requires LocalRepo(fs).Ok? && IsDir(fs, DatasetDir(name)) && LocalDataset(fs, name).Ok?
    requires version != "" ==> IsDir(fs, VersionDir(name, version))
    ensures var target := Removed((name, version));
      var descriptor := if version == "" then RepoJson else DatasetJson(name);
      && Rmtree(fs, target).Ok?
      && (WriteFile(Rmtree(fs, target).value, descriptor, Document(doc)).Ok? <==> version != "" || IsDir(fs, []))
  {
    LayoutDisjoint(name, version);
    RmtreeSpec(fs, Removed((name, version)));
  }

  /** `adm_remove`.  Nothing changes unless every check passes; then either
      the dataset directory goes and `repo.json` drops the dataset, or the
      version directory goes and `dataset.json` drops the version (written
      back with an empty `source`, which the loader never reads). */
  method AdmRemove(repoPath: string, token: string, removeAll: bool, fs: Fs) returns (err: Option<RemoveError>, after: Fs)
    ensures Precheck(repoPath, token, removeAll, fs).Some? ==>
      err == Precheck(repoPath, token, removeAll, fs) && after == fs
    ensures err.Some? && !err.value.Danger? ==> after == fs
    ensures err.Some? && err.value.Danger? ==>
      && Specifier.NameVersion(token).Ok?
      && Rmtree(fs, Removed(Specifier.NameVersion(token).value)) == Ok(after)
    ensures err.None? || err.value.Danger? ==> Precheck(repoPath, token, removeAll, fs).None?
    ensures Precheck(repoPath, token, removeAll, fs).None? ==> err.None? || err.value.Danger?
    ensures err.None? <==>
      && Precheck(repoPath, token, removeAll, fs).None?
      && (Specifier.NameVersion(token).value.1 != "" || IsDir(fs, []))
    ensures err.None? ==>
      var (name, version) := Specifier.NameVersion(token).value;
      if version == "" then RemovedDataset(fs, after, name, LocalRepo(fs).value)
      else RemovedVersion(fs, after, name, version, LocalDataset(fs, name).value)
  {
    after := fs;
    if |repoPath| == 0 {
      return Some(MissingRepoPath), fs;
    }
    if |token| == 0 {
      return Some(MissingDatasetName), fs;
    }
    var nv := Specifier.NameVersion(token);
    if nv.Err? {
      return Some(BadSpecifier(nv.error)), fs;
    }
    var name, version := nv.value.0, nv.value.1;
    if |repoPath| < 2 {
      return Some(InvalidRepoName), fs;
    }
    var repo, e := ReadRepo(fs);
    if e.Some? {
      return Some(LocalRead(e.value)), fs;
    }
    // The source compares the dataset's index with None, which an integer
    // index never is: an unlisted dataset is not reported.
    var datasetDir := DatasetDir(name);
    if datasetDir !in fs.nodes {
      return Some(DatasetDirMissing), fs;
    }
    if !IsDir(fs, datasetDir) {
      return Some(DatasetNotADirectory), fs;
    }
    var dataset, e2 := ReadDataset(fs, name);
    if e2.Some? {
      return Some(LocalRead(e2.value)), fs;
    }
    var target: Path;
    var removeWhole := removeAll;
    if version == "" {
      if |dataset.versions| == 0 {
        removeWhole := true;
      }
      if |dataset.versions| == 1 {
        removeWhole := true;
      }
      if !removeWhole {
        return Some(Ambiguous(|dataset.versions|)), fs;
      }
      repo.RemoveDataset(name);
      target := datasetDir;
    } else {
      // As above, the version's index is compared with None: an unlisted
      // version is not reported, and its directory is removed if present.
      dataset.RemoveVersion(version);
      target := VersionDir(name, version);
      if target !in fs.nodes {
        return Some(VersionDirMissing), fs;
      }
      if !IsDir(fs, target) {
        return Some(VersionNotADirectory), fs;
      }
    }
    var failed;
    if version == "" {
      failed, after := RemoveAndRewrite(fs, target, RepoJson, repo.ToJson());
    } else {
      failed, after := RemoveAndRewrite(fs, target, DatasetJson(name), dataset.ToJson());
    }
    RewriteAfterRemoval(fs, name, version, if version == "" then repo.ToJson() else dataset.ToJson());
    if failed.Some? {
      assert target == Removed(nv.value);
      return Some(Danger(failed.value)), after;
    }
    err := None;
  }

  /** The last two steps of `adm_remove`: `shutil.rmtree` of the directory,
      then the descriptor written back.  A failed write leaves the tree as
      the removal left it. */
  method RemoveAndRewrite(fs: Fs, target: Path, descriptor: Path, doc: Json) returns (failed: Option<FsError>, after: Fs)
    requires IsDir(fs, target)
    ensures failed.None? <==> WriteFile(Rmtree(fs, target).value, descriptor, Document(doc)).Ok?
    ensures failed.Some? ==> Rmtree(fs, target) == Ok(after)
    ensures failed.None? ==>
      forall q :: Lookup(after, q) ==
        if q == descriptor then Some(Document(doc))
        else if Under(target, q) then None
        else Lookup(fs, q)
  {
    var removed := Rmtree(fs, target);
    RmtreeSpec(fs, target);
    var written := WriteFile(removed.value, descriptor, Document(doc));
    if written.Err? {
      return Some(written.error), removed.value;
    }
    failed, after := None, written.value;
  }
}
