/** `adm_get`: resolve a dataset version on the server, decide from the
    local mirror whether to fetch it, stage the download (the version
    directory itself, or `<version>.part` when overwriting), verify every
    file's SHA-256, undo the staging on failure, and commit. */
module GetEngine {
  import opened Results
  import opened Json
  import opened Records
  import opened FileTree
  import opened Mirror
  import NameLists
  import Specifier
  import PyMetadata

  /** What the server answers.  A descriptor is `None` when its request
      fails; a download is `None` when the request raises (an HTTP error page
      is content like any other). */
  datatype Server = Server(
    repoDoc: Option<Json>,
    datasetDoc: string -> Option<Json>,
    dataDoc: (string, string) -> Option<Json>,
    download: (string, string, string) -> Option<string>)

  datatype GetError =
    | MissingServer
    | MissingRepoPath
    | MissingDatasetName
    | BadSpecifier(specifierError: Specifier.SpecifierError)
    | InvalidRepoName
    | ServerUnavailable(descriptor: string)
    | ServerMalformed(metaError: MetaError)
    | DatasetNotOnServer(name: string)
    | VersionNotOnServer(version: string)
    | LocalRead(localError: LocalError)
    | Unreferenced(path: Path)        // on disk but not in the local metadata
    | Unlisted(path: Path)            // in the local metadata but not on disk
    | NotADirectoryPath(path: Path)
    | FsFailed(fsError: FsError)
    | DownloadFailed(filename: string)
    | DigestMismatch(filename: string)
    | RollbackFailed(fsError: FsError)

  /** How `adm_get` ends: retrieved; already present and not forced (with
      whether the descriptors matched); no default version to pick; raised;
      or the commit step failed and the call returned after "DANGER". */
  datatype GetOutcome =
    | Retrieved
    | AlreadyPresent(identical: bool)
    | NoDefaultVersion(versions: seq<string>)
    | Raised(error: GetError)
    | Danger(fsError: FsError)

  // ---------------------------------------------------------------- resolution

  function FetchRepo(server: Server): Result<seq<string>, GetError>
  {
    match server.repoDoc
    case None => Err(ServerUnavailable("repo.json"))
    case Some(j) =>
      match PyMetadata.ParseRepo(j)
      case Err(e) => Err(ServerMalformed(e))
      case Ok(names) => Ok(names)
  }

  function FetchDataset(server: Server, name: string): Result<DatasetRecord, GetError>
  {
    match server.datasetDoc(name)
    case None => Err(ServerUnavailable("dataset.json"))
    case Some(j) =>
      match PyMetadata.ParseDataset(j)
      case Err(e) => Err(ServerMalformed(e))
      case Ok(d) => Ok(d)
  }

  function FetchData(server: Server, name: string, version: string): Result<DataRecord, GetError>
  {
    match server.dataDoc(name, version)
    case None => Err(ServerUnavailable("data.json"))
    case Some(j) =>
      match PyMetadata.ParseData(j)
      case Err(e) => Err(ServerMalformed(e))
      case Ok(d) => Ok(d)
  }

  /** The dataset version to fetch, with the server's records of it. */
  datatype Target = Target(name: string, version: string, dataset: DatasetRecord, data: DataRecord)

  datatype Resolution = Resolved(target: Target) | NoDefault(versions: seq<string>) | Unresolved(error: GetError)

  /** The argument checks and server lookups that precede any local work. */
  function Resolve(server: Server, serverUrl: string, repoPath: string, token: string): (r: Resolution)
    ensures |repoPath| < 2 || Specifier.NameVersion(token).Err? ==> !r.Resolved?
    ensures r.Resolved? ==>
      && r.target.version != "" && r.target.version in r.target.dataset.versions
      && FetchRepo(server).Ok? && r.target.name in FetchRepo(server).value
  {
    if serverUrl == "" then Unresolved(MissingServer)
    else if repoPath == "" then Unresolved(MissingRepoPath)
    else if token == "" then Unresolved(MissingDatasetName)
    else match Specifier.NameVersion(token)
      case Err(e) => Unresolved(BadSpecifier(e))
      case Ok((name, requested)) =>
        if |repoPath| < 2 then Unresolved(InvalidRepoName)
        else match FetchRepo(server)
          case Err(e) => Unresolved(e)
          case Ok(names) =>
            if NameLists.FindIndex(names, name) < 0 then Unresolved(DatasetNotOnServer(name))
            else match FetchDataset(server, name)
              case Err(e) => Unresolved(e)
              case Ok(ds) =>
                if requested == "" && ds.defaultVersion == "" then NoDefault(ds.versions)
                else
                  var version := if requested == "" then ds.defaultVersion else requested;
                  if NameLists.FindIndex(ds.versions, version) < 0 then Unresolved(VersionNotOnServer(version))
                  else match FetchData(server, name, version)
                    case Err(e) => Unresolved(e)
                    case Ok(d) => Resolved(Target(name, version, ds, d))
  }

  /** A resolved target is a dataset the server lists, at a non-empty version
      its dataset descriptor lists: the requested one, or the default when
      none was requested.  With no version requested and no default, the
      server's versions are reported instead.  Empty arguments never
      resolve. */
  lemma ResolveSpec(server: Server, serverUrl: string, repoPath: string, token: string)
    ensures serverUrl == "" || repoPath == "" || token == "" ==> Resolve(server, serverUrl, repoPath, token).Unresolved?
    ensures var r := Resolve(server, serverUrl, repoPath, token);
      r.Resolved? ==>
        && Specifier.NameVersion(token).Ok?
        && var (name, requested) := Specifier.NameVersion(token).value;
        && var t := r.target;
        && t.name == name
        && t.version == (if requested == "" then t.dataset.defaultVersion else requested)
        && t.version != ""
        && FetchRepo(server).Ok? && name in FetchRepo(server).value
        && FetchDataset(server, name) == Ok(t.dataset) && t.version in t.dataset.versions
        && FetchData(server, name, t.version) == Ok(t.data)
    ensures var r := Resolve(server, serverUrl, repoPath, token);
      r.NoDefault? ==>
        && Specifier.NameVersion(token).Ok? && Specifier.NameVersion(token).value.1 == ""
        && var name := Specifier.NameVersion(token).value.0;
        && FetchDataset(server, name).Ok?
        && FetchDataset(server, name).value.defaultVersion == ""
        && r.versions == FetchDataset(server, name).value.versions
  {
  }

  // ---------------------------------------------------------------- staging

  /** The content downloaded for file `i` ("" when the request raised). */
  function ContentOf(server: Server, t: Target, i: nat): string
    requires i < |t.data.files|
  {
    var c := server.download(t.name, t.version, t.data.files[i].filename);
    if c.Some? then c.value else ""
  }

  /** File `i` downloaded and its SHA-256 equals the recorded sum. */
  predicate Verified(server: Server, sha256: string -> string, t: Target, i: nat)
    requires i < |t.data.files|
  {
    var c := server.download(t.name, t.version, t.data.files[i].filename);
    c.Some? && sha256(c.value) == t.data.files[i].digest
  }

  predicate AllVerified(server: Server, sha256: string -> string, t: Target)
  {
    forall i :: 0 <= i < |t.data.files| ==> Verified(server, sha256, t, i)
  }

  /** Files `0 .. n-1` all verified, counted the way the download loop does. */
  predicate VerifiedUpTo(server: Server, sha256: string -> string, t: Target, n: nat)
    requires n <= |t.data.files|
  {
    n == 0 || (VerifiedUpTo(server, sha256, t, n - 1) && Verified(server, sha256, t, n - 1))
  }

  lemma {:induction false} VerifiedUpToSpec(server: Server, sha256: string -> string, t: Target, n: nat)
    requires n <= |t.data.files|
    ensures VerifiedUpTo(server, sha256, t, n) <==> forall k :: 0 <= k < n ==> Verified(server, sha256, t, k)
  {
    if n > 0 {
      VerifiedUpToSpec(server, sha256, t, n - 1);
    }
  }

  /** File `i` is the first that did not download or verify. */
  predicate FirstFailure(server: Server, sha256: string -> string, t: Target, i: nat)
  {
    && i < |t.data.files| && !Verified(server, sha256, t, i)
    && forall k :: 0 <= k < i ==> Verified(server, sha256, t, k)
  }

  /** The staging directory's contents, relative to it, once `data.json` and
      the first `k` files are written; a later file of the same name
      replaces an earlier one. */
  function Staged(server: Server, t: Target, k: nat): (s: map<Path, Node>)
    requires k <= |t.data.files|
    ensures [] in s && s[[]] == Directory
    ensures forall r :: r in s && r != [] ==> |r| == 1 && !s[r].Directory?
  {
    if k == 0 then map[[] := Directory, ["data.json"] := Document(PyMetadata.DataToJson(t.data))]
    else Staged(server, t, k - 1)[[t.data.files[k - 1].filename] := Blob(ContentOf(server, t, k - 1))]
  }

  /** `after` is `before` with the tree at `dir` replaced by `s`. */
  ghost predicate Holds(before: Fs, after: Fs, dir: Path, s: map<Path, Node>)
  {
    forall q :: Lookup(after, q) ==
      if Under(dir, q) then (if q[|dir|..] in s then Some(s[q[|dir|..]]) else None)
      else Lookup(before, q)
  }

  /** In a well-formed tree nothing lies below a path that is absent. */
  lemma {:induction false} NoOrphans(fs: Fs, p: Path, q: Path)
    requires Valid(fs) && p !in fs.nodes && Under(p, q)
    ensures q !in fs.nodes
    decreases |q|
  {
    if q in fs.nodes && q != p {
      assert Parent(q)[..|p|] == q[..|p|];
      NoOrphans(fs, p, Parent(q));
    }
  }

  lemma PathSplit(dir: Path, q: Path)
    requires Under(dir, q)
    ensures q == dir + q[|dir|..]
  {
  }

  /** Writing one node inside the tree at `dir` keeps `Holds`, with the node
      added to the relative contents. */
  lemma HoldsAfterWrite(before: Fs, cur: Fs, dir: Path, s: map<Path, Node>, rel: Path, n: Node)
    requires Holds(before, cur, dir, s)
    ensures Holds(before, Fs(cur.nodes[dir + rel := n]), dir, s[rel := n])
  {
    var p := dir + rel;
    assert p[..|dir|] == dir && p[|dir|..] == rel;
    var after := Fs(cur.nodes[p := n]);
    forall q ensures Lookup(after, q) ==
      if Under(dir, q) then (if q[|dir|..] in s[rel := n] then Some(s[rel := n][q[|dir|..]]) else None)
      else Lookup(before, q)
    {
      if Under(dir, q) {
        PathSplit(dir, q);
      }
    }
  }

  /** The tree once the staging directory is created and `data.json` is
      written into it. */
  function StagingStart(fs: Fs, staging: Path, t: Target): Fs
  {
    Fs(fs.nodes[staging := Directory][DataJson(staging) := Document(PyMetadata.DataToJson(t.data))])
  }

  /** `start` with the first `k` files downloaded into the staging
      directory. */
  function Downloaded(start: Fs, staging: Path, server: Server, t: Target, k: nat): Fs
    requires k <= |t.data.files|
  {
    if k == 0 then start
    else Fs(Downloaded(start, staging, server, t, k - 1).nodes[staging + [t.data.files[k - 1].filename] := Blob(ContentOf(server, t, k - 1))])
  }

  /** The tree after the staging directory is created, `data.json` written
      into it and the first `k` files downloaded into it. */
  function StagedTree(fs: Fs, staging: Path, server: Server, t: Target, k: nat): Fs
    requires k <= |t.data.files|
  {
    if k == 0 then StagingStart(fs, staging, t)
    else Fs(StagedTree(fs, staging, server, t, k - 1).nodes[staging + [t.data.files[k - 1].filename] := Blob(ContentOf(server, t, k - 1))])
  }

  lemma {:induction false} StagedTreeDownloaded(fs: Fs, staging: Path, server: Server, t: Target, k: nat)
    requires k <= |t.data.files|
    ensures StagedTree(fs, staging, server, t, k) == Downloaded(StagingStart(fs, staging, t), staging, server, t, k)
  {
    if k > 0 {
      StagedTreeDownloaded(fs, staging, server, t, k - 1);
    }
  }

  /** Staging touches nothing outside the staging directory. */
  lemma {:induction false} StagedTreeOutside(fs: Fs, staging: Path, server: Server, t: Target, k: nat)
    requires k <= |t.data.files|
    ensures forall q :: !Under(staging, q) ==> Lookup(StagedTree(fs, staging, server, t, k), q) == Lookup(fs, q)
  {
    assert Under(staging, DataJson(staging));
    if k > 0 {
      StagedTreeOutside(fs, staging, server, t, k - 1);
      assert Under(staging, staging + [t.data.files[k - 1].filename]);
    }
  }

  /** Nothing lies at or below `dir`: where a fresh directory can be staged. */
  ghost predicate EmptySlot(fs: Fs, dir: Path)
  {
    forall q :: Under(dir, q) ==> q !in fs.nodes
  }

  lemma EmptySlotOfValid(fs: Fs, dir: Path)
    requires Valid(fs) && Mkdir(fs, dir).Ok?
    ensures EmptySlot(fs, dir)
  {
    forall q | Under(dir, q) ensures q !in fs.nodes {
      NoOrphans(fs, dir, q);
    }
  }

  /** Staged into a fresh directory of a well-formed tree, the staging
      directory holds exactly `Staged(k)`. */
  lemma {:induction false} StagedTreeHolds(fs: Fs, staging: Path, server: Server, t: Target, k: nat)
    requires k <= |t.data.files|
    requires EmptySlot(fs, staging)
    ensures Holds(fs, StagedTree(fs, staging, server, t, k), staging, Staged(server, t, k))
  {
    if k == 0 {
      var m := Fs(fs.nodes[staging := Directory]);
      assert Holds(fs, m, staging, map[[] := Directory]) by {
        forall q ensures Lookup(m, q) ==
          if Under(staging, q) then (if q[|staging|..] in map[[] := Directory] then Some(Directory) else None)
          else Lookup(fs, q)
        {
          if Under(staging, q) {
            PathSplit(staging, q);
            if q[|staging|..] == [] {
              assert q == staging;
            }
          }
        }
      }
      HoldsAfterWrite(fs, m, staging, map[[] := Directory], ["data.json"], Document(PyMetadata.DataToJson(t.data)));
    } else {
      StagedTreeHolds(fs, staging, server, t, k - 1);
      HoldsAfterWrite(fs, StagedTree(fs, staging, server, t, k - 1), staging, Staged(server, t, k - 1),
        [t.data.files[k - 1].filename], Blob(ContentOf(server, t, k - 1)));
    }
  }

  /** In a staging tree the staging directory is a directory and a file
      name inside it is never one. */
  lemma StagedTreeWritable(fs: Fs, staging: Path, server: Server, t: Target, k: nat, name: string)
    requires k <= |t.data.files|
    requires EmptySlot(fs, staging)
    ensures IsDir(StagedTree(fs, staging, server, t, k), staging)
    ensures !IsDir(StagedTree(fs, staging, server, t, k), staging + [name])
  {
    StagedTreeHolds(fs, staging, server, t, k);
    var cur := StagedTree(fs, staging, server, t, k);
    var path := staging + [name];
    assert path[..|staging|] == staging && path[|staging|..] == [name];
    assert staging[..|staging|] == staging && staging[|staging|..] == [];
    assert Lookup(cur, staging) == Some(Directory);
    assert Lookup(cur, path) == if [name] in Staged(server, t, k) then Some(Staged(server, t, k)[[name]]) else None;
  }

  /** The staging directory is a directory and no name directly inside it
      is one: where the download loop can write every file. */
  ghost predicate StagingOpen(cur: Fs, staging: Path)
  {
    IsDir(cur, staging) && forall name: string :: !IsDir(cur, staging + [name])
  }

  lemma {:induction false} DownloadedOpen(start: Fs, staging: Path, server: Server, t: Target, k: nat)
    requires k <= |t.data.files| && StagingOpen(start, staging)
    ensures StagingOpen(Downloaded(start, staging, server, t, k), staging)
  {
    if k > 0 {
      DownloadedOpen(start, staging, server, t, k - 1);
      assert staging != staging + [t.data.files[k - 1].filename];
    }
  }

  /** Writing file `k` into the tree of the first `k` files gives the tree
      of the first `k + 1`. */
  lemma DownloadedStep(start: Fs, staging: Path, server: Server, t: Target, k: nat)
    requires k < |t.data.files| && StagingOpen(start, staging)
    ensures WriteFile(Downloaded(start, staging, server, t, k), staging + [t.data.files[k].filename], Blob(ContentOf(server, t, k)))
      == Ok(Downloaded(start, staging, server, t, k + 1))
  {
    DownloadedOpen(start, staging, server, t, k);
    assert Parent(staging + [t.data.files[k].filename]) == staging;
  }

  /** One iteration of the download loop: fetch file `i`, write it into the
      staging directory, read it back and compare its SHA-256 with the
      recorded one.  A failed request leaves the tree as it was; a mismatch
      leaves the written file in place. */
  method FetchFile(start: Fs, staging: Path, server: Server, sha256: string -> string, t: Target, i: nat, cur: Fs)
    returns (err: Option<GetError>, next: Fs)
    requires i < |t.data.files| && StagingOpen(start, staging)
    requires cur == Downloaded(start, staging, server, t, i)
    ensures err.None? <==> Verified(server, sha256, t, i)
    ensures err.Some? ==>
      && (err.value.DownloadFailed? || err.value.DigestMismatch?)
      && err.value.filename == t.data.files[i].filename
    ensures err.Some? ==> (err.value.DownloadFailed? <==> server.download(t.name, t.version, t.data.files[i].filename).None?)
    ensures err.Some? && err.value.DownloadFailed? ==> next == cur
    ensures err.None? || err.value.DigestMismatch? ==> next == Downloaded(start, staging, server, t, i + 1)
  {
    var f := t.data.files[i];
    var c := server.download(t.name, t.version, f.filename);
    if c.None? {
      return Some(DownloadFailed(f.filename)), cur;
    }
    DownloadedStep(start, staging, server, t, i);
    next := WriteFile(cur, staging + [f.filename], Blob(c.value)).value;
    if sha256(c.value) != f.digest {
      return Some(DigestMismatch(f.filename)), next;
    }
    err := None;
  }

  /** The download loop over a staging directory holding `data.json`: the
      first file that fails stops the loop with the files so far left in
      place. */
  method DownloadFiles(start: Fs, staging: Path, server: Server, sha256: string -> string, t: Target)
    returns (err: Option<GetError>, after: Fs, ghost written: nat, ghost failed: nat)
    requires StagingOpen(start, staging)
    ensures written <= |t.data.files| && after == Downloaded(start, staging, server, t, written)
    ensures err.None? ==> written == |t.data.files| && VerifiedUpTo(server, sha256, t, written)
    ensures err.Some? ==>
      && (err.value.DownloadFailed? || err.value.DigestMismatch?)
      && failed < |t.data.files|
      && VerifiedUpTo(server, sha256, t, failed) && !Verified(server, sha256, t, failed)
      && err.value.filename == t.data.files[failed].filename
      && (err.value.DownloadFailed? <==> server.download(t.name, t.version, t.data.files[failed].filename).None?)
      && written == (if err.value.DownloadFailed? then failed else failed + 1)
  {
    var cur := start;
    var i := 0;
    while i < |t.data.files|
      invariant 0 <= i <= |t.data.files|
      invariant VerifiedUpTo(server, sha256, t, i)
      invariant cur == Downloaded(start, staging, server, t, i)
    {
      var e, next := FetchFile(start, staging, server, sha256, t, i, cur);
      if e.Some? {
        err, after, failed := e, next, i;
        written := if e.value.DownloadFailed? then i else i + 1;
        return;
      }
      cur := next;
      i := i + 1;
    }
    err, after, written, failed := None, cur, i, 0;
  }

  /** Creates the staging directory, writes `data.json` into it and runs the
      download loop.  Nothing outside the staging directory changes. */
  method Stage(fs: Fs, staging: Path, server: Server, sha256: string -> string, t: Target)
    returns (err: Option<GetError>, after: Fs)
    requires Valid(fs)
    ensures forall q :: !Under(staging, q) ==> Lookup(after, q) == Lookup(fs, q)
    ensures err.None? <==> Mkdir(fs, staging).Ok? && AllVerified(server, sha256, t)
    ensures err.None? ==> after == StagedTree(fs, staging, server, t, |t.data.files|)
    ensures Mkdir(fs, staging).Err? ==> err == Some(FsFailed(Mkdir(fs, staging).error)) && after == fs
    ensures Mkdir(fs, staging).Ok? ==> EmptySlot(fs, staging) && IsDir(after, staging)
    ensures Mkdir(fs, staging).Ok? && err.Some? ==>
      && (err.value.DownloadFailed? || err.value.DigestMismatch?)
      && exists i: nat :: FirstFailure(server, sha256, t, i) && err.value.filename == t.data.files[i].filename
  {
    var m := Mkdir(fs, staging);
    if m.Err? {
      return Some(FsFailed(m.error)), fs;
    }
    EmptySlotOfValid(fs, staging);
    assert Parent(DataJson(staging)) == staging;
    var written := WriteFile(m.value, DataJson(staging), Document(PyMetadata.DataToJson(t.data)));
    assert written.Ok? && written.value == StagingStart(fs, staging, t);
    forall name: string ensures !IsDir(written.value, staging + [name]) {
      StagedTreeWritable(fs, staging, server, t, 0, name);
    }
    ghost var count: nat, failed: nat;
    err, after, count, failed := DownloadFiles(written.value, staging, server, sha256, t);
    StagedTreeDownloaded(fs, staging, server, t, count);
    StagedTreeOutside(fs, staging, server, t, count);
    StagedTreeWritable(fs, staging, server, t, count, "");
    if err.None? {
      VerifiedUpToSpec(server, sha256, t, count);
    } else {
      VerifiedUpToSpec(server, sha256, t, failed);
      assert FirstFailure(server, sha256, t, failed);
    }
  }

  // ---------------------------------------------------------------- local decision

  /** The version is already in the local mirror: the repository lists the
      dataset, its directory is a directory, its descriptor lists the version
      and the version's descriptor reads. */
  predicate Listed(fs: Fs, t: Target)
  {
    && LocalRepo(fs).Ok? && t.name in LocalRepo(fs).value
    && IsDir(fs, DatasetDir(t.name))
    && LocalDataset(fs, t.name).Ok? && t.version in LocalDataset(fs, t.name).value.versions
    && LocalData(fs, t.name, t.version).Ok?
  }

  /** What to stage and commit: the tree so far, whether the dataset is new,
      whether an existing version is overwritten, where to download, and the
      dataset and repository descriptors to write afterwards. */
  datatype Plan = Plan(fs: Fs, newDataset: bool, overwrite: bool, staging: Path, dataset: DatasetRecord, names: seq<string>)

  datatype Preparation =
    | Ready(plan: Plan)
    | Present(identical: bool)
    | Aborted(error: GetError, fs: Fs, newDataset: bool)

  /** The checks of the guarded block that raise before anything is
      staged.  For a dataset the repository does not list: a directory
      already in its place, a root that is not a directory (so `mkdir`
      fails), or a version directory already there.  For a listed one: a
      dataset directory that is missing or not a directory, a `dataset.json`
      that does not read, a version directory present but not listed, or a
      listed version whose `data.json` does not read. */
  predicate PrepareRaises(fs: Fs, t: Target, names: seq<string>)
  {
    var dDir, vDir := DatasetDir(t.name), VersionDir(t.name, t.version);
    if t.name !in names then dDir in fs.nodes || !IsDir(fs, []) || vDir in fs.nodes
    else
      || !IsDir(fs, dDir)
      || LocalDataset(fs, t.name).Err?
      || if t.version in LocalDataset(fs, t.name).value.versions then LocalData(fs, t.name, t.version).Err?
         else vDir in fs.nodes
  }

  /** The plan for a version that is neither present-and-kept nor refused:
      a new dataset stages into the version directory of the dataset
      directory just made, a new version of a listed dataset into a fresh
      version directory, and a listed version into `<version>.part`, keeping
      the dataset descriptor as read. */
  predicate Planned(fs: Fs, t: Target, names: seq<string>, plan: Plan)
  {
    if t.name !in names then
      && Mkdir(fs, DatasetDir(t.name)).Ok?
      && VersionDir(t.name, t.version) !in Mkdir(fs, DatasetDir(t.name)).value.nodes
      && plan == Plan(Mkdir(fs, DatasetDir(t.name)).value, true, false, VersionDir(t.name, t.version),
           t.dataset.(versions := [t.version]), names + [t.name])
    else
      && IsDir(fs, DatasetDir(t.name)) && LocalDataset(fs, t.name).Ok?
      && var local := LocalDataset(fs, t.name).value;
      && if t.version in local.versions then
           && LocalData(fs, t.name, t.version).Ok?
           && plan == Plan(fs, false, true, PartDir(t.name, t.version), local, names)
         else
           && VersionDir(t.name, t.version) !in fs.nodes
           && plan == Plan(fs, false, false, VersionDir(t.name, t.version),
                local.(versions := local.versions + [t.version]), names)
  }

  /** The first part of the guarded block: create the dataset directory or
      check the existing one, then find the version locally.  A version
      already present returns unless forced; forcing stages it in
      `<version>.part` instead. */
  method Prepare(fs: Fs, t: Target, names: seq<string>, force: bool) returns (p: Preparation)
    requires LocalRepo(fs) == Ok(names)
    ensures p.Present? <==> Listed(fs, t) && !force
    ensures p.Aborted? <==> PrepareRaises(fs, t, names)
    ensures p.Present? ==> p.identical == (LocalData(fs, t.name, t.version).value == t.data)
    ensures p.Aborted? ==>
      if p.newDataset then t.name !in names && Mkdir(fs, DatasetDir(t.name)).Ok? && p.fs == Mkdir(fs, DatasetDir(t.name)).value
      else p.fs == fs
    ensures p.Ready? ==> Planned(fs, t, names, p.plan) && (p.plan.overwrite ==> force)
  {
    var datasetDir := DatasetDir(t.name);
    var versionDir := VersionDir(t.name, t.version);
    var cur := fs;
    var newDataset := false;
    var dataset: DatasetRecord;
    var localNames := names;
    if NameLists.FindIndex(names, t.name) < 0 {
      if datasetDir in cur.nodes {
        return Aborted(Unreferenced(datasetDir), fs, false);
      }
      var m := Mkdir(cur, datasetDir);
      if m.Err? {
        return Aborted(FsFailed(m.error), fs, false);
      }
      cur := m.value;
      newDataset := true;
      dataset := t.dataset.(versions := []);
      localNames := names + [t.name];
    } else {
      if datasetDir !in cur.nodes {
        return Aborted(Unlisted(datasetDir), fs, false);
      }
      if !IsDir(cur, datasetDir) {
        return Aborted(NotADirectoryPath(datasetDir), fs, false);
      }
      var local := LocalDataset(cur, t.name);
      if local.Err? {
        return Aborted(LocalRead(local.error), fs, false);
      }
      dataset := local.value;
    }
    if NameLists.FindIndex(dataset.versions, t.version) < 0 {
      if versionDir in cur.nodes {
        return Aborted(Unreferenced(versionDir), cur, newDataset);
      }
      dataset := dataset.(versions := dataset.versions + [t.version]);
      return Ready(Plan(cur, newDataset, false, versionDir, dataset, localNames));
    }
    var localData := LocalData(cur, t.name, t.version);
    if localData.Err? {
      return Aborted(LocalRead(localData.error), cur, newDataset);
    }
    var identical := DataEqual(t.data, localData.value);
    if !force {
      return Present(identical);
    }
    return Ready(Plan(cur, newDataset, true, PartDir(t.name, t.version), dataset, localNames));
  }

  // ---------------------------------------------------------------- rollback

  /** The cleanup of the `except` clause: a new dataset's directory is
      removed, else an overwrite's staging directory, each only if present.
      A removal that raises replaces the original error. */
  method Rollback(fs: Fs, newDataset: bool, overwrite: bool, datasetDir: Path, staging: Path, error: GetError)
    returns (raised: GetError, after: Fs)
    ensures var target := if newDataset then datasetDir else staging;
      if (newDataset || overwrite) && target in fs.nodes then
        if IsDir(fs, target) then raised == error && after == Rmtree(fs, target).value
        else raised == RollbackFailed(Rmtree(fs, target).error) && after == fs
      else raised == error && after == fs
  {
    raised, after := error, fs;
    if newDataset {
      if datasetDir in fs.nodes {
        var r := Rmtree(fs, datasetDir);
        if r.Err? {
          return RollbackFailed(r.error), fs;
        }
        after := r.value;
      }
    } else if overwrite {
      if staging in fs.nodes {
        var r := Rmtree(fs, staging);
        if r.Err? {
          return RollbackFailed(r.error), fs;
        }
        after := r.value;
      }
    }
  }

  /** What a raising `adm_get` leaves: every node that was there before is
      still there unchanged, except below `<version>.part` (a stale staging
      directory of an earlier run is deleted too), and the only new nodes
      lie below the version directory (a failed download of a new version
      of an existing dataset is not cleaned up). */
  ghost predicate RolledBack(fs: Fs, after: Fs, t: Target)
  {
    && (forall q :: q in fs.nodes && !Under(PartDir(t.name, t.version), q) ==> Lookup(after, q) == Lookup(fs, q))
    && (forall q :: q in after.nodes ==> q in fs.nodes || Under(VersionDir(t.name, t.version), q))
  }

  /** Rolls back after the guarded block raised with the tree at `cur`. */
  method Abort(fs: Fs, cur: Fs, t: Target, newDataset: bool, overwrite: bool, staging: Path, error: GetError)
    returns (out: GetOutcome, after: Fs)
    requires newDataset ==>
      && !overwrite
      && EmptySlot(fs, DatasetDir(t.name)) && IsDir(cur, DatasetDir(t.name))
      && forall q :: !Under(DatasetDir(t.name), q) ==> Lookup(cur, q) == Lookup(fs, q)
    requires !newDataset ==>
      && staging == (if overwrite then PartDir(t.name, t.version) else VersionDir(t.name, t.version))
      && (forall q :: !Under(staging, q) ==> Lookup(cur, q) == Lookup(fs, q))
      && (cur == fs || (EmptySlot(fs, staging) && IsDir(cur, staging)))
    ensures out.Raised?
    ensures RolledBack(fs, after, t)
  {
    var raised;
    raised, after := Rollback(cur, newDataset, overwrite, DatasetDir(t.name), staging, error);
    out := Raised(raised);
    var vDir, pDir := VersionDir(t.name, t.version), PartDir(t.name, t.version);
    if newDataset {
      RmtreeSpec(cur, DatasetDir(t.name));
      assert Under(DatasetDir(t.name), vDir) && Under(DatasetDir(t.name), pDir);
    } else if overwrite && staging in cur.nodes && IsDir(cur, staging) {
      RmtreeSpec(cur, staging);
    }
  }

  // ---------------------------------------------------------------- commit

  /** The tree after a commit that did not fail, from the staged tree: an
      overwrite replaces the version directory by the staging directory,
      otherwise `dataset.json` is rewritten; a new dataset also rewrites
      `repo.json`. */
  ghost predicate Committed(staged: Fs, after: Fs, t: Target, newDataset: bool, overwrite: bool,
                            dataset: DatasetRecord, names: seq<string>)
  {
    var vDir, pDir := VersionDir(t.name, t.version), PartDir(t.name, t.version);
    forall q :: Lookup(after, q) ==
      if newDataset && q == RepoJson then Some(Document(PyMetadata.RepoToJson(names)))
      else if overwrite then
        if Under(vDir, q) then Lookup(staged, pDir + q[|vDir|..])
        else if Under(pDir, q) then None
        else Lookup(staged, q)
      else if q == DatasetJson(t.name) then Some(Document(PyMetadata.DatasetToJson(dataset)))
      else Lookup(staged, q)
  }

  /** Every node outside the dataset directory `name` and `repo.json` is as
      in `fs`. */
  ghost predicate KeepsOutside(fs: Fs, after: Fs, name: string)
  {
    forall q :: q != RepoJson && !Under(DatasetDir(name), q) ==> Lookup(after, q) == Lookup(fs, q)
  }

  /** Both staging directories lie inside the dataset directory. */
  lemma StagingInDataset(name: string, version: string, staging: Path)
    requires staging == VersionDir(name, version) || staging == PartDir(name, version)
    ensures forall q :: Under(staging, q) ==> Under(DatasetDir(name), q)
  {
    forall q | Under(staging, q) ensures Under(DatasetDir(name), q) {
      assert q[..1] == staging[..1];
    }
  }

  /** The overwrite step of the commit: the version directory is removed and
      `<version>.part` is moved in its place. */
  method ReplaceVersion(staged: Fs, t: Target) returns (danger: Option<FsError>, after: Fs)
    ensures danger.None? <==>
      && IsDir(staged, VersionDir(t.name, t.version)) && PartDir(t.name, t.version) in staged.nodes
      && IsDir(staged, DatasetDir(t.name))
    ensures danger.None? ==>
      var vDir, pDir := VersionDir(t.name, t.version), PartDir(t.name, t.version);
      forall q :: Lookup(after, q) ==
        if Under(vDir, q) then Lookup(staged, pDir + q[|vDir|..])
        else if Under(pDir, q) then None
        else Lookup(staged, q)
    ensures KeepsOutside(staged, after, t.name)
  {
    var vDir, pDir := VersionDir(t.name, t.version), PartDir(t.name, t.version);
    var r := Rmtree(staged, vDir);
    if r.Err? {
      return Some(r.error), staged;
    }
    RmtreeKeepsOutside(staged, t, vDir);
    LayoutDisjoint(t.name, t.version);
    RmtreeSpec(staged, vDir);
    assert Lookup(r.value, pDir) == Lookup(staged, pDir) && Lookup(r.value, DatasetDir(t.name)) == Lookup(staged, DatasetDir(t.name));
    var m := Move(r.value, pDir, vDir);
    if m.Err? {
      return Some(m.error), r.value;
    }
    MoveKeepsOutside(r.value, t);
    MoveSpec(r.value, pDir, vDir);
    forall q | Under(vDir, q) ensures !Under(vDir, pDir + q[|vDir|..]) {
      assert (pDir + q[|vDir|..])[..|pDir|] == pDir;
    }
    danger, after := None, m.value;
  }

  /** Staging inside the dataset directory, on the tree as it was or with the
      dataset directory just made, followed by a commit that kept to the
      dataset directory and `repo.json`, kept to them too. */
  lemma CommitKeepsOutside(fs: Fs, planFs: Fs, staged: Fs, after: Fs, t: Target, staging: Path)
    requires staging == VersionDir(t.name, t.version) || staging == PartDir(t.name, t.version)
    requires planFs == fs || (Mkdir(fs, DatasetDir(t.name)).Ok? && planFs == Mkdir(fs, DatasetDir(t.name)).value)
    requires forall q :: !Under(staging, q) ==> Lookup(staged, q) == Lookup(planFs, q)
    requires KeepsOutside(staged, after, t.name)
    ensures KeepsOutside(fs, after, t.name)
  {
    StagingInDataset(t.name, t.version, staging);
  }

  /** The commit's steps all succeed on the staged tree: an overwrite needs
      the version directory, `<version>.part` and the dataset directory, any
      other commit a `dataset.json` that is not a directory inside the
      dataset directory, and a new dataset a root directory whose
      `repo.json` is not a directory. */
  predicate CommitSucceeds(staged: Fs, t: Target, newDataset: bool, overwrite: bool)
  {
    && IsDir(staged, DatasetDir(t.name))
    && (if overwrite then IsDir(staged, VersionDir(t.name, t.version)) && PartDir(t.name, t.version) in staged.nodes
        else !IsDir(staged, DatasetJson(t.name)))
    && (newDataset ==> IsDir(staged, []) && !IsDir(staged, RepoJson))
  }

  /** The block after the guarded one: its failures are reported as
      "DANGER" and end the call without raising.  Whether it fails or not,
      it touches only the dataset directory and `repo.json`. */
  method Commit(staged: Fs, t: Target, newDataset: bool, overwrite: bool, dataset: DatasetRecord, names: seq<string>)
    returns (danger: Option<FsError>, after: Fs)
    ensures danger.None? <==> CommitSucceeds(staged, t, newDataset, overwrite)
    ensures danger.None? ==> Committed(staged, after, t, newDataset, overwrite, dataset, names)
    ensures danger.Some? ==> KeepsOutside(staged, after, t.name)
  {
    var vDir, pDir := VersionDir(t.name, t.version), PartDir(t.name, t.version);
    var cur := staged;
    if overwrite {
      var failed;
      failed, cur := ReplaceVersion(staged, t);
      if failed.Some? {
        return failed, cur;
      }
      assert Lookup(cur, []) == Lookup(staged, []) && Lookup(cur, RepoJson) == Lookup(staged, RepoJson);
    } else {
      assert Parent(DatasetJson(t.name)) == DatasetDir(t.name);
      var w := WriteFile(cur, DatasetJson(t.name), Document(PyMetadata.DatasetToJson(dataset)));
      if w.Err? {
        return Some(w.error), cur;
      }
      cur := w.value;
      assert Lookup(cur, []) == Lookup(staged, []) && Lookup(cur, RepoJson) == Lookup(staged, RepoJson);
    }
    if newDataset {
      var w := WriteFile(cur, RepoJson, Document(PyMetadata.RepoToJson(names)));
      if w.Err? {
        return Some(w.error), cur;
      }
      cur := w.value;
    }
    danger, after := None, cur;
  }

  /** Removing a staging or version directory keeps to the dataset directory. */
  lemma RmtreeKeepsOutside(fs: Fs, t: Target, p: Path)
    requires p == VersionDir(t.name, t.version) || p == PartDir(t.name, t.version)
    requires Rmtree(fs, p).Ok?
    ensures KeepsOutside(fs, Rmtree(fs, p).value, t.name)
  {
    StagingInDataset(t.name, t.version, p);
    RmtreeSpec(fs, p);
  }

  /** Moving `<version>.part` onto the version directory keeps to the dataset
      directory. */
  lemma MoveKeepsOutside(fs: Fs, t: Target)
    requires Move(fs, PartDir(t.name, t.version), VersionDir(t.name, t.version)).Ok?
    ensures KeepsOutside(fs, Move(fs, PartDir(t.name, t.version), VersionDir(t.name, t.version)).value, t.name)
  {
    StagingInDataset(t.name, t.version, PartDir(t.name, t.version));
    StagingInDataset(t.name, t.version, VersionDir(t.name, t.version));
    MoveSpec(fs, PartDir(t.name, t.version), VersionDir(t.name, t.version));
  }

  // ---------------------------------------------------------------- outcomes

  /** What the staging directory `dir` holds at `q` once every file of `t`
      is in. */
  ghost function StagedAt(server: Server, t: Target, dir: Path, q: Path): Option<Node>
    requires Under(dir, q)
  {
    var s := Staged(server, t, |t.data.files|);
    if q[|dir|..] in s then Some(s[q[|dir|..]]) else None
  }

  /** A new dataset retrieved: its directory, its descriptor listing only
      this version, the version directory with `data.json` and the files, and
      `repo.json` with the dataset appended. */
  ghost predicate AddedDataset(fs: Fs, after: Fs, server: Server, t: Target, names: seq<string>)
  {
    var vDir := VersionDir(t.name, t.version);
    forall q :: Lookup(after, q) ==
      if q == RepoJson then Some(Document(PyMetadata.RepoToJson(names + [t.name])))
      else if q == DatasetJson(t.name) then Some(Document(PyMetadata.DatasetToJson(t.dataset.(versions := [t.version]))))
      else if q == DatasetDir(t.name) then Some(Directory)
      else if Under(vDir, q) then StagedAt(server, t, vDir, q)
      else Lookup(fs, q)
  }

  /** A new version of a listed dataset retrieved: the version directory,
      and the dataset descriptor as read with the version appended. */
  ghost predicate AddedVersion(fs: Fs, after: Fs, server: Server, t: Target, local: DatasetRecord)
  {
    var vDir := VersionDir(t.name, t.version);
    forall q :: Lookup(after, q) ==
      if q == DatasetJson(t.name) then Some(Document(PyMetadata.DatasetToJson(local.(versions := local.versions + [t.version]))))
      else if Under(vDir, q) then StagedAt(server, t, vDir, q)
      else Lookup(fs, q)
  }

  /** A present version overwritten: the version directory holds the new
      download, `<version>.part` is gone and nothing else changed. */
  ghost predicate Replaced(fs: Fs, after: Fs, server: Server, t: Target)
  {
    var vDir, pDir := VersionDir(t.name, t.version), PartDir(t.name, t.version);
    forall q :: Lookup(after, q) ==
      if Under(vDir, q) then StagedAt(server, t, vDir, q)
      else if Under(pDir, q) then None
      else Lookup(fs, q)
  }

  /** The version directory lies inside the dataset directory. */
  lemma VersionInDataset(name: string, version: string)
    ensures !Under(VersionDir(name, version), DatasetDir(name))
    ensures forall q :: Under(VersionDir(name, version), q) ==> Under(DatasetDir(name), q)
  {
    forall q | Under(VersionDir(name, version), q) ensures Under(DatasetDir(name), q) {
      assert q[..1] == VersionDir(name, version)[..1];
    }
  }

  lemma NewDatasetRetrieved(fs: Fs, after: Fs, server: Server, t: Target, names: seq<string>)
    requires EmptySlot(fs, DatasetDir(t.name)) && Mkdir(fs, DatasetDir(t.name)).Ok?
    requires Committed(StagedTree(Mkdir(fs, DatasetDir(t.name)).value, VersionDir(t.name, t.version), server, t, |t.data.files|),
      after, t, true, false, t.dataset.(versions := [t.version]), names + [t.name])
    ensures AddedDataset(fs, after, server, t, names)
  {
    var dDir, vDir := DatasetDir(t.name), VersionDir(t.name, t.version);
    var fs1 := Mkdir(fs, dDir).value;
    assert EmptySlot(fs1, vDir) by {
      forall q | Under(vDir, q) ensures q !in fs1.nodes {
        assert q[..|dDir|] == dDir;
      }
    }
    StagedTreeHolds(fs1, vDir, server, t, |t.data.files|);
    assert !Under(vDir, dDir);
  }

  lemma NewVersionRetrieved(fs: Fs, after: Fs, server: Server, t: Target, local: DatasetRecord, names: seq<string>)
    requires EmptySlot(fs, VersionDir(t.name, t.version))
    requires Committed(StagedTree(fs, VersionDir(t.name, t.version), server, t, |t.data.files|),
      after, t, false, false, local.(versions := local.versions + [t.version]), names)
    ensures AddedVersion(fs, after, server, t, local)
  {
    StagedTreeHolds(fs, VersionDir(t.name, t.version), server, t, |t.data.files|);
  }

  lemma OverwriteRetrieved(fs: Fs, after: Fs, server: Server, t: Target, local: DatasetRecord, names: seq<string>)
    requires EmptySlot(fs, PartDir(t.name, t.version))
    requires Committed(StagedTree(fs, PartDir(t.name, t.version), server, t, |t.data.files|),
      after, t, false, true, local, names)
    ensures Replaced(fs, after, server, t)
  {
    var vDir, pDir := VersionDir(t.name, t.version), PartDir(t.name, t.version);
    StagedTreeHolds(fs, pDir, server, t, |t.data.files|);
    forall q | Under(vDir, q)
      ensures (pDir + q[|vDir|..])[|pDir|..] == q[|vDir|..] && Under(pDir, pDir + q[|vDir|..])
    {
    }
  }

  /** An overwrite finds a `<version>.part` left by an earlier run, so the
      `mkdir` of the staging directory raises. */
  predicate StaleStaging(fs: Fs, t: Target, names: seq<string>)
  {
    && t.name in names && LocalDataset(fs, t.name).Ok? && t.version in LocalDataset(fs, t.name).value.versions
    && PartDir(t.name, t.version) in fs.nodes
  }

  /** A new dataset whose version is named "dataset.json": the version
      directory stands where the dataset descriptor is then written, and
      that write fails. */
  predicate DescriptorShadowed(t: Target, names: seq<string>)
  {
    t.name !in names && t.version == "dataset.json"
  }

  /** The staging directory of a plan can be made unless a stale
      `<version>.part` is in the way. */
  lemma StagingMkdir(fs: Fs, t: Target, names: seq<string>, plan: Plan)
    requires Valid(fs) && Planned(fs, t, names, plan)
    ensures Mkdir(plan.fs, plan.staging).Ok? <==> !StaleStaging(fs, t, names)
  {
    LayoutDisjoint(t.name, t.version);
  }

  /** Once every file is staged, the commit fails exactly for a new dataset
      whose version is named "dataset.json". */
  lemma StagedCommit(fs: Fs, server: Server, t: Target, names: seq<string>, plan: Plan)
    requires Valid(fs) && LocalRepo(fs) == Ok(names) && Planned(fs, t, names, plan)
    requires Mkdir(plan.fs, plan.staging).Ok?
    ensures CommitSucceeds(StagedTree(plan.fs, plan.staging, server, t, |t.data.files|), t, plan.newDataset, plan.overwrite)
      <==> !DescriptorShadowed(t, names)
  {
    var n := |t.data.files|;
    if plan.newDataset {
      MkdirKeepsValid(fs, DatasetDir(t.name));
    }
    EmptySlotOfValid(plan.fs, plan.staging);
    StagedTreeOutside(plan.fs, plan.staging, server, t, n);
    StagedTreeWritable(plan.fs, plan.staging, server, t, n, "");
    CommitOnStaged(fs, t, names, plan, StagedTree(plan.fs, plan.staging, server, t, n));
  }

  /** The commit condition on any tree that holds the staging directory and
      agrees with the plan's tree elsewhere. */
  lemma CommitOnStaged(fs: Fs, t: Target, names: seq<string>, plan: Plan, staged: Fs)
    requires Valid(fs) && LocalRepo(fs) == Ok(names) && Planned(fs, t, names, plan)
    requires IsDir(staged, plan.staging)
    requires forall q :: !Under(plan.staging, q) ==> Lookup(staged, q) == Lookup(plan.fs, q)
    ensures CommitSucceeds(staged, t, plan.newDataset, plan.overwrite) <==> !DescriptorShadowed(t, names)
  {
    if t.name !in names {
      NewDatasetCommit(fs, t, staged);
    } else if plan.overwrite {
      OverwriteCommit(fs, t, staged);
    } else {
      NewVersionCommit(fs, t, staged);
    }
  }

  /** An overwrite's version directory holds the `data.json` just read, so
      it is a directory. */
  lemma OverwriteCommit(fs: Fs, t: Target, staged: Fs)
    requires Valid(fs) && IsDir(fs, DatasetDir(t.name))
    requires DataJson(VersionDir(t.name, t.version)) in fs.nodes
    requires IsDir(staged, PartDir(t.name, t.version))
    requires forall q :: !Under(PartDir(t.name, t.version), q) ==> Lookup(staged, q) == Lookup(fs, q)
    ensures CommitSucceeds(staged, t, false, true)
  {
    var vDir := VersionDir(t.name, t.version);
    LayoutDisjoint(t.name, t.version);
    assert Lookup(staged, vDir) == Lookup(fs, vDir);
    assert Parent(DataJson(vDir)) == vDir;
    assert Lookup(staged, DatasetDir(t.name)) == Lookup(fs, DatasetDir(t.name));
  }

  /** A new version of a listed dataset is never named "dataset.json", as
      its directory would be the descriptor just read, and that descriptor
      is a document. */
  lemma NewVersionCommit(fs: Fs, t: Target, staged: Fs)
    requires IsDir(fs, DatasetDir(t.name))
    requires DatasetJson(t.name) in fs.nodes && fs.nodes[DatasetJson(t.name)].Document?
    requires VersionDir(t.name, t.version) !in fs.nodes
    requires forall q :: !Under(VersionDir(t.name, t.version), q) ==> Lookup(staged, q) == Lookup(fs, q)
    ensures t.version != "dataset.json" && CommitSucceeds(staged, t, false, false)
  {
    var dj := DatasetJson(t.name);
    LayoutDisjoint(t.name, t.version);
    assert Lookup(staged, dj) == Lookup(fs, dj);
    assert Lookup(staged, DatasetDir(t.name)) == Lookup(fs, DatasetDir(t.name));
  }

  /** For a new dataset, `dataset.json` is free unless the version directory
      took its place, and `repo.json` is the document it was. */
  lemma NewDatasetCommit(fs: Fs, t: Target, staged: Fs)
    requires Valid(fs) && RepoJson in fs.nodes && fs.nodes[RepoJson].Document?
    requires Mkdir(fs, DatasetDir(t.name)).Ok?
    requires IsDir(staged, VersionDir(t.name, t.version))
    requires forall q :: !Under(VersionDir(t.name, t.version), q) ==> Lookup(staged, q) == Lookup(Mkdir(fs, DatasetDir(t.name)).value, q)
    ensures CommitSucceeds(staged, t, true, false) <==> t.version != "dataset.json"
  {
    var dDir, dj := DatasetDir(t.name), DatasetJson(t.name);
    LayoutDisjoint(t.name, t.version);
    EmptySlotOfValid(fs, dDir);
    assert Under(dDir, dj);
    assert Lookup(staged, dDir) == Some(Directory);
    assert Lookup(staged, []) == Lookup(fs, []) && Lookup(staged, RepoJson) == Lookup(fs, RepoJson);
    if t.version != "dataset.json" {
      assert Lookup(staged, dj) == None;
    }
  }

  /** The guarded block from staging on, once the plan is fixed: stage and
      verify, roll back if that raised, then commit.  It raises exactly when
      a stale `<version>.part` blocks the staging or a file does not verify,
      and returns "DANGER" exactly when the commit then fails; a "DANGER"
      return has touched only the dataset directory and `repo.json`. */
  method Retrieve(fs: Fs, server: Server, sha256: string -> string, t: Target, names: seq<string>, plan: Plan)
    returns (out: GetOutcome, after: Fs)
    requires Valid(fs) && LocalRepo(fs) == Ok(names) && Planned(fs, t, names, plan)
    ensures out.Raised? || out.Retrieved? || out.Danger?
    ensures out.Raised? <==> StaleStaging(fs, t, names) || !AllVerified(server, sha256, t)
    ensures out.Danger? <==> !StaleStaging(fs, t, names) && AllVerified(server, sha256, t) && DescriptorShadowed(t, names)
    ensures out.Raised? ==> RolledBack(fs, after, t)
    ensures out.Retrieved? || out.Danger? ==> AllVerified(server, sha256, t)
    ensures out.Danger? ==> KeepsOutside(fs, after, t.name)
    ensures out.Retrieved? ==>
      && (t.name !in names ==> AddedDataset(fs, after, server, t, names))
      && (t.name in names && t.version !in LocalDataset(fs, t.name).value.versions ==>
            AddedVersion(fs, after, server, t, LocalDataset(fs, t.name).value))
      && (t.name in names && t.version in LocalDataset(fs, t.name).value.versions ==> Replaced(fs, after, server, t))
  {
    var datasetDir := DatasetDir(t.name);
    if plan.newDataset {
      EmptySlotOfValid(fs, datasetDir);
      MkdirKeepsValid(fs, datasetDir);
    }
    StagingMkdir(fs, t, names, plan);
    var err, staged := Stage(plan.fs, plan.staging, server, sha256, t);
    if err.Some? {
      if plan.newDataset {
        VersionInDataset(t.name, t.version);
      } else if Mkdir(plan.fs, plan.staging).Ok? {
        EmptySlotOfValid(fs, plan.staging);
      }
      out, after := Abort(fs, staged, t, plan.newDataset, plan.overwrite, plan.staging, err.value);
      return;
    }
    StagedCommit(fs, server, t, names, plan);
    var danger;
    danger, after := Commit(staged, t, plan.newDataset, plan.overwrite, plan.dataset, plan.names);
    if danger.Some? {
      CommitKeepsOutside(fs, plan.fs, staged, after, t, plan.staging);
      return Danger(danger.value), after;
    }
    out := Retrieved;
    if plan.newDataset {
      NewDatasetRetrieved(fs, after, server, t, names);
    } else if plan.overwrite {
      EmptySlotOfValid(fs, plan.staging);
      OverwriteRetrieved(fs, after, server, t, plan.dataset, plan.names);
    } else {
      EmptySlotOfValid(fs, plan.staging);
      NewVersionRetrieved(fs, after, server, t, LocalDataset(fs, t.name).value, plan.names);
    }
  }

  // ---------------------------------------------------------------- adm_get

  /** `adm_get`.  Before any local work the arguments are checked and the
      target resolved on the server; an unresolved target raises and no
      default version returns, both with the tree unchanged.  A version
      already present returns unchanged unless forced.  A raising call
      keeps every old node except a stale `<version>.part`.  Retrieval
      (and the "DANGER" return) happen only after every file verified, and a
      retrieval leaves exactly the new dataset, new version or replaced
      version. */
  method AdmGet(server: Server, sha256: string -> string, serverUrl: string, repoPath: string, token: string,
                force: bool, fs: Fs)
    returns (out: GetOutcome, after: Fs)
    requires Valid(fs)
    ensures var res := Resolve(server, serverUrl, repoPath, token);
      && (res.Unresolved? ==> out == Raised(res.error) && after == fs)
      && (res.NoDefault? ==> out == NoDefaultVersion(res.versions) && after == fs)
    ensures var res := Resolve(server, serverUrl, repoPath, token);
      res.Resolved? ==>
        var t := res.target;
        && (LocalRepo(fs).Err? ==> out == Raised(LocalRead(LocalRepo(fs).error)) && after == fs)
        && (out.AlreadyPresent? <==> Listed(fs, t) && !force)
        && (out.AlreadyPresent? ==> after == fs && out.identical == (LocalData(fs, t.name, t.version).value == t.data))
        && (out.Raised? ==> RolledBack(fs, after, t))
        && (out.Retrieved? || out.Danger? ==> AllVerified(server, sha256, t))
    ensures out.Retrieved? ==>
      var t := Resolve(server, serverUrl, repoPath, token).target;
      && Resolve(server, serverUrl, repoPath, token).Resolved? && LocalRepo(fs).Ok?
      && var names := LocalRepo(fs).value;
      && (t.name !in names ==> AddedDataset(fs, after, server, t, names))
      && (t.name in names ==> LocalDataset(fs, t.name).Ok?)
      && (t.name in names && t.version !in LocalDataset(fs, t.name).value.versions ==>
            AddedVersion(fs, after, server, t, LocalDataset(fs, t.name).value))
      && (t.name in names && t.version in LocalDataset(fs, t.name).value.versions ==> Replaced(fs, after, server, t))
    ensures out.Danger? ==>
      Resolve(server, serverUrl, repoPath, token).Resolved? &&
      KeepsOutside(fs, after, Resolve(server, serverUrl, repoPath, token).target.name)
    ensures Resolve(server, serverUrl, repoPath, token).Resolved? ==> !out.NoDefaultVersion?
    ensures var res := Resolve(server, serverUrl, repoPath, token);
      res.Resolved? && LocalRepo(fs).Ok? ==>
        var t, names := res.target, LocalRepo(fs).value;
        var proceeds := !PrepareRaises(fs, t, names) && !(Listed(fs, t) && !force);
        var staged := !StaleStaging(fs, t, names) && AllVerified(server, sha256, t);
        && (out.Raised? <==> PrepareRaises(fs, t, names) || (proceeds && !staged))
        && (out.Danger? <==> proceeds && staged && DescriptorShadowed(t, names))
        && (out.Retrieved? <==> proceeds && staged && !DescriptorShadowed(t, names))
  {
    var res := Resolve(server, serverUrl, repoPath, token);
    if res.Unresolved? {
      return Raised(res.error), fs;
    }
    if res.NoDefault? {
      return NoDefaultVersion(res.versions), fs;
    }
    var t := res.target;
    var localRepo := LocalRepo(fs);
    if localRepo.Err? {
      return Raised(LocalRead(localRepo.error)), fs;
    }
    var names := localRepo.value;
    var datasetDir := DatasetDir(t.name);
    var p := Prepare(fs, t, names, force);
    if p.Present? {
      return AlreadyPresent(p.identical), fs;
    }
    if p.Aborted? {
      if p.newDataset {
        EmptySlotOfValid(fs, datasetDir);
      }
      out, after := Abort(fs, p.fs, t, p.newDataset, false, VersionDir(t.name, t.version), p.error);
      return;
    }
    out, after := Retrieve(fs, server, sha256, t, names, p.plan);
  }
}
