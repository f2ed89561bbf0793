# autodataman, modelled in Dafny

autodataman keeps a local mirror of datasets published on a data server. A
server and a mirror share one layout:

- `repo.json` lists the datasets;
- `<dataset>/dataset.json` describes a dataset (names, source, default version,
  versions);
- `<dataset>/<version>/data.json` describes one version (version, date,
  source and its files, each with a digest, a format and an optional
  post-download action), next to the files themselves.

The client exists twice, in Python and in C++. This project models:

- the descriptor classes of both clients:
  - validated loading from parsed JSON, where every missing or mistyped member is its own error;
  - serialisation;
  - find, add and remove on the name lists;
  - equality of version descriptors;
- the two settings stores: the C++ `key = value # comment` text file and the
  Python JSON-backed dictionary;
- the C++ command-line parser;
- the `dataset/version` specifier, with the Python split and the C++
  character loop, and the C++ resolution of the version on the server;
- `adm_get`: resolve on the server, decide from the mirror what to fetch,
  stage, verify every SHA-256 digest, roll back on failure, commit;
- `adm_remove`: its guards and its whole-dataset or single-version removal.

## How the model is built

- JSON values are a datatype (`Json.Json`): string, array, object, and
  "other" for numbers, booleans and null.
- Records are the datatypes `Records.FileRecord`, `Records.DataRecord` and
  `Records.DatasetRecord`.
- The metadata classes of each client are Dafny classes with the source's
  fields. Their loaders are methods proved against a pure load function.
- A C++ loader that fails halfway leaves the fields it has already assigned,
  and the lists it has already appended to. The contracts state that state.
- The mirror is a value of type `FileTree.Fs`: a map from paths to
  directories, JSON documents and blobs. `mkdir`, `rmtree` and file writes
  are functions on it that fail as `pathlib` and `shutil` do. `move` is
  modelled for the one use the engine makes of it: a directory moved to an
  absent name whose parent is a directory.
- The engines (`GetEngine.AdmGet`, `RemoveEngine.AdmRemove`) are methods
  that thread the tree through the steps of the source.
- The server is a parameter (`GetEngine.Server`) that answers descriptor
  requests and downloads. SHA-256 is a function parameter.
- Integers are unbounded. Nothing in the core depends on a width.

## Model

| member | source | states |
|---|---|---|
| CommandLine.Message | src/autodataman.cpp:62-111 | the returned message is empty exactly when parsing succeeded; every error yields a non-empty message |
| CommandLine.Parse | src/autodataman.cpp:55-111 | the recursive reading keeps the positionals and flags passed in with their values, adds at most one positional per remaining argument, and records only flags the specification names |
| CommandLine.ParseCommandLine | src/autodataman.cpp:46-112 | the loop returns the message, flag map and positional list of the recursive reading: dash after a positional is malformed, bare `-` skipped, unknown or repeated flag refused, too few or dash-led flag arguments refused, else arguments appended in order |
| CommandLine.PositionalsAreATail | src/autodataman.cpp:101-108 | on success the new positionals are exactly the arguments from the first positional to the end, in order, none starting with `-` |
| CommandLine.FlagsTakeTheirArguments | src/autodataman.cpp:69-99 | on success every new flag is in the specification and maps to the `n` arguments right after it, none starting with `-`; flags passed in keep their values |
| CommandLine.Examples | src/autodataman.cpp:55-111 | concrete runs: flag then positional, a skipped bare `-`, a flag after a positional, too few arguments, a dash-led flag argument |
| NameLists.FindIndex | src/autodataman/AutodatamanRepoMD.py:125-130 | -1 exactly when the item is absent, otherwise the index of its first occurrence |
| NameLists.RemoveFirstSpec | src/autodataman/AutodatamanRepoMD.py:136-139 | removal deletes only the first occurrence, keeps the others in order, and leaves a list without the name unchanged |
| NameLists.RemoveFirst | src/autodataman/AutodatamanRepoMD.py:136-139 | the list is one shorter exactly when the name is in it, and a list without the name is returned unchanged |
| NameLists.AppendThenFind | src/autodataman/AutodatamanRepoMD.py:132-134 | a name appended to a list that lacked it is found at the end |
| Records.FileEqual | src/autodataman/AutodatamanRepoMD.py:360-367 | field-wise comparison of the four fields holds exactly when the two files are equal |
| Records.FilesEqual | src/admmetadata.h:700-708 | pairwise comparison of equally long file lists holds exactly when the lists are equal |
| Records.DataEqual | src/autodataman/AutodatamanRepoMD.py:472-481 | equal file counts, pairwise equal files and equal version, date and source hold exactly when the two version records are equal |
| Records.LoadFileAccepts | src/autodataman/AutodatamanRepoMD.py:297-326 | a file descriptor loads exactly when `filename`, the digest and `format` are strings and `on_download` is absent or a string; the record then holds those strings, `""` for a missing `on_download` |
| Records.LoadFile | src/autodataman/AutodatamanRepoMD.py:297-326 | after a load without error the filename, digest and format are the descriptor's strings; a non-empty `on_download` is the descriptor's, and is kept only by a load without error |
| Records.LoadFiles | src/autodataman/AutodatamanRepoMD.py:411-416 | the files loaded from a `_FILES` array are at most as many as its items, and all of them when no item failed |
| Records.LoadFilesPointwise | src/autodataman/AutodatamanRepoMD.py:411-416 | after a load without error every item is an object and file `i` is what item `i` loads to |
| Records.LoadFilesAt | src/admmetadata.h:590-597 | the array load stops at the first item that is not an object or does not load, keeping the files before it, and otherwise continues past each item |
| PyMetadata.RepoLoadAccepts | src/autodataman/AutodatamanRepoMD.py:46-68 | the repository loader accepts a document exactly when `_REPO` has type `"autodataman"` and a version, and `_DATASETS` is an array of strings, which becomes the name list |
| PyMetadata.RepoLoad | src/autodataman/AutodatamanRepoMD.py:46-68 | loaded names are exactly the strings of `_DATASETS`, and a version is stored only once `_REPO::type` is "autodataman"; a successful load has stored one |
| PyMetadata.RepoToJson | src/autodataman/AutodatamanRepoMD.py:70-76 | the repository loader accepts every document the serialiser writes |
| PyMetadata.RepoRoundTrip | src/autodataman/AutodatamanRepoMD.py:70-76 | reloading a serialised repository restores the dataset names in order, with version `"1"` |
| PyMetadata.RepoMD.constructor | src/autodataman/AutodatamanRepoMD.py:31-36 | a new repository object has version `"1"` and no datasets |
| PyMetadata.RepoMD.Clear | src/autodataman/AutodatamanRepoMD.py:42-44 | `clear` raises a NameError before it changes anything |
| PyMetadata.RepoMD.FromJson | src/autodataman/AutodatamanRepoMD.py:46-68 | the version is stored once the checks before it pass; the name list is replaced only on success; the error is the loader's first failed check |
| PyMetadata.RepoMD.FindDataset | src/autodataman/AutodatamanRepoMD.py:125-130 | -1 exactly when the name is not listed, otherwise the index of its first occurrence |
| PyMetadata.RepoMD.AddDataset | src/autodataman/AutodatamanRepoMD.py:132-134 | appends the name at the end with no duplicate check; the version is unchanged |
| PyMetadata.RepoMD.RemoveDataset | src/autodataman/AutodatamanRepoMD.py:136-139 | drops the first occurrence of the name, if any; the version is unchanged |
| PyMetadata.DatasetLoadNeverReadsSource | src/autodataman/AutodatamanRepoMD.py:166-198 | a loaded dataset always has an empty source, and a failed load leaves no versions |
| PyMetadata.DatasetLoad | src/autodataman/AutodatamanRepoMD.py:166-198 | on success the short name, long name and default are the strings of `_DATASET`, and the versions are the strings of `_VERSIONS` |
| PyMetadata.DatasetToJson | src/autodataman/AutodatamanRepoMD.py:200-208 | the dataset loader accepts every document the serialiser writes |
| PyMetadata.DatasetRoundTrip | src/autodataman/AutodatamanRepoMD.py:200-208 | reloading a serialised dataset restores every field except `source`, which comes back empty |
| PyMetadata.DatasetMD.constructor | src/autodataman/AutodatamanRepoMD.py:145-147 | a new dataset object is empty |
| PyMetadata.DatasetMD.Clear | src/autodataman/AutodatamanRepoMD.py:149-156 | every field is reset, the version list included |
| PyMetadata.DatasetMD.SetFrom | src/autodataman/AutodatamanRepoMD.py:158-164 | copies short name, long name, source and default version, and starts with no versions |
| PyMetadata.DatasetMD.FromJson | src/autodataman/AutodatamanRepoMD.py:166-198 | after clearing, the object holds exactly what the dataset load gives, and the error is its first failed check |
| PyMetadata.DatasetMD.FindVersion | src/autodataman/AutodatamanRepoMD.py:277-281 | -1 exactly when the version is not listed, otherwise the index of its first occurrence |
| PyMetadata.DatasetMD.AddVersion | src/autodataman/AutodatamanRepoMD.py:268-270 | appends the version at the end; other fields unchanged |
| PyMetadata.DatasetMD.RemoveVersion | src/autodataman/AutodatamanRepoMD.py:272-275 | drops the first occurrence of the version, if any; other fields unchanged |
| PyMetadata.FileRoundTrip | src/autodataman/AutodatamanRepoMD.py:328-335 | reloading a serialised file restores it exactly |
| PyMetadata.FileMD.constructor | src/autodataman/AutodatamanRepoMD.py:288-289 | a new file object has four empty fields |
| PyMetadata.FileMD.Clear | src/autodataman/AutodatamanRepoMD.py:291-295 | the four fields are reset |
| PyMetadata.FileMD.FromJson | src/autodataman/AutodatamanRepoMD.py:297-326 | after clearing, the object holds exactly what the file load gives, and the error is its first failed check |
| PyMetadata.FilesToJson | src/autodataman/AutodatamanRepoMD.py:424-425 | one serialised file per file, in order |
| PyMetadata.FilesRoundTrip | src/autodataman/AutodatamanRepoMD.py:418-426 | reloading serialised files gives back the same files in order |
| PyMetadata.DataRoundTrip | src/autodataman/AutodatamanRepoMD.py:418-426 | reloading a serialised version into a fresh object restores version, date, source and files |
| PyMetadata.DataLoad | src/autodataman/AutodatamanRepoMD.py:381-416 | on success version, date and source are the strings of `_DATA`, and `_FILES` is an array with one loaded file per item |
| PyMetadata.DataReproducesCanonical | src/autodataman/AutodatamanRepoMD.py:381-426 | serialising what was loaded from a descriptor that has exactly the serialiser's members, with `on_download` on every file, reproduces the descriptor |
| PyMetadata.DataMD.constructor | src/autodataman/AutodatamanRepoMD.py:370-373 | a new version object is empty |
| PyMetadata.DataMD.Clear | src/autodataman/AutodatamanRepoMD.py:375-379 | resets version, date and source and keeps the file list |
| PyMetadata.DataMD.FromJson | src/autodataman/AutodatamanRepoMD.py:381-416 | the header holds what the load assigned, the loaded files are appended to the files already held, and the error is the first failed check |
| CppMetadata.RepoLoadAppends | src/admmetadata.h:76-82 | a successful load appends every `_DATASETS` entry in order; a non-string entry stops it after the strings before it |
| CppMetadata.RepoLoad | src/admmetadata.h:43-90 | a stored version is the string `_REPO::version` and is stored only after the type check; when none is stored the load failed and appended nothing |
| CppMetadata.RepoMD.Clear | src/admmetadata.h:35-38 | the version and the name list are emptied |
| CppMetadata.RepoMD.FromJson | src/admmetadata.h:43-90 | the version is assigned once checked, names are appended to the existing list without clearing, and the error is the first failed check |
| CppMetadata.RepoMD.FindDataset | src/admmetadata.h:180-187 | -1 exactly when the name is not listed, otherwise the index of its first occurrence |
| CppMetadata.DatasetMD.Clear | src/admmetadata.h:209-215 | every field is reset, the version list included |
| CppMetadata.DatasetLoad | src/admmetadata.h:220-274 | short name, long name and default are assigned in that order, each as the descriptor's string; the appended versions are leading strings of `_VERSIONS`, all of them on success |
| CppMetadata.DatasetMD.FromJson | src/admmetadata.h:220-274 | fields are assigned over the old ones as the checks pass, `source` is never assigned, versions are appended, and the error is the first failed check |
| CppMetadata.DatasetMD.FindVersion | src/admmetadata.h:391-398 | -1 exactly when the version is not listed, otherwise the index of its first occurrence |
| CppMetadata.FreshFileOverlay | src/admmetadata.h:436-477 | loading into a fresh file object gives the same record as the Python file load, with `MD5sum` as the digest |
| CppMetadata.FileMD.constructor | src/admmetadata.h:503-522 | a new file object has four empty fields |
| CppMetadata.FileMD.FromJson | src/admmetadata.h:436-477 | each field is overwritten once checked, a missing `on_download` keeps the old one, and the error is the first failed check |
| CppMetadata.FileMD.Equals | src/admmetadata.h:495-501 | holds exactly when the two file records are equal |
| CppMetadata.DataMD.Clear | src/admmetadata.h:533-537 | resets version, date and source and keeps the file list |
| CppMetadata.DataLoad | src/admmetadata.h:542-599 | version, date and source are assigned in that order, each as the descriptor's string; on success `_FILES` is an array with one appended file per item |
| CppMetadata.DataMD.FromJson | src/admmetadata.h:542-599 | header fields are assigned over the old ones as the checks pass, and loaded files are appended without clearing |
| CppMetadata.DataMD.Equals | src/admmetadata.h:699-712 | holds exactly when the two version records are equal |
| FileTree.Mkdir | autodataman/autodataman.py:476-477 | creating a directory fails when the path exists or its parent is not a directory, and otherwise adds exactly that directory |
| FileTree.WriteFile | autodataman/autodataman.py:557-563 | writing fails on a directory or a missing parent, and otherwise sets exactly that path |
| FileTree.Rmtree | autodataman/autodataman.py:359-363 | removal succeeds exactly when the path is a directory |
| FileTree.RmtreeSpec | autodataman/autodataman.py:359-363 | removing a directory deletes it and everything below it and nothing else |
| FileTree.MoveSpec | autodataman/autodataman.py:672-673 | a move puts the subtree at the destination, removes it at the source, and keeps everything else |
| FileTree.Move | autodataman/autodataman.py:672-673 | the move succeeds exactly when the source exists, neither path lies below the other, nothing exists at or below the destination and its parent is a directory; an existing destination is reported as already existing |
| FileTree.ReadDocument | src/autodataman/AutodatamanRepoMD.py:101-112 | reading succeeds exactly on a stored document and returns it |
| FileTree.MkdirKeepsValid | autodataman/autodataman.py:476-477 | creating a directory keeps every node's parent a directory |
| FileTree.WriteFileKeepsValid | autodataman/autodataman.py:557-563 | writing a file keeps every node's parent a directory |
| FileTree.RmtreeKeepsValid | autodataman/autodataman.py:359-363 | removing a tree keeps every node's parent a directory |
| FileTree.MoveKeepsValid | autodataman/autodataman.py:672-673 | moving a tree keeps every node's parent a directory |
| Mirror.LayoutDisjoint | autodataman/autodataman.py:545-546 | the staging `<version>.part`, the version directory and `dataset.json` are distinct siblings with none below another, unless the version is itself named `dataset.json` |
| Mirror.LocalRepoAfterWrite | autodataman/autodataman.py:683-688 | a written `repo.json` reads back as the same name list |
| Mirror.LocalDatasetAfterWrite | autodataman/autodataman.py:675-680 | a written `dataset.json` reads back as the same dataset with an empty source |
| Mirror.ReadRepo | autodataman/autodataman.py:449-451 | reading the local repository fails exactly as its read or load fails, and otherwise gives the listed names |
| Mirror.ReadDataset | autodataman/autodataman.py:498-499 | reading a local dataset fails exactly as its read or load fails, and otherwise gives its record |
| Mirror.ReadData | autodataman/autodataman.py:518-519 | reading a local version fails exactly as its read or load fails, and otherwise gives its record |
| Mirror.LocalRepo | src/autodataman/AutodatamanRepoMD.py:101-112 | unreadable exactly when `repo.json` is not a stored document; the names read are the strings of its `_DATASETS` |
| Mirror.LocalDataset | src/autodataman/AutodatamanRepoMD.py:224-235 | unreadable exactly when `dataset.json` is not a stored document; the record read has an empty source and the versions of `_VERSIONS` |
| Mirror.LocalData | src/autodataman/AutodatamanRepoMD.py:449-459 | unreadable exactly when `data.json` is not a stored document; the record read has one file per `_FILES` item |
| Specifier.Pieces | autodataman/autodataman.py:53-54 | the split has one piece exactly when the token has no slash |
| Specifier.PiecesHaveNoSlash | autodataman/autodataman.py:54 | no piece of the split holds a slash |
| Specifier.JoinPieces | autodataman/autodataman.py:54 | joining the pieces with slashes restores the token |
| Specifier.NameVersion | autodataman/autodataman.py:52-62 | the split succeeds exactly when the token has at most two pieces |
| Specifier.NameVersionRejects | autodataman/autodataman.py:55-56 | the only error is a token with two slashes |
| Specifier.NameVersionSplits | autodataman/autodataman.py:53-61 | without a slash the name is the token and the version empty; with one slash the token is `name/version` |
| Specifier.NameVersionRoundTrip | autodataman/autodataman.py:52-62 | any slash-free name and version come back out of `name/version` |
| Specifier.NameVersionEmptyParts | autodataman/autodataman.py:57-58 | a leading or trailing slash is accepted and leaves the name or the version empty |
| Specifier.NameVersionTwoSlashes | autodataman/autodataman.py:55-56 | `a/b/c` is refused |
| Specifier.CppNameVersion | src/autodataman.cpp:478-498 | an accepted token has a non-empty name and a slash-free version, which is non-empty when the token holds a slash |
| Specifier.ParseSpecifier | src/autodataman.cpp:475-498 | the character loop gives the outcome of the specifier split, including every error |
| Specifier.SplittersAgreeWithoutSlash | src/autodataman.cpp:496-498 | without a slash both clients take the whole token as the name and an empty version |
| Specifier.CppDropsLastNameCharacter | src/autodataman.cpp:492-493 | with one inner slash the C++ name loses its last character while the Python name is whole |
| Specifier.CppRejects | src/autodataman.cpp:478-491 | for every token: an empty one or one starting with a slash lacks the name, a name followed by a final slash lacks the version, and a second slash after a non-empty name is refused |
| Specifier.CppTwoSlashes | src/autodataman.cpp:483-485 | `a/b/c` is refused |
| Specifier.CppShortNames | src/autodataman.cpp:492-498 | for every one-character name and slash-free non-empty version, the name is cut to nothing and falls back to the whole token, version included |
| Specifier.ResolveOnServer | src/autodataman.cpp:500-532 | a resolved target has a listed name, is fetched by the whole token, and has a non-empty version listed by the dataset: the requested one, or the default when none was requested |
| Specifier.ResolveOnServerSucceeds | src/autodataman.cpp:505-532 | a listed dataset with the requested (or a non-empty default) version listed always resolves |
| Specifier.ResolveEmptyDefault | src/autodataman.cpp:517-523 | an empty default fails the resolution exactly when no version was requested |
| GetEngine.ResolveSpec | autodataman/autodataman.py:385-447 | empty arguments never resolve; a resolved target is a listed dataset at a listed, non-empty version (the requested one or the default) with the server's records; no default lists the server's versions |
| GetEngine.Resolve | autodataman/autodataman.py:385-447 | a repository path shorter than two characters or a malformed specifier never resolves; a resolved target is a dataset the server lists, at a non-empty version its descriptor lists |
| GetEngine.StagedTreeOutside | autodataman/autodataman.py:555-588 | staging changes nothing outside the staging directory |
| GetEngine.FetchFile | autodataman/autodataman.py:572-606 | one download succeeds exactly when the file's digest matches; the error is a failed download exactly when the request itself failed; a failed request writes nothing, a mismatch leaves the written file, and the error names the file |
| GetEngine.DownloadFiles | autodataman/autodataman.py:572-606 | the loop writes the files in order and stops at the first that fails to download or verify; a failed request leaves the files before it, a mismatch also leaves the failing file; success means every file verified |
| GetEngine.Stage | autodataman/autodataman.py:554-606 | staging succeeds exactly when the directory can be created and every file verifies; it touches only the staging directory, which holds `data.json` and the files |
| GetEngine.Prepare | autodataman/autodataman.py:469-549 | a listed version returns without change unless forced, reporting whether the descriptors match; the call aborts exactly when a new dataset's directory exists, the root is not a directory or the new version directory exists, or when an existing dataset's directory is not a directory, its descriptor is damaged, or the version is listed with a damaged `data.json` or unlisted with its directory present; otherwise the plan is a new dataset, a new version, or an overwrite staged in `<version>.part` |
| GetEngine.Rollback | autodataman/autodataman.py:643-661 | removes the new dataset's directory, else the overwrite's staging directory, each only if present; a failing removal replaces the error |
| GetEngine.Abort | autodataman/autodataman.py:643-661 | a raising call keeps every old node except below `<version>.part`, and adds nodes only below the version directory |
| GetEngine.Commit | autodataman/autodataman.py:666-694 | an overwrite replaces the version directory by the staging directory; otherwise `dataset.json` is rewritten; a new dataset also rewrites `repo.json`; the commit fails exactly when one of these places is not where it must be (dataset directory, version and staging directories of an overwrite, a `dataset.json` that is not a directory, a root directory without a `repo.json` directory); a failing commit has changed only the dataset directory and `repo.json` |
| GetEngine.ReplaceVersion | autodataman/autodataman.py:668-673 | succeeds exactly when the version directory is a directory, `<version>.part` exists and the dataset directory is a directory; on success the version directory holds what `<version>.part` held and `<version>.part` is gone; failing or not, only the dataset directory changes |
| GetEngine.NewDatasetRetrieved | autodataman/autodataman.py:470-485 | a new dataset leaves its directory, a descriptor listing only this version, the staged version directory and `repo.json` with the dataset appended, and nothing else changed |
| GetEngine.NewVersionRetrieved | autodataman/autodataman.py:507-514 | a new version leaves the staged version directory and `dataset.json` with the version appended, and nothing else changed |
| GetEngine.OverwriteRetrieved | autodataman/autodataman.py:668-673 | an overwrite leaves the new download in the version directory, no `<version>.part`, and nothing else changed |
| GetEngine.StagingMkdir | autodataman/autodataman.py:546-555 | creating the staging directory of a planned retrieval fails exactly when an overwrite finds `<version>.part` already present |
| GetEngine.StagedCommit | autodataman/autodataman.py:666-695 | after staging, the commit succeeds exactly unless a new dataset's version is named `dataset.json`, whose version directory then stands where the dataset descriptor must be written |
| GetEngine.CommitOnStaged | autodataman/autodataman.py:666-695 | on any tree that holds the staging directory and otherwise agrees with the planned tree, the commit succeeds exactly unless a new dataset's version is named `dataset.json` |
| GetEngine.NewDatasetCommit | autodataman/autodataman.py:674-688 | a new dataset whose version is not `dataset.json` can write both descriptors after staging |
| GetEngine.NewVersionCommit | autodataman/autodataman.py:674-680 | a new version of a listed dataset can write `dataset.json` after staging, as that version cannot be named `dataset.json` |
| GetEngine.OverwriteCommit | autodataman/autodataman.py:668-673 | an overwrite finds its version directory and its staging directory in place after staging |
| RemoveEngine.RewriteAfterRemoval | autodataman/autodataman.py:359-380 | once the checks pass the removal succeeds, and the descriptor write fails exactly when the whole dataset is removed from a root that is not a directory |
| GetEngine.Retrieve | autodataman/autodataman.py:551-694 | from a fixed plan the call raises, after rolling back, exactly when an overwrite finds a stale `<version>.part` or some file fails to verify; it returns "DANGER" exactly when everything verified but a new dataset's version is named `dataset.json`, having changed only the dataset directory and `repo.json`; otherwise it retrieves with exactly the new dataset, new version or replaced version |
| GetEngine.AdmGet | autodataman/autodataman.py:385-697 | unresolved calls raise and no default returns, both with the tree unchanged, and a resolved target never reports a missing default; a listed version returns unchanged unless forced; with a readable `repo.json` the call raises exactly when preparation aborts or, going ahead, the staging directory is stale or a file fails to verify, returns "DANGER" exactly when a new dataset's version is named `dataset.json`, and retrieves otherwise; a raise rolls back; retrieval leaves exactly the new dataset, new version or replaced version |
| RemoveEngine.PrecheckGuards | autodataman/autodataman.py:321-333 | with no version, removal needs `-a` exactly when two or more versions are present; a named version needs only its directory |
| RemoveEngine.Precheck | autodataman/autodataman.py:281-357 | passing every check means a repository path of two or more characters, a valid specifier, readable repository and dataset descriptors, a dataset directory, and either `-a` or at most one version, or a named version's directory |
| RemoveEngine.AdmRemove | autodataman/autodataman.py:280-383 | a failed check changes nothing; after the checks pass the call succeeds unless the whole dataset is removed from a root that is not a directory, which returns "DANGER"; success removes the dataset directory and drops the dataset from `repo.json`, or removes the version directory and drops the version from `dataset.json`; a "DANGER" return leaves exactly the tree after the removal |
| RemoveEngine.RemoveAndRewrite | autodataman/autodataman.py:359-380 | fails exactly when the descriptor cannot be written into the tree the removal left; then the tree is as the removal left it; otherwise the directory is gone, the descriptor holds the new document and nothing else changed |
| JsonNamelist.Without | autodataman/Namelist.py:39 | removing `_` keeps exactly the other characters, and is empty exactly when every character was `_` |
| JsonNamelist.KeyError | autodataman/Namelist.py:37-40 | a refused key is reported as empty or as malformed |
| JsonNamelist.KeyErrorSpec | autodataman/Namelist.py:37-40 | a key is accepted exactly when it starts with a letter or `_` and has at least one letter or digit, with only letters, digits and `_` |
| JsonNamelist.ValidNameVersusTextKey | src/Namelist.h:141-152 | a key the JSON store accepts is accepted by the text file, which also accepts keys made only of `_` |
| JsonNamelist.FirstKeyErrorSpec | autodataman/Namelist.py:35-40 | loading fails exactly when some key is invalid, and reports the first invalid key |
| JsonNamelist.AsMapKeys | autodataman/Namelist.py:35-42 | the dictionary holds exactly the loaded keys |
| JsonNamelist.AsMapLast | autodataman/Namelist.py:41 | each key maps to the value of its last occurrence |
| JsonNamelist.Namelist.constructor | autodataman/Namelist.py:9-10 | a new store is empty |
| JsonNamelist.Namelist.FromFile | autodataman/Namelist.py:12-42 | a non-empty store is refused; otherwise an invalid key fails without change, and success replaces the store by the loaded dictionary |
| JsonNamelist.Namelist.Get | autodataman/Namelist.py:55-57 | the stored value, or none exactly when the key is missing |
| JsonNamelist.Namelist.Set | autodataman/Namelist.py:59-61 | inserts or overwrites one key, a later get returns the new value, and other keys keep theirs |
| JsonNamelist.Namelist.Settings | autodataman/Namelist.py:63-64 | the whole store: exactly the keys get finds, with the values it returns |
| JsonNamelist.RecognisedSettingsAreValidNames | autodataman/autodataman.py:24-27 | every recognised setting can be stored in either settings file |
| JsonNamelist.IsValidVariable | autodataman/autodataman.py:24-27 | every recognised setting is a name the JSON settings store accepts |
| TextNamelist.SkipBlanks | src/Namelist.h:45-51 | the first position holding no space or tab, with only blanks before it |
| TextNamelist.BackBlanks | src/Namelist.h:52-58 | the position after the last non-blank, with only blanks after it |
| TextNamelist.TrimSpec | src/Namelist.h:39-64 | the trim is empty exactly for an all-blank string, otherwise it is the part between the leading and trailing blanks and starts and ends with a non-blank |
| TextNamelist.Trim | src/Namelist.h:39-64 | the trim is no longer than the string and, when non-empty, starts and ends with a non-blank |
| TextNamelist.RemoveWhitespace | src/Namelist.h:39-64 | the counting loops give the trim of the string |
| TextNamelist.UncommentedSpec | src/Namelist.h:103-106 | the comment-free text is the longest prefix without `#` |
| TextNamelist.ScanFromSpec | src/Namelist.h:93-107 | the scan from any position keeps the text whole without `=`, cuts it at its only `=`, and fails exactly on a second `=` before the comment |
| TextNamelist.SplitLineSpec | src/Namelist.h:93-118 | the same for a whole line |
| TextNamelist.ScanLine | src/Namelist.h:93-107 | the scan loop gives the split of the line |
| TextNamelist.CheckKey | src/Namelist.h:141-152 | the key loop accepts exactly an empty key or a letter or `_` followed by letters, digits and `_` |
| TextNamelist.ParseLine | src/Namelist.h:93-157 | a pair's key is valid; a refusal is the second-`=` error or names the counter the line was read with |
| TextNamelist.LineCounter | src/Namelist.h:88-158 | a file yields at most one pair per line, and a reported error names the starting counter plus the number of pairs read before it |
| TextNamelist.ParseFile | src/Namelist.h:86-161 | at most one pair per line, and a reported line number is one more than the number of pairs read before it |
| TextNamelist.TrimmedValueWritable | src/Namelist.h:116-122 | a trimmed value taken after the only `=` of comment-free text has no `=` or `#` and no blank at either end |
| TextNamelist.ParsedPairIsWritable | src/Namelist.h:109-156 | every pair a line yields is one `ToFile` writes back in a form read back unchanged |
| TextNamelist.Rendered | src/Namelist.h:179-181 | one written line per pair |
| TextNamelist.ParseWrittenLine | src/Namelist.h:109-156 | a written `key=value` line of a writable pair parses back to that pair |
| TextNamelist.CollectPairs | src/Namelist.h:88-159 | lines that each parse to a pair yield those pairs in file order |
| TextNamelist.FileRoundTrip | src/Namelist.h:179-181 | reading back what `ToFile` wrote restores the pairs in order |
| TextNamelist.ReadLine | src/Namelist.h:92-157 | the body of the line loop gives the line's parse: skip, pair, or the error with the current line counter |
| TextNamelist.Namelist.constructor | src/Namelist.h:205 | a new namelist has no pairs |
| TextNamelist.Namelist.FromFile | src/Namelist.h:70-162 | a non-empty namelist is refused unchanged; otherwise the pairs and error are those of reading the lines in order |
| TextNamelist.Namelist.ToFile | src/Namelist.h:167-184 | one `key=value` line per pair, in stored order |
| TextNamelist.Namelist.Entry | src/Namelist.h:189-199 | the slot of the first pair with the key; when none exists `(key, "")` is appended and the other pairs are unchanged |

## Left out

- HTTP and the server: descriptor fetches and downloads are answers of the
  `Server` parameter. A request that raises is a missing answer. An error page
  is content like any other. URLs, the `.json` to `.txt` fallback and libcurl
  are not modelled.
- SHA-256 is a function parameter, and the chunked streaming download is one
  string per file.
- Reading and writing descriptor files are node reads and writes in the
  tree. The JSON parser and serialiser are not modelled: a document is stored
  as a JSON value.
- Faults of the file system beyond those the tree model produces (permissions,
  full disks, a failure in the middle of a write or of `rmtree`) are not
  modelled.
- `pathlib` path normalisation is not modelled: a name is one path
  component, and `""`, `"."`, `".."` or names holding `/` are not treated
  specially.
- The on-download step of `adm_get` (the user settings lookup, `LoadFromUser`
  and the shell command run through `subprocess`) is not modelled.
- Printing, `summary()`, `adm_info`, `adm_list`, `adm_avail`, `main` and the
  argument dispatch of both clients are not modelled.
- The C++ `adm_get` after version resolution and the C++ `adm_remove` are
  stubs and are not modelled. The C++ `from_server` is assumed to succeed, as
  its `_ASSERT` demands.
- JSON numbers, booleans and null are one "other" value. Member lookup on a
  value that is not an object is "missing". In Python the same lookup on a
  string or a list raises a different exception, but it raises all the same.
- Python list aliasing is not modelled: `admlocaldata = admserverdata`
  shares one object that is not changed afterwards, so values are used.
- Blanks are space and tab, and letters and digits are ASCII. Python
  `isalpha` and `isalnum` also accept other Unicode letters and digits.
- An empty command-line argument, which the C++ parser asserts against, is
  read as a positional.
- RemoveEngine.AdmRemove: the `is None` tests of the source never fire
  against the `-1` that `find_*` returns, so an unlisted dataset or version is
  not reported. A version directory that exists is removed even if the
  dataset descriptor does not list it. A KeyError for an unlisted version is
  what the comment in the source intends, but the model follows the code.
- GetEngine.AdmGet: a failed download of a new version of an existing
  dataset leaves the version directory in place, as the rollback of the source
  does. A stale `<version>.part` from an earlier run is deleted by the
  rollback of an overwrite.
- GetEngine.Stage: the order "`data.json` before any download" is part of the
  staged tree (`StagedTree`), not a separate temporal property.
- PyMetadata.RepoMD.Clear: `clear` calls `version()` unqualified, so in
  Python it raises a NameError. The model reports that and changes nothing.
- Specifier.CppNameVersion: the C++ loop cuts the name with
  `substr(0, i-1)`, one character short. The model keeps that behaviour, and
  the name then falls back to the whole token when it is cut to nothing.
- JsonNamelist: `ToJSON` and `ToFile` hand the store to `json.dump`; the
  store itself is what `Settings` returns, and the file write is not modelled.
- The settings path discovery (home directory lookup) is not modelled.
- FileTree.Move: `shutil.move` onto an existing directory moves the source
  inside it, and with a missing destination parent it falls back to a copy
  that creates the parents. The model reports an existing destination and
  the parent error instead. The commit never meets either case.
- CommandLine.ParseCommandLine: the flag specification maps flags to natural
  numbers, where the C++ `CommandLineFlagSpec` maps them to `int`. Every
  caller passes 1, and a negative argument count is not modelled.
