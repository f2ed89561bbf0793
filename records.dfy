/** The descriptor records a mirror reads and writes: a File within a
    Version, a Version ("Data"), and a Dataset.  The repository record is just
    its list of dataset names and lives with each language's loader. */
module Records {
  import opened Results
  import opened Json

  /** One file of a version: name, content digest, format tag and optional
      post-download action ("" = none). */
  datatype FileRecord = FileRecord(filename: string, digest: string, format: string, onDownload: string)

  /** A version: its name, creation date, provenance and ordered file list. */
  datatype DataRecord = DataRecord(version: string, date: string, source: string, files: seq<FileRecord>)

  /** A dataset: names, provenance, default version ("" = none) and the
      versions present. */
  datatype DatasetRecord = DatasetRecord(
    shortName: string, longName: string, source: string, defaultVersion: string, versions: seq<string>)

  const EmptyFile := FileRecord("", "", "", "")
  const EmptyDataset := DatasetRecord("", "", "", "", [])

  /** File equality compares the four fields one by one. */
  predicate FileEqual(a: FileRecord, b: FileRecord)
    ensures FileEqual(a, b) <==> a == b
  {
    && a.filename == b.filename
    && a.digest == b.digest
    && a.format == b.format
    && a.onDownload == b.onDownload
  }

  /** Pairwise file comparison of two equally long lists, front to back. */
  predicate FilesEqual(a: seq<FileRecord>, b: seq<FileRecord>)
    requires |a| == |b|
    ensures FilesEqual(a, b) <==> a == b
    decreases |a|
  {
    |a| == 0 || (FileEqual(a[0], b[0]) && FilesEqual(a[1..], b[1..]))
  }

  /** Version equality: same file count, pairwise equal files, and equal
      version, date and source.  It coincides with equality of the records, so
      a local and a remote descriptor "match" exactly when nothing differs. */
  predicate DataEqual(a: DataRecord, b: DataRecord)
    ensures DataEqual(a, b) <==> a == b
  {
    if |a.files| != |b.files| then false
    else FilesEqual(a.files, b.files) && a.version == b.version && a.date == b.date && a.source == b.source
  }

  /** The file a freshly made (empty) file object holds after loading `j`, and
      the error that stopped it.  `digestKey` is the member that holds the
      digest ("SHA256sum" or "MD5sum").  `on_download` is optional; a present
      non-string one is reported under the "_FILES::format" name, as the
      source's message does. */
  function LoadFile(j: Json, digestKey: string): (r: (FileRecord, Option<MetaError>))
    ensures r.1.None? ==>
      && Member(j, "filename") == Some(JString(r.0.filename))
      && Member(j, digestKey) == Some(JString(r.0.digest))
      && Member(j, "format") == Some(JString(r.0.format))
    ensures r.0.onDownload != "" ==> r.1.None? && Member(j, "on_download") == Some(JString(r.0.onDownload))
  {
    match StringMember(j, "filename", "_FILES::filename")
    case Err(e) => (EmptyFile, Some(e))
    case Ok(name) =>
      match StringMember(j, digestKey, "_FILES::" + digestKey)
      case Err(e) => (EmptyFile.(filename := name), Some(e))
      case Ok(digest) =>
        match StringMember(j, "format", "_FILES::format")
        case Err(e) => (EmptyFile.(filename := name, digest := digest), Some(e))
        case Ok(format) =>
          var f := FileRecord(name, digest, format, "");
          match Member(j, "on_download")
          case None => (f, None)
          case Some(v) =>
            if v.JString? then (f.(onDownload := v.str), None)
            else (f, Some(NotString("_FILES::format")))
  }

  /** A file descriptor is accepted exactly when its three required members are
      strings and `on_download` is absent or a string; the record then holds
      those strings, with "" for a missing `on_download`. */
  lemma LoadFileAccepts(j: Json, digestKey: string)
    ensures LoadFile(j, digestKey).1.None? <==>
      && Member(j, "filename").Some? && Member(j, "filename").value.JString?
      && Member(j, digestKey).Some? && Member(j, digestKey).value.JString?
      && Member(j, "format").Some? && Member(j, "format").value.JString?
      && (Member(j, "on_download").None? || Member(j, "on_download").value.JString?)
    ensures LoadFile(j, digestKey).1.None? ==>
      var f := LoadFile(j, digestKey).0;
      && Member(j, "filename") == Some(JString(f.filename))
      && Member(j, digestKey) == Some(JString(f.digest))
      && Member(j, "format") == Some(JString(f.format))
      && (if Member(j, "on_download").None? then f.onDownload == "" else Member(j, "on_download") == Some(JString(f.onDownload)))
  {
  }

  /** Loading a `_FILES` array element by element: each item must be an object
      and a valid file descriptor; the files loaded before the first bad item
      are kept, in order, and the error names that item's problem. */
  function LoadFiles(items: seq<Json>, digestKey: string): (r: (seq<FileRecord>, Option<MetaError>))
    ensures |r.0| <= |items|
    ensures r.1.None? ==> |r.0| == |items|
    decreases |items|
  {
    if items == [] then ([], None)
    else if !items[0].JObject? then ([], Some(NotObjectArray("_FILES")))
    else
      var (f, e) := LoadFile(items[0], digestKey);
      if e.Some? then ([], e)
      else
        var (rest, e') := LoadFiles(items[1..], digestKey);
        ([f] + rest, e')
  }

  /** Each loaded file is the load of the item at the same position. */
  lemma {:induction false} LoadFilesPointwise(items: seq<Json>, digestKey: string, i: nat)
    requires i < |LoadFiles(items, digestKey).0|
    ensures items[i].JObject?
    ensures LoadFile(items[i], digestKey) == (LoadFiles(items, digestKey).0[i], None)
    decreases i
  {
    if i > 0 {
      LoadFilesPointwise(items[1..], digestKey, i - 1);
    }
  }

  /** Where an element-by-element load of a file array stands after `i` good
      items: the next item either stops it (not an object, or an invalid file
      descriptor, and then exactly `i` files were loaded) or is loaded as file
      `i`; after the last item the load has succeeded. */
  lemma {:induction false} LoadFilesAt(items: seq<Json>, digestKey: string, i: nat)
    requires i <= |items| && i <= |LoadFiles(items, digestKey).0|
    ensures i == |items| ==> LoadFiles(items, digestKey).1.None?
    ensures i < |items| && !items[i].JObject? ==>
      |LoadFiles(items, digestKey).0| == i && LoadFiles(items, digestKey).1 == Some(NotObjectArray("_FILES"))
    ensures i < |items| && items[i].JObject? && LoadFile(items[i], digestKey).1.Some? ==>
      |LoadFiles(items, digestKey).0| == i && LoadFiles(items, digestKey).1 == LoadFile(items[i], digestKey).1
    ensures i < |items| && items[i].JObject? && LoadFile(items[i], digestKey).1.None? ==>
      i < |LoadFiles(items, digestKey).0| && LoadFiles(items, digestKey).0[i] == LoadFile(items[i], digestKey).0
    decreases i
  {
    if i > 0 {
      LoadFilesAt(items[1..], digestKey, i - 1);
    }
  }

  /** The `_FILES` member of a version descriptor: missing, not an array, or
      loaded element by element. */
  function FilesMember(j: Json, digestKey: string): (r: (seq<FileRecord>, Option<MetaError>))
  {
    match Member(j, "_FILES")
    case None => ([], Some(Missing("_FILES")))
    case Some(v) => if !v.JArray? then ([], Some(NotArray("_FILES"))) else LoadFiles(v.items, digestKey)
  }
}
