/** Splitting a `dataset[/version]` token, as the Python client does it
    (`str.split('/')`) and as the C++ client's character loop does it, and the
    C++ client's resolution of the requested version against a server. */
module Specifier {
  import opened Results
  import NameLists

  datatype SpecifierError = MissingName | MissingVersion | MultipleSlash

  // ---------------------------------------------------------------- Python

  /** `t.split('/')`: the pieces between slashes, in order. */
  function Pieces(t: string): (r: seq<string>)
    ensures |r| >= 1
    ensures |r| == 1 <==> '/' !in t
    decreases |t|
  {
    var k := NameLists.FindIndex(t, '/');
    if k == -1 then [t] else [t[..k]] + Pieces(t[k + 1..])
  }

  /** No piece holds a slash. */
  lemma {:induction false} PiecesHaveNoSlash(t: string, i: nat)
    requires i < |Pieces(t)|
    ensures '/' !in Pieces(t)[i]
    decreases |t|
  {
    var k := NameLists.FindIndex(t, '/');
    if k != -1 && i > 0 {
      assert Pieces(t)[i] == Pieces(t[k + 1..])[i - 1];
      PiecesHaveNoSlash(t[k + 1..], i - 1);
    }
  }

  /** `'/'.join(pieces)`. */
  function Join(pieces: seq<string>): string
    requires |pieces| >= 1
  {
    if |pieces| == 1 then pieces[0] else pieces[0] + "/" + Join(pieces[1..])
  }

  /** Joining the pieces back with slashes restores the token. */
  lemma {:induction false} JoinPieces(t: string)
    ensures Join(Pieces(t)) == t
    decreases |t|
  {
    var k := NameLists.FindIndex(t, '/');
    if k != -1 {
      PiecesAt(t, k);
      JoinCons(t[..k], Pieces(t[k + 1..]));
      JoinPieces(t[k + 1..]);
      CutAtSlash(t, k);
    }
  }

  lemma PiecesAt(t: string, k: int)
    requires k == NameLists.FindIndex(t, '/') && k != -1
    ensures Pieces(t) == [t[..k]] + Pieces(t[k + 1..])
  {
  }

  lemma JoinCons(head: string, tail: seq<string>)
    requires |tail| >= 1
    ensures Join([head] + tail) == head + "/" + Join(tail)
  {
    assert ([head] + tail)[1..] == tail;
  }

  lemma CutAtSlash(t: string, k: int)
    requires 0 <= k < |t| && t[k] == '/'
    ensures t[..k] + "/" + t[k + 1..] == t
  {
    assert t == t[..k] + [t[k]] + t[k + 1..];
  }

  /** `get_dataset_name_version`. */
  function NameVersion(t: string): (r: Result<(string, string), SpecifierError>)
    ensures r.Ok? <==> |Pieces(t)| <= 2
  {
    if '/' in t then
      var tmp := Pieces(t);
      if |tmp| > 2 then Err(MultipleSlash) else Ok((tmp[0], tmp[1]))
    else Ok((t, ""))
  }

  /** The only error is a second slash. */
  lemma NameVersionRejects(t: string)
    ensures NameVersion(t).Err? <==> exists i, j :: 0 <= i < j < |t| && t[i] == '/' && t[j] == '/'
  {
    var k := NameLists.FindIndex(t, '/');
    if k != -1 {
      var rest := t[k + 1..];
      assert NameVersion(t).Err? <==> '/' in rest;
      if '/' in rest {
        var m := NameLists.FindIndex(rest, '/');
        assert t[k] == '/' && t[k + 1 + m] == '/';
      }
      forall i, j | 0 <= i < j < |t| && t[i] == '/' && t[j] == '/'
        ensures '/' in rest
      {
        NameLists.FindIndexBefore(t, '/', i);
        assert rest[j - k - 1] == '/';
      }
    }
  }

  /** A successful split either finds no slash or cuts the token at its only
      slash; neither part holds a slash. */
  lemma NameVersionSplits(t: string)
    ensures var r := NameVersion(t);
      r.Ok? ==> '/' !in r.value.0 && '/' !in r.value.1
    ensures var r := NameVersion(t);
      r.Ok? ==> (r.value == (t, "") && '/' !in t) || r.value.0 + "/" + r.value.1 == t
  {
    if '/' in t && |Pieces(t)| == 2 {
      JoinPieces(t);
      PiecesHaveNoSlash(t, 0);
      PiecesHaveNoSlash(t, 1);
      assert Pieces(t)[1..] == [Pieces(t)[1]];
    }
  }

  /** Any name and version without slashes come back out of `name/version`,
      empty ones included. */
  lemma NameVersionRoundTrip(name: string, version: string)
    requires '/' !in name && '/' !in version
    ensures NameVersion(name + "/" + version) == Ok((name, version))
  {
    var t := name + "/" + version;
    NameLists.FindIndexAppend(name, "/" + version, '/');
    assert t == name + ("/" + version);
    assert t[..|name|] == name && t[|name| + 1..] == version;
    PiecesAt(t, |name|);
    assert Pieces(version) == [version];
    assert Pieces(t) == [name, version];
  }

  /** A trailing or a leading slash is accepted, leaving one part empty. */
  lemma NameVersionEmptyParts()
    ensures NameVersion("era5/") == Ok(("era5", ""))
    ensures NameVersion("/v1") == Ok(("", "v1"))
  {
    NameVersionRoundTrip("era5", "");
    assert "era5" + "/" + "" == "era5/";
    NameVersionRoundTrip("", "v1");
    assert "" + "/" + "v1" == "/v1";
  }

  lemma NameVersionTwoSlashes()
    ensures NameVersion("a/b/c") == Err(MultipleSlash)
  {
    var t := "a/b/c";
    assert t[1] == '/' && t[3] == '/';
    NameVersionRejects(t);
  }

  // ---------------------------------------------------------------- C++

  /** What the C++ character loop produces: the checks attached to the first
      slash come before the check for a second one, the name is cut one
      character short (`substr(0, i-1)`), and an empty name falls back to the
      whole token. */
  function CppNameVersion(t: string): (r: Result<(string, string), SpecifierError>)
    ensures r.Ok? ==> r.value.0 != ""
    ensures r.Ok? ==> '/' !in r.value.1
    ensures r.Ok? && '/' in t ==> r.value.1 != ""
  {
    if t == [] then Err(MissingName)
    else
      var k := NameLists.FindIndex(t, '/');
      if k == -1 then Ok((t, ""))
      else if k == 0 then Err(MissingName)
      else if k == |t| - 1 then Err(MissingVersion)
      else if '/' in t[k + 1..] then Err(MultipleSlash)
      else Ok((if k == 1 then t else t[..k - 1], t[k + 1..]))
  }

  /** The specifier loop of `adm_get`. */
  method ParseSpecifier(t: string) returns (r: Result<(string, string), SpecifierError>)
    ensures r == CppNameVersion(t)
  {
    if |t| == 0 {
      return Err(MissingName);
    }
    ghost var k := -1;  // the first slash, once the loop has passed it
    var name, version := "", "";
    var i := 0;
    while i < |t|
      invariant 0 <= i <= |t|
      invariant k == -1 ==> name == "" && version == "" && '/' !in t[..i]
      invariant k != -1 ==> 0 < k < |t| - 1 && k < i && t[k] == '/' && '/' !in t[..k]
      invariant k != -1 ==> '/' !in t[k + 1..i] && name == t[..k - 1] && version == t[k + 1..]
    {
      if t[i] == '/' {
        if name != "" || version != "" {
          FirstSlashAt(t, k);
          assert t[k + 1..][i - k - 1] == '/';
          return Err(MultipleSlash);
        }
        FirstSlashAt(t, i);
        if i == 0 {
          return Err(MissingName);
        }
        if i == |t| - 1 {
          return Err(MissingVersion);
        }
        name := t[..i - 1];
        version := t[i + 1..];
        k := i;
      } else {
        assert t[..i + 1] == t[..i] + [t[i]];
        assert k != -1 ==> t[k + 1..i + 1] == t[k + 1..i] + [t[i]];
      }
      i := i + 1;
    }
    if k == -1 {
      assert t[..i] == t;
    } else {
      FirstSlashAt(t, k);
      assert t[k + 1..i] == t[k + 1..];
    }
    if name == "" {
      name := t;
    }
    r := Ok((name, version));
  }

  /** A slash with none before it is the one `FindIndex` finds. */
  lemma FirstSlashAt(t: string, k: int)
    requires 0 <= k < |t| && t[k] == '/' && '/' !in t[..k]
    ensures NameLists.FindIndex(t, '/') == k
  {
    assert t == t[..k] + t[k..];
    NameLists.FindIndexAppend(t[..k], t[k..], '/');
  }

  /** Without a slash both splitters give the whole token and an empty version. */
  lemma SplittersAgreeWithoutSlash(t: string)
    requires t != "" && '/' !in t
    ensures CppNameVersion(t) == NameVersion(t) == Ok((t, ""))
  {
  }

  /** With a slash, the C++ name loses its last character where the Python
      name keeps it. */
  lemma CppDropsLastNameCharacter(name: string, version: string)
    requires '/' !in name && '/' !in version
    requires |name| >= 2 && version != ""
    ensures CppNameVersion(name + "/" + version) == Ok((name[..|name| - 1], version))
    ensures NameVersion(name + "/" + version) == Ok((name, version))
  {
    var t := name + "/" + version;
    NameLists.FindIndexAppend(name, "/" + version, '/');
    assert t == name + ("/" + version);
    assert t[..|name| - 1] == name[..|name| - 1] && t[|name| + 1..] == version;
    NameVersionRoundTrip(name, version);
  }

  /** The error rules of the C++ loop, for every token: nothing before the
      first slash lacks the name, nothing after it lacks the version, and a
      second slash after a non-empty name is refused. */
  lemma CppRejects(name: string, rest: string)
    requires '/' !in name
    ensures CppNameVersion("") == Err(MissingName)
    ensures CppNameVersion("/" + rest) == Err(MissingName)
    ensures name != "" ==> CppNameVersion(name + "/") == Err(MissingVersion)
    ensures name != "" && '/' in rest ==> CppNameVersion(name + "/" + rest) == Err(MultipleSlash)
  {
    FirstSlashAt("/" + rest, 0);
    if name != "" {
      assert (name + "/")[|name|] == '/' && (name + "/")[..|name|] == name;
      FirstSlashAt(name + "/", |name|);
      var t := name + "/" + rest;
      assert t[|name|] == '/' && t[..|name|] == name && t[|name| + 1..] == rest;
      FirstSlashAt(t, |name|);
    }
  }

  lemma CppTwoSlashes()
    ensures CppNameVersion("a/b/c") == Err(MultipleSlash)
  {
    var t := "a/b/c";
    NameLists.FindIndexAppend("a", "/b/c", '/');
    assert t == "a" + "/b/c";
    assert t[2..][1] == '/';
  }

  /** A one-character name is cut to nothing and falls back to the whole
      token, version included. */
  lemma CppShortNames(name: string, version: string)
    requires |name| == 1 && name[0] != '/'
    requires '/' !in version && version != ""
    ensures CppNameVersion(name + "/" + version) == Ok((name + "/" + version, version))
  {
    var t := name + "/" + version;
    assert t[1] == '/' && t[..1] == name && t[2..] == version;
    FirstSlashAt(t, 1);
  }

  // ---------------------------------------------------------------- server side

  datatype ResolveError = BadSpecifier(SpecifierError) | DatasetNotOnServer(token: string)
    | NoDefaultVersion(name: string) | VersionNotOnServer(version: string)

  /** The server-side record of one dataset: its version list and default. */
  datatype ServerDataset = ServerDataset(versions: seq<string>, defaultVersion: string)

  /** What `adm_get` has resolved before it turns to the local repository: the
      dataset name, the version, and the token under which the dataset and
      version descriptors are fetched. */
  datatype Resolution = Resolution(name: string, version: string, fetchKey: string)

  /** Version resolution of the C++ `adm_get`.  `serverNames` is the server's
      dataset list and `serverDataset(key)` the dataset descriptor fetched
      under `key`; the name is looked up in the list, but the descriptor is
      fetched under the whole token, version part included. */
  function ResolveOnServer(t: string, serverNames: seq<string>, serverDataset: string -> ServerDataset)
    : (r: Result<Resolution, ResolveError>)
    ensures r.Ok? ==> CppNameVersion(t).Ok? && r.value.name == CppNameVersion(t).value.0
    ensures r.Ok? ==> r.value.name in serverNames && r.value.fetchKey == t
    ensures r.Ok? ==> r.value.version != "" && r.value.version in serverDataset(t).versions
    ensures r.Ok? ==>
      r.value.version == (if CppNameVersion(t).value.1 == "" then serverDataset(t).defaultVersion
                          else CppNameVersion(t).value.1)
  {
    match CppNameVersion(t)
    case Err(e) => Err(BadSpecifier(e))
    case Ok((name, requested)) =>
      if NameLists.FindIndex(serverNames, name) == -1 then Err(DatasetNotOnServer(t))
      else
        var d := serverDataset(t);
        var version := if requested == "" then d.defaultVersion else requested;
        if version == "" then Err(NoDefaultVersion(name))
        else if NameLists.FindIndex(d.versions, version) == -1 then Err(VersionNotOnServer(version))
        else Ok(Resolution(name, version, t))
  }

  /** Every failure is one of the listed causes, and a listed dataset with a
      listed (or defaulted) version resolves. */
  lemma ResolveOnServerSucceeds(t: string, serverNames: seq<string>, serverDataset: string -> ServerDataset)
    requires CppNameVersion(t).Ok?
    requires CppNameVersion(t).value.0 in serverNames
    requires var v := CppNameVersion(t).value.1;
      var version := if v == "" then serverDataset(t).defaultVersion else v;
      version in serverDataset(t).versions && version != ""
    ensures ResolveOnServer(t, serverNames, serverDataset).Ok?
  {
  }

  /** An empty default is an error only when no version was given. */
  lemma ResolveEmptyDefault(t: string, serverNames: seq<string>, serverDataset: string -> ServerDataset)
    requires CppNameVersion(t).Ok? && CppNameVersion(t).value.0 in serverNames
    requires serverDataset(t).defaultVersion == ""
    ensures CppNameVersion(t).value.1 == "" <==>
      ResolveOnServer(t, serverNames, serverDataset) == Err(NoDefaultVersion(CppNameVersion(t).value.0))
  {
  }
}
