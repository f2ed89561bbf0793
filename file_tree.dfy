/** The local mirror's directory tree as a value: every path below the
    repository root maps to a directory, a JSON descriptor or a downloaded
    blob.  The operations are the ones the engines call (`mkdir`, writing a
    file, `shutil.rmtree`, `shutil.move`, reading a descriptor); each either
    gives the new tree or the error the call raises. */
module FileTree {
  import opened Results
  import opened Json

  /** Path components below the repository root; the root is `[]`. */
  type Path = seq<string>

  /** A downloaded file's content is opaque: only its digest is ever inspected. */
  datatype Node = Directory | Document(doc: Json) | Blob(content: string)

  datatype Fs = Fs(nodes: map<Path, Node>)

  datatype FsError =
    | AlreadyExists(path: Path)     // FileExistsError
    | NoSuchPath(path: Path)        // FileNotFoundError
    | NotADirectory(path: Path)     // NotADirectoryError
    | IsADirectory(path: Path)      // IsADirectoryError
    | NotJson(path: Path)           // the file does not parse as JSON

  /** `q` is `p` or lies below it. */
  predicate Under(p: Path, q: Path)
  {
    |p| <= |q| && q[..|p|] == p
  }

  function Lookup(fs: Fs, p: Path): Option<Node>
  {
    if p in fs.nodes then Some(fs.nodes[p]) else None
  }

  predicate IsDir(fs: Fs, p: Path)
  {
    p in fs.nodes && fs.nodes[p].Directory?
  }

  function Parent(p: Path): Path
    requires p != []
  {
    p[..|p| - 1]
  }

  /** A well-formed tree: the root is a directory and every other node sits
      in a directory. */
  predicate Valid(fs: Fs)
  {
    && IsDir(fs, [])
    && forall p :: p in fs.nodes && p != [] ==> IsDir(fs, Parent(p))
  }

  /** The parent check shared by `mkdir` and file creation. */
  function ParentError(fs: Fs, p: Path): Option<FsError>
  {
    if p == [] || Parent(p) !in fs.nodes then Some(NoSuchPath(p))
    else if !IsDir(fs, Parent(p)) then Some(NotADirectory(p))
    else None
  }

  /** `Path.mkdir()` without `parents`: the path must be new and its parent a
      directory. */
  function Mkdir(fs: Fs, p: Path): (r: Result<Fs, FsError>)
    ensures r.Ok? <==> p !in fs.nodes && p != [] && IsDir(fs, Parent(p))
    ensures r.Ok? ==> r.value.nodes == fs.nodes[p := Directory]
  {
    if p in fs.nodes then Err(AlreadyExists(p))
    else if ParentError(fs, p).Some? then Err(ParentError(fs, p).value)
    else Ok(Fs(fs.nodes[p := Directory]))
  }

  /** Opening `p` for writing and writing `n` into it, replacing any file
      already there. */
  function WriteFile(fs: Fs, p: Path, n: Node): (r: Result<Fs, FsError>)
    requires !n.Directory?
    ensures r.Ok? <==> p != [] && IsDir(fs, Parent(p)) && !IsDir(fs, p)
    ensures r.Ok? ==> r.value.nodes == fs.nodes[p := n]
  {
    if ParentError(fs, p).Some? then Err(ParentError(fs, p).value)
    else if IsDir(fs, p) then Err(IsADirectory(p))
    else Ok(Fs(fs.nodes[p := n]))
  }

  /** `shutil.rmtree`: the path must be a directory; it and everything below
      it disappear. */
  function Rmtree(fs: Fs, p: Path): (r: Result<Fs, FsError>)
    ensures r.Ok? <==> IsDir(fs, p)
  {
    if p !in fs.nodes then Err(NoSuchPath(p))
    else if !fs.nodes[p].Directory? then Err(NotADirectory(p))
    else Ok(Fs(map q | q in fs.nodes && !Under(p, q) :: fs.nodes[q]))
  }

  lemma RmtreeSpec(fs: Fs, p: Path)
    requires Rmtree(fs, p).Ok?
    ensures forall q :: Lookup(Rmtree(fs, p).value, q) == if Under(p, q) then None else Lookup(fs, q)
  {
  }

  /** The node at `p`, or a directory where there is none (used only where
      the path is known to be present). */
  function NodeAt(fs: Fs, p: Path): Node
  {
    if p in fs.nodes then fs.nodes[p] else Directory
  }

  /** `shutil.move` of a directory to a new name whose parent is a directory:
      the tree at `src` reappears at `dst`. */
  function Move(fs: Fs, src: Path, dst: Path): (r: Result<Fs, FsError>)
    ensures r.Ok? <==>
      && src in fs.nodes && !Under(src, dst) && !Under(dst, src)
      && (forall q :: q in fs.nodes ==> !Under(dst, q))
      && dst != [] && IsDir(fs, Parent(dst))
    ensures r.Err? && src in fs.nodes && dst in fs.nodes ==> r.error == AlreadyExists(dst)
  {
    if src !in fs.nodes then Err(NoSuchPath(src))
    else if Under(src, dst) || Under(dst, src) || exists q :: q in fs.nodes && Under(dst, q) then Err(AlreadyExists(dst))
    else if ParentError(fs, dst).Some? then Err(ParentError(fs, dst).value)
    else
      var kept := set q | q in fs.nodes && !Under(src, q);
      var placed := set q | q in fs.nodes && Under(src, q) :: dst + q[|src|..];
      Ok(Fs(map q | q in kept + placed :: NodeAt(fs, if Under(dst, q) then src + q[|dst|..] else q)))
  }

  /** After a move, what was below `src` is below `dst` and nothing else
      changed. */
  lemma MoveSpec(fs: Fs, src: Path, dst: Path)
    requires Move(fs, src, dst).Ok?
    ensures forall q :: (Lookup(Move(fs, src, dst).value, q) ==
      if Under(dst, q) then Lookup(fs, src + q[|dst|..])
      else if Under(src, q) then None
      else Lookup(fs, q))
  {
    var r := Move(fs, src, dst).value;
    forall q ensures Lookup(r, q) ==
      (if Under(dst, q) then Lookup(fs, src + q[|dst|..])
       else if Under(src, q) then None
       else Lookup(fs, q))
    {
      if Under(dst, q) {
        var s := src + q[|dst|..];
        assert q == dst + s[|src|..];
        assert Under(src, s);
        assert q !in fs.nodes;
        if q in r.nodes && q !in fs.nodes {
          var w :| w in fs.nodes && Under(src, w) && q == dst + w[|src|..];
          assert w == s;
        }
      } else {
        forall w | Under(src, w) ensures Under(dst, dst + w[|src|..]) {
        }
      }
    }
  }

  /** Reading and parsing a JSON descriptor. */
  function ReadDocument(fs: Fs, p: Path): (r: Result<Json, FsError>)
    ensures r.Ok? <==> p in fs.nodes && fs.nodes[p].Document?
    ensures r.Ok? ==> fs.nodes[p] == Document(r.value)
  {
    if p !in fs.nodes then Err(NoSuchPath(p))
    else match fs.nodes[p]
      case Directory => Err(IsADirectory(p))
      case Blob(_) => Err(NotJson(p))
      case Document(j) => Ok(j)
  }

  // ---------------------------------------------------------------- well-formedness

  lemma MkdirKeepsValid(fs: Fs, p: Path)
    requires Valid(fs) && Mkdir(fs, p).Ok?
    ensures Valid(Mkdir(fs, p).value)
  {
  }

  lemma WriteFileKeepsValid(fs: Fs, p: Path, n: Node)
    requires !n.Directory? && Valid(fs) && WriteFile(fs, p, n).Ok?
    ensures Valid(WriteFile(fs, p, n).value)
  {
  }

  /** Removing any tree but the root keeps the tree well formed: a surviving
      node's parent is not below the removed path either. */
  lemma RmtreeKeepsValid(fs: Fs, p: Path)
    requires Valid(fs) && Rmtree(fs, p).Ok? && p != []
    ensures Valid(Rmtree(fs, p).value)
  {
    var r := Rmtree(fs, p).value;
    RmtreeSpec(fs, p);
    assert Lookup(r, []) == Lookup(fs, []);
    forall q | q in r.nodes && q != [] ensures IsDir(r, Parent(q)) {
      assert Lookup(r, q) != None;
      assert !Under(p, q);
      if |p| <= |q| - 1 {
        assert Parent(q)[..|p|] == q[..|p|];
      }
      assert Lookup(r, Parent(q)) == Lookup(fs, Parent(q));
    }
  }

  /** Moving a directory other than the root keeps the tree well formed. */
  lemma MoveKeepsValid(fs: Fs, src: Path, dst: Path)
    requires Valid(fs) && Move(fs, src, dst).Ok? && src != []
    ensures Valid(Move(fs, src, dst).value)
  {
    MoveSpec(fs, src, dst);
    assert Under([], src);
    MovedTreeValid(fs, Move(fs, src, dst).value, src, dst);
  }

  /** The parent argument of `MoveKeepsValid`, from the description of the
      moved tree alone. */
  lemma MovedTreeValid(fs: Fs, r: Fs, src: Path, dst: Path)
    requires Valid(fs) && src != [] && dst != []
    requires !Under(src, dst) && IsDir(fs, Parent(dst))
    requires forall q :: (Lookup(r, q) ==
      if Under(dst, q) then Lookup(fs, src + q[|dst|..])
      else if Under(src, q) then None
      else Lookup(fs, q))
    ensures Valid(r)
  {
    assert Lookup(r, []) == Lookup(fs, []);
    forall q | q in r.nodes && q != [] ensures IsDir(r, Parent(q)) {
      assert Lookup(r, q) != None;
      var pq := Parent(q);
      if |dst| <= |pq| {
        assert pq[..|dst|] == q[..|dst|];
      }
      if |src| <= |pq| {
        assert pq[..|src|] == q[..|src|];
      }
      if Under(dst, q) && q != dst {
        assert Parent(src + q[|dst|..]) == src + pq[|dst|..];
        assert Lookup(r, pq) == Lookup(fs, src + pq[|dst|..]);
      } else {
        assert Lookup(r, pq) == Lookup(fs, pq);
      }
    }
  }
}
