/**
 * The path handling of the io_uring test VFS
 * (benchmarks/vfs/io_uring/src/connection.rs): lexical normalisation of the
 * path a database is opened under, and the sibling file names derived from
 * it by rewriting its extension (the `-shm` wal-index file, and the main
 * database file whose permissions a new journal or WAL copies).
 *
 * Paths are Unix paths, seen as the components `Path::components` yields.
 */
module Connection {
  import opened Wrappers
  import opened Text

  /** `std::path::Component` on Unix (there are no prefixes). */
  datatype Component = RootDir | CurDir | ParentDir | Normal(name: string)

  /** A `PathBuf`: whether it starts at the root, then its names. */
  datatype PathBuf = PathBuf(absolute: bool, names: seq<string>)

  /** `PathBuf::new()`. */
  const Empty := PathBuf(false, [])

  /** The components a `PathBuf` yields: the root if any, then one `Normal` per name. */
  function Components(p: PathBuf): (r: seq<Component>)
    ensures |r| == (if p.absolute then 1 else 0) + |p.names|
    ensures CurDir !in r && ParentDir !in r
    ensures p.absolute ==> r[0] == RootDir
  {
    (if p.absolute then [RootDir] else []) + NameComponents(p.names)
  }

  /** One `Normal` component per name, in order. */
  function NameComponents(ns: seq<string>): (r: seq<Component>)
    ensures |r| == |ns|
    ensures CurDir !in r && ParentDir !in r
    ensures forall i :: 0 <= i < |ns| ==> r[i] == Normal(ns[i])
    decreases |ns|
  {
    if ns == [] then [] else [Normal(ns[0])] + NameComponents(ns[1..])
  }

  /** `PathBuf::pop`: drop the last name; at the root or in an empty path there is none, and nothing changes. */
  function Pop(p: PathBuf): (r: PathBuf)
    ensures r.absolute == p.absolute
    ensures p.names == [] ==> r == p
    ensures p.names != [] ==> r.names + [p.names[|p.names| - 1]] == p.names
  {
    if p.names == [] then p else p.(names := p.names[..|p.names| - 1])
  }

  /** One turn of the loop in `normalize_path`. Pushing the root replaces the whole path, as pushing an absolute path does. */
  function Step(p: PathBuf, c: Component): PathBuf
  {
    match c
    case RootDir => PathBuf(true, [])
    case CurDir => p
    case ParentDir => Pop(p)
    case Normal(n) => p.(names := p.names + [n])
  }

  /** The loop run over `cs` from `p`. */
  function Run(p: PathBuf, cs: seq<Component>): PathBuf
    decreases |cs|
  {
    if cs == [] then p else Run(Step(p, cs[0]), cs[1..])
  }

  /** What `normalize_path` returns for a path with components `cs`. */
  function Normalize(cs: seq<Component>): PathBuf
  {
    Run(Empty, cs)
  }

  /**
   * `normalize_path`: walk the components, dropping ".", popping the last
   * name on "..", and pushing the root and every name.
   */
  method NormalizePath(path: seq<Component>) returns (ret: PathBuf)
    ensures ret == Normalize(path)
  {
    ret := Empty;
    var i := 0;
    while i < |path|
      invariant 0 <= i <= |path|
      invariant Run(ret, path[i..]) == Normalize(path)
    {
      assert path[i..][1..] == path[i + 1..];
      match path[i] {
        case RootDir =>
          ret := PathBuf(true, []);
        case CurDir =>
        case ParentDir =>
          ret := Pop(ret);
        case Normal(n) =>
          ret := ret.(names := ret.names + [n]);
      }
      i := i + 1;
    }
  }

  /** Running the loop over two stretches of components is running it over each in turn. */
  lemma {:induction false} RunAppend(p: PathBuf, a: seq<Component>, b: seq<Component>)
    ensures Run(p, a + b) == Run(Run(p, a), b)
    decreases |a|
  {
    if a == [] {
      assert a + b == b;
    } else {
      assert (a + b)[0] == a[0] && (a + b)[1..] == a[1..] + b;
      RunAppend(Step(p, a[0]), a[1..], b);
    }
  }

  /** A "." anywhere is ignored. */
  lemma CurDirIgnored(a: seq<Component>, b: seq<Component>)
    ensures Normalize(a + [CurDir] + b) == Normalize(a + b)
  {
    RunAppend(Empty, a + [CurDir], b);
    RunAppend(Empty, a, [CurDir]);
    RunAppend(Empty, a, b);
    var q := Run(Empty, a);
    assert [CurDir][1..] == [];
    assert Run(q, [CurDir]) == Run(q, []) == q;
  }

  /** A name followed by ".." cancels out. */
  lemma ParentCancelsName(a: seq<Component>, n: string, b: seq<Component>)
    ensures Normalize(a + [Normal(n), ParentDir] + b) == Normalize(a + b)
  {
    RunAppend(Empty, a + [Normal(n), ParentDir], b);
    RunAppend(Empty, a, [Normal(n), ParentDir]);
    RunAppend(Empty, a, b);
    var q := Run(Empty, a);
    var pushed := q.(names := q.names + [n]);
    assert (q.names + [n])[..|q.names|] == q.names;
    assert Pop(pushed) == q;
    assert [Normal(n), ParentDir][1..] == [ParentDir] && [ParentDir][1..] == [];
    assert Run(q, [Normal(n), ParentDir]) == Run(pushed, [ParentDir]) == Run(q, []) == q;
  }

  /** A ".." with nothing before it to remove, at the start or right after the root, disappears. */
  lemma LeadingParentVanishes(cs: seq<Component>)
    ensures Normalize([ParentDir] + cs) == Normalize(cs)
    ensures Normalize([RootDir, ParentDir] + cs) == Normalize([RootDir] + cs)
  {
    assert ([ParentDir] + cs)[1..] == cs;
    var root := PathBuf(true, []);
    assert ([RootDir, ParentDir] + cs)[1..] == [ParentDir] + cs;
    assert Run(Empty, [RootDir, ParentDir] + cs) == Run(root, [ParentDir] + cs) == Run(root, cs);
    assert ([RootDir] + cs)[1..] == cs;
  }

  /** The result starts at the root exactly when the path contains the root (or started there). */
  lemma {:induction false} RootKept(p: PathBuf, cs: seq<Component>)
    ensures Run(p, cs).absolute <==> p.absolute || RootDir in cs
    decreases |cs|
  {
    if cs != [] {
      RootKept(Step(p, cs[0]), cs[1..]);
      assert cs == [cs[0]] + cs[1..];
    }
  }

  /** A path is absolute after normalisation exactly when it has a root. */
  lemma NormalizedAbsoluteIff(cs: seq<Component>)
    ensures Normalize(cs).absolute <==> RootDir in cs
  {
    RootKept(Empty, cs);
  }

  /** Names alone are pushed in order. */
  lemma {:induction false} NamesAppended(p: PathBuf, ns: seq<string>)
    ensures Run(p, NameComponents(ns)) == p.(names := p.names + ns)
    decreases |ns|
  {
    if ns != [] {
      var q := p.(names := p.names + [ns[0]]);
      var rest := NameComponents(ns[1..]);
      assert ([Normal(ns[0])] + rest)[1..] == rest;
      NamesAppended(q, ns[1..]);
      assert q.names + ns[1..] == p.names + ns;
    }
  }

  /** Normalising a path that is already normal changes nothing. */
  lemma NormalIsFixed(p: PathBuf)
    ensures Normalize(Components(p)) == p
  {
    var names := NameComponents(p.names);
    if p.absolute {
      assert Components(p) == [RootDir] + names;
      assert ([RootDir] + names)[1..] == names;
      NamesAppended(PathBuf(true, []), p.names);
    } else {
      assert Components(p) == names;
      NamesAppended(Empty, p.names);
    }
  }

  /** `normalize_path` is idempotent, and its result has no "." or ".." components. */
  lemma NormalizeIdempotent(cs: seq<Component>)
    ensures Normalize(Components(Normalize(cs))) == Normalize(cs)
    ensures CurDir !in Components(Normalize(cs)) && ParentDir !in Components(Normalize(cs))
  {
    NormalIsFixed(Normalize(cs));
  }

  /**
   * `rsplit_file_at_dot`, behind `Path::file_stem` and `Path::extension`:
   * a file name splits at its last '.', unless that dot starts the name;
   * ".." has no extension.
   */
  function SplitAtDot(name: string): (r: (string, Option<string>))
    ensures r.1.None? ==> r.0 == name
    ensures r.1.Some? ==> name == r.0 + "." + r.1.value && r.0 != [] && '.' !in r.1.value
  {
    if |name| == 2 && name[0] == '.' && name[1] == '.' then (name, None)
    else match LastIndexOf(name, '.')
      case None => (name, None)
      case Some(k) =>
        if k == 0 then (name, None)
        else
          assert name == name[..k] + "." + name[k + 1..];
          (name[..k], Some(name[k + 1..]))
  }

  /** A name that is a stem, a dot and an extension without dots splits there. */
  lemma SplitsAtLastDot(stem: string, ext: string)
    requires stem != [] && ext != [] && '.' !in ext
    ensures SplitAtDot(stem + "." + ext) == (stem, Some(ext))
  {
    var name := stem + "." + ext;
    assert name[|stem| + 1..] == ext;
    LastIndexOfIs(name, '.', |stem|);
    assert name[..|stem|] == stem;
  }

  /** A name without dots has no extension. */
  lemma NoDotNoExtension(name: string)
    requires '.' !in name
    ensures SplitAtDot(name) == (name, None)
  {
  }

  /** `Path::set_extension` on a file name: keep the stem, then add '.' and the extension unless it is empty. */
  function SetExtension(name: string, e: string): (r: string)
    ensures e != [] ==> r == SplitAtDot(name).0 + "." + e
    ensures e == [] ==> r == SplitAtDot(name).0
  {
    SplitAtDot(name).0 + (if e == [] then [] else "." + e)
  }

  /**
   * The extension both rewrites start from: the current one cut at its
   * first '-', or "db" when there is none.
   */
  function BaseExtension(name: string): (e: string)
    ensures '-' !in e && '.' !in e
    ensures SplitAtDot(name).1.Some? ==> e <= SplitAtDot(name).1.value
  {
    match SplitAtDot(name).1
    case None => "db"
    case Some(ext) => Before(ext, '-')
  }

  /** The name of the wal-index file beside `name`. */
  function ShmName(name: string): (r: string)
    ensures |r| >= 4 && r[|r| - 4..] == "-shm"
  {
    SetExtension(name, BaseExtension(name) + "-shm")
  }

  /** The name of the main database file whose permissions a journal or WAL called `name` copies. */
  function PermissionsName(name: string): (r: string)
  {
    SetExtension(name, BaseExtension(name))
  }

  /**
   * The database "s.e", its WAL or journal "s.e-…", and any other name
   * "s.e-…" share one wal-index file "s.e-shm" and one main file "s.e".
   */
  lemma SiblingsShareShm(stem: string, ext: string, suffix: string)
    requires stem != [] && ext != [] && '.' !in ext && '-' !in ext
    requires suffix != [] && suffix[0] == '-' && '.' !in suffix
    ensures ShmName(stem + "." + (ext + suffix)) == stem + "." + (ext + "-shm")
    ensures ShmName(stem + "." + ext) == stem + "." + (ext + "-shm")
    ensures PermissionsName(stem + "." + (ext + suffix)) == stem + "." + ext
    ensures PermissionsName(stem + "." + ext) == stem + "." + ext
  {
    SplitsAtLastDot(stem, ext);
    assert ext + [] == ext;
    SiblingRewrites(stem + "." + ext, stem, ext, []);
    SplitsAtLastDot(stem, ext + suffix);
    SiblingRewrites(stem + "." + (ext + suffix), stem, ext, suffix);
  }

  /** One name of the family: its stem is `stem` and its extension `ext` followed by `suffix`. */
  lemma SiblingRewrites(name: string, stem: string, ext: string, suffix: string)
    requires SplitAtDot(name) == (stem, Some(ext + suffix))
    requires ext != [] && '-' !in ext && (suffix == [] || suffix[0] == '-')
    ensures ShmName(name) == stem + "." + (ext + "-shm")
    ensures PermissionsName(name) == stem + "." + ext
  {
    BaseOfSibling(name, stem, ext, suffix);
    ExtensionSet(name, stem, ext + "-shm");
    ExtensionSet(name, stem, ext);
  }

  /** Setting a non-empty extension on a name with stem `stem`. */
  lemma ExtensionSet(name: string, stem: string, e: string)
    requires SplitAtDot(name).0 == stem && e != []
    ensures SetExtension(name, e) == stem + "." + e
  {
  }

  /** The extension of a name whose extension is `ext` followed by nothing or by '-' and more is cut back to `ext`. */
  lemma BaseOfSibling(name: string, stem: string, ext: string, suffix: string)
    requires SplitAtDot(name) == (stem, Some(ext + suffix))
    requires '-' !in ext && (suffix == [] || suffix[0] == '-')
    ensures BaseExtension(name) == ext
  {
    if suffix == [] {
      assert ext + suffix == ext;
      SplitNone(ext, '-');
    } else {
      SplitJoin(ext, suffix[1..], '-');
      assert ext + ['-'] + suffix[1..] == ext + suffix;
    }
  }

  /** A name without dots gets the default extension: "s" becomes "s.db-shm" and "s.db". */
  lemma BareNameDefaultsToDb(name: string)
    requires '.' !in name
    ensures ShmName(name) == name + ".db-shm"
    ensures PermissionsName(name) == name + ".db"
  {
    NoDotNoExtension(name);
  }

  /** The wal-index file of a wal-index file is itself. */
  lemma ShmNameIdempotent(name: string)
    requires name != []
    ensures ShmName(ShmName(name)) == ShmName(name)
  {
    var stem, e := SplitAtDot(name).0, BaseExtension(name);
    assert stem != [];
    ExtensionSet(name, stem, e + "-shm");
    SplitsAtLastDot(stem, e + "-shm");
    BaseOfSibling(ShmName(name), stem, e, "-shm");
    ExtensionSet(ShmName(name), stem, e + "-shm");
  }

  /** `path.with_extension(...)` on a path with a file name: the last name replaced by `newName`, the directory kept. */
  function WithFileName(p: PathBuf, newName: string): (r: PathBuf)
    requires p.names != []
    ensures r.absolute == p.absolute && |r.names| == |p.names|
    ensures r.names[..|r.names| - 1] == p.names[..|p.names| - 1] && r.names[|r.names| - 1] == newName
  {
    p.(names := p.names[..|p.names| - 1] + [newName])
  }

  /** The path of the wal-index file beside the database at `p` (connection.rs `open` and `wal_index`). */
  function ShmPath(p: PathBuf): (r: PathBuf)
    ensures p.names == [] ==> r == p
    ensures p.names != [] ==> r == WithFileName(p, ShmName(p.names[|p.names| - 1]))
  {
    if p.names == [] then p else WithFileName(p, ShmName(p.names[|p.names| - 1]))
  }

  /** The path `permissions` reads the mode of. */
  function PermissionsPath(p: PathBuf): (r: PathBuf)
    ensures p.names == [] ==> r == p
    ensures p.names != [] ==> r == WithFileName(p, PermissionsName(p.names[|p.names| - 1]))
  {
    if p.names == [] then p else WithFileName(p, PermissionsName(p.names[|p.names| - 1]))
  }

  /** The wal-index file lies in the database's directory, and deriving it again gives the same path. */
  lemma ShmPathStable(p: PathBuf)
    requires forall i :: 0 <= i < |p.names| ==> p.names[i] != []
    ensures ShmPath(p).absolute == p.absolute
    ensures p.names != [] ==> ShmPath(p).names[..|p.names| - 1] == p.names[..|p.names| - 1]
    ensures ShmPath(ShmPath(p)) == ShmPath(p)
  {
    if p.names != [] {
      var last := p.names[|p.names| - 1];
      ShmNameIdempotent(last);
      var q := ShmPath(p);
      assert q.names[..|q.names| - 1] + [ShmName(last)] == q.names;
    }
  }
}
