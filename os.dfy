/** What the capture loop sees of the operating system: a disk of
    directories holding named files, and the external programs it starts.
    Each directory is flat (the loop never nests them) and its entries are
    kept in listing order. The programs themselves are opaque: a caller says
    what exit status a program reports, and a program that succeeds leaves
    its output file behind. */
module Os {
  import opened Clock

  datatype Option<+T> = None | Some(value: T) {
    predicate IsFailure() {
      None?
    }

    function PropagateFailure<U>(): Option<U>
      requires None?
    {
      None
    }

    function Extract(): T
      requires Some?
    {
      value
    }
  }

  /** A directory entry as `ioutil.ReadDir` reports it. */
  datatype FileInfo = FileInfo(name: string, modTime: Time)

  /** Every directory path with its entries, in listing order. */
  type Disk = map<string, seq<FileInfo>>

  /** Position of the last '/' of a path, or -1. */
  function LastSlash(s: string): (k: int)
    ensures -1 <= k < |s|
  {
    if s == [] then -1
    else if s[|s| - 1] == '/' then |s| - 1
    else LastSlash(s[..|s| - 1])
  }

  /** `LastSlash` finds a '/' with no '/' after it. */
  lemma {:induction false} LastSlashSpec(s: string)
    ensures LastSlash(s) >= 0 ==> s[LastSlash(s)] == '/'
    ensures forall i :: LastSlash(s) < i < |s| ==> s[i] != '/'
  {
    if s != [] && s[|s| - 1] != '/' {
      LastSlashSpec(s[..|s| - 1]);
    }
  }

  /** Directory and base name of a path, split at its last '/'. */
  function SplitPath(p: string): (string, string) {
    var k := LastSlash(p);
    if k < 0 then ("", p) else (p[..k], p[k + 1..])
  }

  /** `dir + "/" + name`: how the program names every file it handles. */
  function Join(dir: string, name: string): string {
    dir + "/" + name
  }

  /** A joined path splits back into its directory and name. */
  lemma SplitJoin(dir: string, name: string)
    requires '/' !in name
    ensures SplitPath(Join(dir, name)) == (dir, name)
  {
    var p := Join(dir, name);
    LastSlashSpec(p);
    assert p[|dir|] == '/';
    forall i | |dir| < i < |p|
      ensures p[i] != '/'
    {
      assert p[i] == name[i - |dir| - 1];
    }
    assert LastSlash(p) == |dir|;
    assert p[..|dir|] == dir;
    assert p[|dir| + 1..] == name;
  }

  function NameSet(es: seq<FileInfo>): set<string> {
    set i | 0 <= i < |es| :: es[i].name
  }

  lemma NameSetCons(f: FileInfo, es: seq<FileInfo>)
    ensures NameSet([f] + es) == {f.name} + NameSet(es)
  {
    var s := [f] + es;
    forall n | n in NameSet(s)
      ensures n in {f.name} + NameSet(es)
    {
      var i :| 0 <= i < |s| && s[i].name == n;
      if i > 0 {
        assert es[i - 1].name == n;
      }
    }
    forall n | n in NameSet(es)
      ensures n in NameSet(s)
    {
      var i :| 0 <= i < |es| && es[i].name == n;
      assert s[i + 1].name == n;
    }
    assert s[0].name == f.name;
  }

  /** Directory entries after a program writes the file `f.name`: an entry
      of that name is replaced where it stands, otherwise the new entry is
      added at the end. */
  function Put(es: seq<FileInfo>, f: FileInfo): seq<FileInfo> {
    if es == [] then [f]
    else if es[0].name == f.name then [f] + es[1..]
    else [es[0]] + Put(es[1..], f)
  }

  /** No two entries share a name, as in a real directory. */
  predicate UniqueNames(es: seq<FileInfo>) {
    forall i, j :: 0 <= i < j < |es| ==> es[i].name != es[j].name
  }

  /** After the write the directory holds the new entry and every entry of
      another name, and nothing else. */
  lemma {:induction false} PutSpec(es: seq<FileInfo>, f: FileInfo)
    ensures f in Put(es, f)
    ensures NameSet(Put(es, f)) == NameSet(es) + {f.name}
    ensures forall g :: g in es && g.name != f.name ==> g in Put(es, f)
    ensures forall g :: g in Put(es, f) ==> g == f || g in es
  {
    if es == [] {
      NameSetCons(f, []);
    } else if es[0].name == f.name {
      NameSetCons(f, es[1..]);
      NameSetCons(es[0], es[1..]);
      assert es == [es[0]] + es[1..];
    } else {
      PutSpec(es[1..], f);
      NameSetCons(es[0], Put(es[1..], f));
      NameSetCons(es[0], es[1..]);
      assert es == [es[0]] + es[1..];
    }
  }

  /** No entry name contains '/', as in a real directory. */
  predicate NoSlashNames(es: seq<FileInfo>) {
    forall i :: 0 <= i < |es| ==> '/' !in es[i].name
  }

  /** In a directory whose names are unique, the written entry is the only
      one of its name afterwards, and the names stay unique. */
  lemma {:induction false} PutUnique(es: seq<FileInfo>, f: FileInfo)
    requires UniqueNames(es)
    ensures UniqueNames(Put(es, f))
    ensures forall g :: g in Put(es, f) && g.name == f.name ==> g == f
  {
    if es != [] && es[0].name != f.name {
      var rest := Put(es[1..], f);
      PutUnique(es[1..], f);
      PutSpec(es[1..], f);
      forall i | 0 <= i < |rest|
        ensures rest[i].name != es[0].name
      {
        assert rest[i] in rest;
      }
    }
  }

  /** Directory entries after the file `n` is deleted. */
  function Without(es: seq<FileInfo>, n: string): seq<FileInfo> {
    if es == [] then []
    else if es[0].name == n then Without(es[1..], n)
    else [es[0]] + Without(es[1..], n)
  }

  /** After the delete the directory holds every entry of another name and
      nothing else. */
  lemma {:induction false} WithoutSpec(es: seq<FileInfo>, n: string)
    ensures NameSet(Without(es, n)) == NameSet(es) - {n}
    ensures forall g :: g in Without(es, n) <==> g in es && g.name != n
  {
    if es != [] {
      WithoutSpec(es[1..], n);
      assert es == [es[0]] + es[1..];
      NameSetCons(es[0], es[1..]);
      if es[0].name != n {
        NameSetCons(es[0], Without(es[1..], n));
      }
    }
  }

  /** The file at `path` exists. */
  predicate Exists(d: Disk, path: string) {
    var (dir, name) := SplitPath(path);
    dir in d && name in NameSet(d[dir])
  }

  /** The disk after an external program has written the file at `path`
      (modified at `t`), when its directory exists. */
  function Created(d: Disk, path: string, t: Time): (r: Disk)
    ensures r.Keys == d.Keys
  {
    var (dir, name) := SplitPath(path);
    if dir in d then d[dir := Put(d[dir], FileInfo(name, t))] else d
  }

  /** The written file exists when its directory does, every file that
      existed still does, and no other directory changes. */
  lemma CreatedSpec(d: Disk, path: string, t: Time)
    ensures Exists(Created(d, path, t), path) <==> SplitPath(path).0 in d
    ensures forall q :: Exists(d, q) ==> Exists(Created(d, path, t), q)
    ensures forall dir :: dir in d && dir != SplitPath(path).0 ==> Created(d, path, t)[dir] == d[dir]
  {
    var (dir, name) := SplitPath(path);
    if dir in d {
      PutSpec(d[dir], FileInfo(name, t));
    }
  }

  /** `os.Remove` of a file: nothing when it does not exist. */
  function Removed(d: Disk, path: string): (r: Option<Disk>)
    ensures r.Some? <==> Exists(d, path)
    ensures r.Some? ==> r.value.Keys == d.Keys
  {
    var (dir, name) := SplitPath(path);
    if dir in d && name in NameSet(d[dir]) then Some(d[dir := Without(d[dir], name)]) else None
  }

  /** After the delete the file is gone, every other file is still there,
      and no other directory changes. */
  lemma RemovedSpec(d: Disk, path: string)
    requires Removed(d, path).Some?
    ensures !Exists(Removed(d, path).value, path)
    ensures forall q :: Exists(Removed(d, path).value, q) <==> Exists(d, q) && SplitPath(q) != SplitPath(path)
    ensures forall dir :: dir in d && dir != SplitPath(path).0 ==> Removed(d, path).value[dir] == d[dir]
  {
    var (dir, name) := SplitPath(path);
    WithoutSpec(d[dir], name);
  }

  /** Deleting files one after the other, stopping at the first that does
      not exist. */
  function RemovedAll(d: Disk, paths: seq<string>): Option<Disk> {
    if paths == [] then
      Some(d)
    else
      var d1 :- Removed(d, paths[0]);
      RemovedAll(d1, paths[1..])
  }

  /** Deleting a list of files succeeds exactly when every file exists and
      no file is listed twice (two spellings of one file count as one). */
  lemma {:induction false} RemovedAllSucceeds(d: Disk, paths: seq<string>)
    ensures RemovedAll(d, paths).Some? <==>
      && (forall i :: 0 <= i < |paths| ==> Exists(d, paths[i]))
      && (forall i, j :: 0 <= i < j < |paths| ==> SplitPath(paths[i]) != SplitPath(paths[j]))
  {
    if paths != [] {
      var r := Removed(d, paths[0]);
      if r.Some? {
        RemovedSpec(d, paths[0]);
        RemovedAllSucceeds(r.value, paths[1..]);
        assert forall i :: 1 <= i < |paths| ==> paths[i] == paths[1..][i - 1];
      }
    }
  }

  /** After the files are deleted, none of them exists, and every other
      file is still there. */
  lemma {:induction false} RemovedAllEffect(d: Disk, paths: seq<string>)
    requires RemovedAll(d, paths).Some?
    ensures var r := RemovedAll(d, paths).value;
      && r.Keys == d.Keys
      && forall q :: Exists(r, q) <==>
           Exists(d, q) && forall i :: 0 <= i < |paths| ==> SplitPath(q) != SplitPath(paths[i])
  {
    if paths != [] {
      var d1 := Removed(d, paths[0]).value;
      RemovedSpec(d, paths[0]);
      RemovedAllEffect(d1, paths[1..]);
      assert forall i :: 1 <= i < |paths| ==> paths[i] == paths[1..][i - 1];
    }
  }

  /** Deleting files never touches a directory that is empty. */
  lemma {:induction false} RemovedAllKeepsEmptyDir(d: Disk, paths: seq<string>, dir: string)
    requires RemovedAll(d, paths).Some?
    requires dir in d && d[dir] == []
    ensures dir in RemovedAll(d, paths).value && RemovedAll(d, paths).value[dir] == []
  {
    if paths != [] {
      var d1 := Removed(d, paths[0]).value;
      RemovedSpec(d, paths[0]);
      RemovedAllKeepsEmptyDir(d1, paths[1..], dir);
    }
  }

  /** Go's `os.Rename` on Unix refuses any target that is an existing
      directory, empty or not (and so also a rename onto itself). */
  predicate RenameOk(d: Disk, src: string, dst: string) {
    src in d && dst !in d
  }

  /** The disk after a directory is renamed to a free name. */
  function Renamed(d: Disk, src: string, dst: string): (r: Disk)
    requires RenameOk(d, src, dst)
    ensures dst in r && r[dst] == d[src]
    ensures src !in r
    ensures forall p :: p != src && p != dst ==> (p in r <==> p in d) && (p in r ==> r[p] == d[p])
  {
    (d - {src})[dst := d[src]]
  }

  /** The operating system: its disk, and every external program started,
      as the argument vector it was started with, in order. */
  class Host {
    var dirs: Disk
    var invoked: seq<seq<string>>

    constructor (dirs: Disk)
      ensures this.dirs == dirs && invoked == []
    {
      this.dirs := dirs;
      invoked := [];
    }

    /** `os.Mkdir`: fails when the path already exists. */
    method Mkdir(path: string) returns (ok: bool)
      modifies this
      ensures ok <==> path !in old(dirs)
      ensures dirs == if ok then old(dirs)[path := []] else old(dirs)
      ensures invoked == old(invoked)
    {
      ok := path !in dirs;
      if ok {
        dirs := dirs[path := []];
      }
    }

    /** `os.Rename` of a directory: fails when the source is missing or the
        target already exists. */
    method Rename(src: string, dst: string) returns (ok: bool)
      modifies this
      ensures ok <==> RenameOk(old(dirs), src, dst)
      ensures dirs == if ok then Renamed(old(dirs), src, dst) else old(dirs)
      ensures invoked == old(invoked)
    {
      ok := RenameOk(dirs, src, dst);
      if ok {
        dirs := Renamed(dirs, src, dst);
      }
    }

    /** `os.RemoveAll` of a directory; a missing one is not an error. */
    method RemoveAll(path: string)
      modifies this
      ensures dirs == old(dirs) - {path}
      ensures invoked == old(invoked)
    {
      dirs := dirs - {path};
    }

    /** `os.Remove` of a file: fails when it does not exist. */
    method Remove(path: string) returns (ok: bool)
      modifies this
      ensures ok <==> Removed(old(dirs), path).Some?
      ensures dirs == if ok then Removed(old(dirs), path).value else old(dirs)
      ensures invoked == old(invoked)
    {
      var r := Removed(dirs, path);
      ok := r.Some?;
      if ok {
        dirs := r.value;
      }
    }

    /** Runs an external program to completion (`CombinedOutput`). It
        succeeds when it reports success and the directory of its output
        file exists, and then the output file is on disk. */
    method Run(argv: seq<string>, exitOk: bool, output: string, t: Time) returns (ok: bool)
      modifies this
      ensures invoked == old(invoked) + [argv]
      ensures ok <==> exitOk && SplitPath(output).0 in old(dirs)
      ensures dirs == if ok then Created(old(dirs), output, t) else old(dirs)
    {
      invoked := invoked + [argv];
      ok := exitOk && SplitPath(output).0 in dirs;
      if ok {
        dirs := Created(dirs, output, t);
      }
    }

    /** Starts an external program without waiting for it (`Start`). */
    method Start(argv: seq<string>)
      modifies this
      ensures invoked == old(invoked) + [argv]
      ensures dirs == old(dirs)
    {
      invoked := invoked + [argv];
    }
  }
}
