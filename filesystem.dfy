/**
 * An in-memory file system standing in for the `tokio::fs` calls the copier
 * makes: read_dir, create_dir_all, copy, remove_file, remove_dir_all and
 * `Path::exists`. Each call that can fail consults a `Faults` oracle; a
 * failing call changes nothing.
 */
module FileSystems {
  import opened Results
  import opened Paths

  type Content = seq<bv8>

  /** What `file_type` reports: a regular file, a directory, or anything else (a symlink, a device). */
  datatype Node = File(content: Content) | Dir | Other

  /**
   * `nodes` holds every existing path; `order` is the order in which paths were
   * created, which is the order in which read_dir yields a directory's entries.
   */
  datatype FileSystem = FileSystem(nodes: map<Path, Node>, order: seq<Path>)

  /** The paths on which each kind of call fails (listing, creating, file_type, copying from, removing). */
  datatype Faults = Faults(
    listFails: set<Path>,
    createFails: set<Path>,
    typeFails: set<Path>,
    copyFails: set<Path>,
    removeFails: set<Path>)

  predicate Distinct<T(==)>(s: seq<T>)
  {
    forall i, j :: 0 <= i < j < |s| ==> s[i] != s[j]
  }

  /** Well-formed: the creation order lists each existing path, and no path twice. */
  predicate Wf(fs: FileSystem)
  {
    Distinct(fs.order) && forall p :: p in fs.nodes ==> p in fs.order
  }

  /** `a` and `b` agree on path `k`. */
  predicate Same(a: FileSystem, b: FileSystem, k: Path)
  {
    (k in a.nodes <==> k in b.nodes) && (k in a.nodes ==> a.nodes[k] == b.nodes[k])
  }

  /** The existing direct entries of `dir`, in creation order. */
  function Children(order: seq<Path>, nodes: map<Path, Node>, dir: Path): (r: seq<Path>)
    ensures forall p :: p in r <==> p in order && p in nodes && IsChild(dir, p)
    ensures Distinct(order) ==> Distinct(r)
  {
    if order == [] then []
    else
      var rest := Children(order[1..], nodes, dir);
      assert Distinct(order) ==> order[0] !in order[1..];
      if order[0] in nodes && IsChild(dir, order[0]) then [order[0]] + rest else rest
  }

  /** `tokio::fs::read_dir(dir)` drained: the entries of an existing, listable directory. */
  function ReadDir(fs: FileSystem, faults: Faults, dir: Path): (r: Result<seq<Path>>)
    ensures r.Ok? <==> dir in fs.nodes && fs.nodes[dir].Dir? && dir !in faults.listFails
    ensures r.Err? ==> r.error == ListFailed
    ensures r.Ok? ==> forall p :: p in r.value ==> p in fs.nodes && IsChild(dir, p)
    ensures r.Ok? && Wf(fs) ==> Distinct(r.value) && forall p :: p in fs.nodes && IsChild(dir, p) ==> p in r.value
  {
    if dir in fs.nodes && fs.nodes[dir].Dir? && dir !in faults.listFails then
      Ok(Children(fs.order, fs.nodes, dir))
    else
      Err(ListFailed)
  }

  /** Store `n` at `p`; a path new to the file system goes at the end of the creation order. */
  function Put(fs: FileSystem, p: Path, n: Node): (r: FileSystem)
    ensures r.nodes == fs.nodes[p := n]
    ensures Wf(fs) ==> Wf(r)
  {
    FileSystem(fs.nodes[p := n], if p in fs.order then fs.order else fs.order + [p])
  }

  /** Some path on the way to `dest`, or `dest` itself, exists and is not a directory. */
  predicate Blocked(fs: FileSystem, dest: Path)
  {
    exists q :: q in fs.nodes && IsPrefix(q, dest) && !fs.nodes[q].Dir?
  }

  /** Every missing directory from the root down to `dest`, created top-down. */
  function MakeDirs(fs: FileSystem, dest: Path): (r: FileSystem)
    decreases |dest|
    ensures forall k :: k in fs.nodes ==> k in r.nodes && r.nodes[k] == fs.nodes[k]
    ensures forall k :: k in r.nodes && k !in fs.nodes ==> IsPrefix(k, dest) && r.nodes[k] == Dir
    ensures forall k :: IsPrefix(k, dest) ==> k in r.nodes
    ensures Wf(fs) ==> Wf(r)
  {
    var upper := if dest == [] then fs else MakeDirs(fs, dest[..|dest| - 1]);
    assert forall k :: IsPrefix(k, dest) && k != dest ==> IsPrefix(k, dest[..|dest| - 1]);
    assert forall k :: dest != [] && IsPrefix(k, dest[..|dest| - 1]) ==> IsPrefix(k, dest);
    if dest in upper.nodes then upper else Put(upper, dest, Dir)
  }

  /** `tokio::fs::create_dir_all(dest)`: fails if told to, or if a non-directory stands in the way. */
  function CreateDirAll(fs: FileSystem, faults: Faults, dest: Path): (r: Result<FileSystem>)
    ensures r.Ok? <==> dest !in faults.createFails && !Blocked(fs, dest)
    ensures r.Err? ==> r.error == CreateFailed
    ensures r.Ok? ==> dest in r.value.nodes && r.value.nodes[dest] == Dir
  {
    if dest in faults.createFails || Blocked(fs, dest) then Err(CreateFailed)
    else
      var made := MakeDirs(fs, dest);
      assert IsPrefix(dest, dest);
      Ok(made)
  }

  /**
   * `tokio::fs::copy(from, to)`: the regular file `from` is written to `to`,
   * which must not be an existing directory or other non-file. The target is
   * opened, and truncated, before the source is read, so a file copied onto
   * itself ends up empty.
   */
  function CopyFile(fs: FileSystem, faults: Faults, from: Path, to: Path): (r: Result<FileSystem>)
    ensures r.Ok? <==> from in fs.nodes && fs.nodes[from].File? && from !in faults.copyFails
                       && !(to in fs.nodes && !fs.nodes[to].File?)
    ensures r.Ok? && from != to ==> r.value.nodes == fs.nodes[to := fs.nodes[from]]
    ensures r.Ok? && from == to ==> r.value.nodes == fs.nodes[to := File([])]
    ensures r.Err? ==> r.error == CopyFailed
  {
    if from in fs.nodes && fs.nodes[from].File? && from !in faults.copyFails
       && !(to in fs.nodes && !fs.nodes[to].File?)
    then Ok(Put(fs, to, if from == to then File([]) else fs.nodes[from]))
    else Err(CopyFailed)
  }

  /** `tokio::fs::remove_file(p)`. */
  function RemoveFile(fs: FileSystem, faults: Faults, p: Path): (r: Result<FileSystem>)
    ensures r.Ok? <==> p in fs.nodes && fs.nodes[p].File? && p !in faults.removeFails
    ensures r.Ok? ==> r.value.nodes == fs.nodes - {p} && (Wf(fs) ==> Wf(r.value))
    ensures r.Err? ==> r.error == RemoveFailed
  {
    if p in fs.nodes && fs.nodes[p].File? && p !in faults.removeFails
    then Ok(FileSystem(fs.nodes - {p}, fs.order))
    else Err(RemoveFailed)
  }

  /** `tokio::fs::remove_dir_all(p)`: erases `p` and everything below it, whatever it holds. */
  function RemoveDirAll(fs: FileSystem, faults: Faults, p: Path): (r: Result<FileSystem>)
    ensures r.Ok? <==> p in fs.nodes && fs.nodes[p].Dir? && p !in faults.removeFails
    ensures r.Ok? ==> forall k :: k in r.value.nodes <==> k in fs.nodes && !IsPrefix(p, k)
    ensures r.Ok? ==> forall k :: k in r.value.nodes ==> r.value.nodes[k] == fs.nodes[k]
    ensures r.Ok? && Wf(fs) ==> Wf(r.value)
    ensures r.Err? ==> r.error == RemoveFailed
  {
    if p in fs.nodes && fs.nodes[p].Dir? && p !in faults.removeFails
    then Ok(FileSystem(map k | k in fs.nodes && !IsPrefix(p, k) :: fs.nodes[k], fs.order))
    else Err(RemoveFailed)
  }
}
