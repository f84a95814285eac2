/**
 * `process_directory(source, dest, remove_source)`: list `source`, create
 * `dest`, copy every regular file found directly in `source` to
 * `dest.join(file_name)` (removing the original after a successful copy when
 * `remove_source` is set), and return every other entry whose type is known.
 */
module Processor {
  import opened Results
  import opened Paths
  import opened FileSystems

  /** The file system after some entries, and the entries collected as directories. */
  datatype Step = Step(fs: FileSystem, dirs: seq<Path>)

  /** The file system after a call, and what the call returns. */
  datatype Processed = Processed(fs: FileSystem, result: Result<seq<Path>>)

  /** Where entry `p` of the listed directory is copied: `dest.join(p.file_name())`. */
  function Target(dest: Path, p: Path): (t: Path)
    ensures p != [] ==> t == Join(dest, FileName(p))
  {
    if p == [] then dest else Join(dest, FileName(p))
  }

  /** The type lookup of `p` succeeds, and `p` is not a regular file: it is collected. */
  predicate Collected(fs: FileSystem, faults: Faults, p: Path)
  {
    p !in faults.typeFails && p in fs.nodes && !fs.nodes[p].File?
  }

  /** One turn of the entry loop, for the entry `p`. */
  function Entry(fs: FileSystem, faults: Faults, p: Path, dest: Path, removeSource: bool): (r: Step)
    ensures Wf(fs) ==> Wf(r.fs)
    ensures r.dirs == if Collected(fs, faults, p) then [p] else []
  {
    if p in faults.typeFails || p !in fs.nodes then
      Step(fs, [])   // file_type failed: logged and skipped
    else if fs.nodes[p].File? then
      match CopyFile(fs, faults, p, Target(dest, p))
      case Err(_) => Step(fs, [])   // copy failed: logged, the source stays
      case Ok(copied) =>
        if !removeSource then Step(copied, [])
        else
          match RemoveFile(copied, faults, p)
          case Err(_) => Step(copied, [])   // removal failed: logged
          case Ok(removed) => Step(removed, [])
    else
      Step(fs, [p])
  }

  /** The entry loop over `entries`, in listing order: the last entry is handled after all the others. */
  function Entries(fs: FileSystem, faults: Faults, entries: seq<Path>, dest: Path, removeSource: bool): (r: Step)
    ensures Wf(fs) ==> Wf(r.fs)
    decreases |entries|
  {
    if entries == [] then Step(fs, [])
    else
      var before := Entries(fs, faults, entries[..|entries| - 1], dest, removeSource);
      var last := Entry(before.fs, faults, entries[|entries| - 1], dest, removeSource);
      Step(last.fs, before.dirs + last.dirs)
  }

  /** The whole call: list `source` first, then create `dest`, then run the entry loop. */
  function Process(fs: FileSystem, faults: Faults, source: Path, dest: Path, removeSource: bool): (r: Processed)
    ensures r.result.Err? ==> r.fs == fs && (r.result.error == ListFailed || r.result.error == CreateFailed)
  {
    match ReadDir(fs, faults, source)
    case Err(e) => Processed(fs, Err(e))
    case Ok(entries) =>
      match CreateDirAll(fs, faults, dest)
      case Err(e) => Processed(fs, Err(e))
      case Ok(created) =>
        var done := Entries(created, faults, entries, dest, removeSource);
        Processed(done.fs, Ok(done.dirs))
  }

  // ---------------------------------------------------------------------------
  // What one entry touches

  /** Handling `p` touches at most `p` and its target, and never a directory or other non-file. */
  lemma EntryFrame(fs: FileSystem, faults: Faults, p: Path, dest: Path, removeSource: bool, k: Path)
    requires (k != p && k != Target(dest, p)) || (k in fs.nodes && !fs.nodes[k].File?)
    ensures Same(fs, Entry(fs, faults, p, dest, removeSource).fs, k)
  {
  }

  /** A regular file whose copy succeeds is at its target with the same content, and removed only on request. */
  lemma EntryCopiesFile(fs: FileSystem, faults: Faults, p: Path, dest: Path, removeSource: bool)
    requires p != [] && Target(dest, p) != p
    requires p in fs.nodes && fs.nodes[p].File? && p !in faults.typeFails && p !in faults.copyFails
    requires !(Target(dest, p) in fs.nodes && !fs.nodes[Target(dest, p)].File?)
    ensures Target(dest, p) in Entry(fs, faults, p, dest, removeSource).fs.nodes
    ensures Entry(fs, faults, p, dest, removeSource).fs.nodes[Target(dest, p)] == fs.nodes[p]
    ensures p in Entry(fs, faults, p, dest, removeSource).fs.nodes <==> !(removeSource && p !in faults.removeFails)
    ensures p in Entry(fs, faults, p, dest, removeSource).fs.nodes ==> Entry(fs, faults, p, dest, removeSource).fs.nodes[p] == fs.nodes[p]
  {
    var copied := CopyFile(fs, faults, p, Target(dest, p));
    assert copied.Ok?;
    if removeSource {
      var removed := RemoveFile(copied.value, faults, p);
      assert removed.Ok? <==> p !in faults.removeFails;
    }
  }

  /**
   * Unless it is its own target, a regular file is never altered in place,
   * and it disappears only once its content is at the target.
   */
  lemma EntryKeepsFile(fs: FileSystem, faults: Faults, p: Path, dest: Path, removeSource: bool)
    requires Target(dest, p) != p && p in fs.nodes && fs.nodes[p].File?
    ensures p in Entry(fs, faults, p, dest, removeSource).fs.nodes ==> Entry(fs, faults, p, dest, removeSource).fs.nodes[p] == fs.nodes[p]
    ensures p !in Entry(fs, faults, p, dest, removeSource).fs.nodes ==>
              Target(dest, p) in Entry(fs, faults, p, dest, removeSource).fs.nodes
              && Entry(fs, faults, p, dest, removeSource).fs.nodes[Target(dest, p)] == fs.nodes[p]
  {
  }

  /** What handling `p` does depends only on what is at `p` and at its target. */
  lemma EntryLocal(a: FileSystem, b: FileSystem, faults: Faults, p: Path, dest: Path, removeSource: bool)
    requires Same(a, b, p) && Same(a, b, Target(dest, p))
    ensures Entry(a, faults, p, dest, removeSource).dirs == Entry(b, faults, p, dest, removeSource).dirs
    ensures Same(Entry(a, faults, p, dest, removeSource).fs, Entry(b, faults, p, dest, removeSource).fs, p)
    ensures Same(Entry(a, faults, p, dest, removeSource).fs, Entry(b, faults, p, dest, removeSource).fs, Target(dest, p))
  {
  }

  /** Two different entries of one directory never touch each other's path or target. */
  lemma TargetsApart(source: Path, dest: Path, p: Path, q: Path)
    requires IsChild(source, p) && IsChild(source, q) && p != q
    ensures Target(dest, p) != Target(dest, q)
    ensures Target(dest, q) != p
  {
    assert p == Join(source, FileName(p)) && q == Join(source, FileName(q));
    var t := Target(dest, q);
    assert |t| == |dest| + 1 && t[..|dest|] == dest && FileName(t) == FileName(q);
  }

  /** An entry is its own target only when copying a directory onto itself. */
  lemma TargetIsEntry(source: Path, dest: Path, p: Path)
    requires IsChild(source, p)
    ensures Target(dest, p) == p <==> dest == source
  {
    var t := Target(dest, p);
    assert |t| == |dest| + 1 && t[..|dest|] == dest && FileName(t) == FileName(p);
    assert p == Join(source, FileName(p));
  }

  /** The entry loop leaves alone every path that is not an entry and not an entry's target. */
  lemma {:induction false} EntriesFrame(fs: FileSystem, faults: Faults, entries: seq<Path>, dest: Path, removeSource: bool, k: Path)
    requires k !in entries
    requires forall q :: q in entries ==> k != Target(dest, q)
    ensures Same(fs, Entries(fs, faults, entries, dest, removeSource).fs, k)
    decreases |entries|
  {
    if entries != [] {
      var init, last := entries[..|entries| - 1], entries[|entries| - 1];
      assert forall q :: q in init ==> q in entries;
      EntriesFrame(fs, faults, init, dest, removeSource, k);
      EntryFrame(Entries(fs, faults, init, dest, removeSource).fs, faults, last, dest, removeSource, k);
    }
  }

  /** The entry loop never changes a directory or other non-file. */
  lemma {:induction false} EntriesKeepNonFiles(fs: FileSystem, faults: Faults, entries: seq<Path>, dest: Path, removeSource: bool, k: Path)
    requires k in fs.nodes && !fs.nodes[k].File?
    ensures Same(fs, Entries(fs, faults, entries, dest, removeSource).fs, k)
    decreases |entries|
  {
    if entries != [] {
      var init, last := entries[..|entries| - 1], entries[|entries| - 1];
      EntriesKeepNonFiles(fs, faults, init, dest, removeSource, k);
      EntryFrame(Entries(fs, faults, init, dest, removeSource).fs, faults, last, dest, removeSource, k);
    }
  }

  /**
   * Over the distinct entries of one directory, the loop leaves each entry and
   * its target exactly as handling that entry alone on the initial state would.
   */
  lemma {:induction false} EntriesAt(fs: FileSystem, faults: Faults, entries: seq<Path>, source: Path, dest: Path, removeSource: bool, p: Path)
    requires Distinct(entries) && forall q :: q in entries ==> IsChild(source, q)
    requires p in entries
    ensures Same(Entries(fs, faults, entries, dest, removeSource).fs, Entry(fs, faults, p, dest, removeSource).fs, p)
    ensures Same(Entries(fs, faults, entries, dest, removeSource).fs, Entry(fs, faults, p, dest, removeSource).fs, Target(dest, p))
    decreases |entries|
  {
    var init, last := entries[..|entries| - 1], entries[|entries| - 1];
    var before := Entries(fs, faults, init, dest, removeSource).fs;
    assert forall q :: q in init ==> q in entries && q != last;
    if p == last {
      forall q | q in init
        ensures p != Target(dest, q) && Target(dest, p) != q && Target(dest, p) != Target(dest, q)
      {
        TargetsApart(source, dest, p, q);
        TargetsApart(source, dest, q, p);
      }
      EntriesFrame(fs, faults, init, dest, removeSource, p);
      EntriesFrame(fs, faults, init, dest, removeSource, Target(dest, p));
      EntryLocal(before, fs, faults, p, dest, removeSource);
    } else {
      assert p in init;
      assert Distinct(init);
      EntriesAt(fs, faults, init, source, dest, removeSource, p);
      TargetsApart(source, dest, p, last);
      TargetsApart(source, dest, last, p);
      EntryFrame(before, faults, last, dest, removeSource, p);
      EntryFrame(before, faults, last, dest, removeSource, Target(dest, p));
    }
  }

  /** The loop returns exactly the entries that are collected, each once, in listing order. */
  lemma {:induction false} EntriesDirs(fs: FileSystem, faults: Faults, entries: seq<Path>, source: Path, dest: Path, removeSource: bool)
    requires Distinct(entries) && forall q :: q in entries ==> IsChild(source, q)
    ensures Distinct(Entries(fs, faults, entries, dest, removeSource).dirs)
    ensures forall d :: d in Entries(fs, faults, entries, dest, removeSource).dirs <==> d in entries && Collected(fs, faults, d)
    decreases |entries|
  {
    if entries != [] {
      var init := entries[..|entries| - 1];
      assert forall q :: q in init ==> q in entries;
      assert Distinct(init);
      EntriesDirs(fs, faults, init, source, dest, removeSource);
      EntriesDirsLast(fs, faults, entries, source, dest, removeSource);
    }
  }

  /** The step of `EntriesDirs`: the last entry is collected as it would be on the initial file system, and only once. */
  lemma EntriesDirsLast(fs: FileSystem, faults: Faults, entries: seq<Path>, source: Path, dest: Path, removeSource: bool)
    requires entries != [] && Distinct(entries) && forall q :: q in entries ==> IsChild(source, q)
    requires var before := Entries(fs, faults, entries[..|entries| - 1], dest, removeSource).dirs;
             Distinct(before) && forall d :: d in before <==> d in entries[..|entries| - 1] && Collected(fs, faults, d)
    ensures Distinct(Entries(fs, faults, entries, dest, removeSource).dirs)
    ensures forall d :: d in Entries(fs, faults, entries, dest, removeSource).dirs <==> d in entries && Collected(fs, faults, d)
  {
    var init, last := entries[..|entries| - 1], entries[|entries| - 1];
    assert forall q :: q in init ==> q in entries && q != last;
    forall q | q in init
      ensures last != Target(dest, q)
    {
      TargetsApart(source, dest, q, last);
    }
    EntriesFrame(fs, faults, init, dest, removeSource, last);
    var before := Entries(fs, faults, init, dest, removeSource);
    var step := Entry(before.fs, faults, last, dest, removeSource);
    assert step.dirs == if Collected(fs, faults, last) then [last] else [];
    assert last !in before.dirs;
    AppendDirs(before.dirs, last, Collected(fs, faults, last));
    LastSplit(entries);
  }

  /** An element of a non-empty sequence is its last element or an element of the rest. */
  lemma LastSplit<T>(s: seq<T>)
    requires s != []
    ensures forall x :: x in s <==> x in s[..|s| - 1] || x == s[|s| - 1]
  {
    assert s == s[..|s| - 1] + [s[|s| - 1]];
  }

  /** Appending a new element, or nothing, to a sequence without repetitions. */
  lemma AppendDirs(dirs: seq<Path>, last: Path, add: bool)
    requires Distinct(dirs) && last !in dirs
    ensures Distinct(dirs + if add then [last] else [])
    ensures forall d :: d in dirs + (if add then [last] else []) <==> d in dirs || (add && d == last)
  {
  }

  // ---------------------------------------------------------------------------
  // What a whole call does

  /**
   * The call succeeds exactly when `source` can be listed and `dest` created;
   * the listing comes first, so a listing failure is reported as such and
   * nothing is created; on failure nothing changes; on success `dest` is a
   * directory, even when `source` is empty.
   */
  lemma ProcessOutcome(fs: FileSystem, faults: Faults, source: Path, dest: Path, removeSource: bool)
    ensures Process(fs, faults, source, dest, removeSource).result.Ok?
        <==> source in fs.nodes && fs.nodes[source].Dir? && source !in faults.listFails
             && dest !in faults.createFails && !Blocked(fs, dest)
    ensures !(source in fs.nodes && fs.nodes[source].Dir? && source !in faults.listFails)
        ==> Process(fs, faults, source, dest, removeSource) == Processed(fs, Err(ListFailed))
    ensures Process(fs, faults, source, dest, removeSource).result.Err?
        ==> Process(fs, faults, source, dest, removeSource).fs == fs
    ensures Process(fs, faults, source, dest, removeSource).result.Ok?
        ==> dest in Process(fs, faults, source, dest, removeSource).fs.nodes
            && Process(fs, faults, source, dest, removeSource).fs.nodes[dest] == Dir
    ensures Wf(fs) ==> Wf(Process(fs, faults, source, dest, removeSource).fs)
  {
    var listing := ReadDir(fs, faults, source);
    var created := CreateDirAll(fs, faults, dest);
    if listing.Ok? && created.Ok? {
      EntriesKeepNonFiles(created.value, faults, listing.value, dest, removeSource, dest);
    }
  }

  /**
   * The returned vector holds, each once, exactly the direct entries of
   * `source` whose type lookup succeeds and that are not regular files.
   */
  lemma ProcessDirs(fs: FileSystem, faults: Faults, source: Path, dest: Path, removeSource: bool)
    requires Wf(fs)
    requires Process(fs, faults, source, dest, removeSource).result.Ok?
    ensures Distinct(Process(fs, faults, source, dest, removeSource).result.value)
    ensures forall d :: d in Process(fs, faults, source, dest, removeSource).result.value
                    <==> IsChild(source, d) && Collected(fs, faults, d)
  {
    var entries := ReadDir(fs, faults, source).value;
    var created := CreateDirAll(fs, faults, dest).value;
    EntriesDirs(created, faults, entries, source, dest, removeSource);
    assert forall d :: d in entries ==> d in fs.nodes && (Collected(created, faults, d) <==> Collected(fs, faults, d));
  }

  /**
   * Each direct entry of `source`, and its target in `dest`, end up as handling
   * that entry alone on the initial file system leaves them.
   */
  lemma ProcessAt(fs: FileSystem, faults: Faults, source: Path, dest: Path, removeSource: bool, p: Path)
    requires Wf(fs)
    requires Process(fs, faults, source, dest, removeSource).result.Ok?
    requires IsChild(source, p) && p in fs.nodes
    ensures Same(Process(fs, faults, source, dest, removeSource).fs, Entry(fs, faults, p, dest, removeSource).fs, p)
    ensures Same(Process(fs, faults, source, dest, removeSource).fs, Entry(fs, faults, p, dest, removeSource).fs, Target(dest, p))
  {
    var entries := ReadDir(fs, faults, source).value;
    var created := CreateDirAll(fs, faults, dest).value;
    EntriesAt(created, faults, entries, source, dest, removeSource, p);
    var t := Target(dest, p);
    assert !IsPrefix(t, dest);
    assert Same(created, fs, p) && Same(created, fs, t);
    EntryLocal(created, fs, faults, p, dest, removeSource);
  }

  /**
   * A regular file whose copy succeeds ends up at `dest.join(file_name)` with the
   * same content; it is gone from `source` exactly when removal was asked for
   * and succeeded, and otherwise stays as it was.
   */
  lemma ProcessCopiesFile(fs: FileSystem, faults: Faults, source: Path, dest: Path, removeSource: bool, p: Path)
    requires Wf(fs) && source != dest
    requires Process(fs, faults, source, dest, removeSource).result.Ok?
    requires IsChild(source, p) && p in fs.nodes && fs.nodes[p].File?
    requires p !in faults.typeFails && p !in faults.copyFails
    requires !(Target(dest, p) in fs.nodes && !fs.nodes[Target(dest, p)].File?)
    ensures Target(dest, p) in Process(fs, faults, source, dest, removeSource).fs.nodes
    ensures Process(fs, faults, source, dest, removeSource).fs.nodes[Target(dest, p)] == fs.nodes[p]
    ensures p in Process(fs, faults, source, dest, removeSource).fs.nodes
        <==> !(removeSource && p !in faults.removeFails)
    ensures p in Process(fs, faults, source, dest, removeSource).fs.nodes
        ==> Process(fs, faults, source, dest, removeSource).fs.nodes[p] == fs.nodes[p]
  {
    ProcessAt(fs, faults, source, dest, removeSource, p);
    TargetIsEntry(source, dest, p);
    EntryCopiesFile(fs, faults, p, dest, removeSource);
  }

  /**
   * A regular file whose type lookup or copy fails is left in place, and its
   * target is left as it was.
   */
  lemma ProcessKeepsUncopied(fs: FileSystem, faults: Faults, source: Path, dest: Path, removeSource: bool, p: Path)
    requires Wf(fs)
    requires IsChild(source, p) && p in fs.nodes && fs.nodes[p].File?
    requires p in faults.typeFails || p in faults.copyFails
             || (Target(dest, p) in fs.nodes && !fs.nodes[Target(dest, p)].File?)
    ensures Same(fs, Process(fs, faults, source, dest, removeSource).fs, p)
    ensures Same(fs, Process(fs, faults, source, dest, removeSource).fs, Target(dest, p))
  {
    ProcessOutcome(fs, faults, source, dest, removeSource);
    if Process(fs, faults, source, dest, removeSource).result.Ok? {
      ProcessAt(fs, faults, source, dest, removeSource, p);
    }
  }

  /** Without `remove_source`, every existing entry of `source` is left as it was. */
  lemma ProcessWithoutRemoveKeepsSource(fs: FileSystem, faults: Faults, source: Path, dest: Path, p: Path)
    requires Wf(fs) && source != dest
    requires IsChild(source, p) && p in fs.nodes
    ensures Same(fs, Process(fs, faults, source, dest, false).fs, p)
  {
    ProcessOutcome(fs, faults, source, dest, false);
    if Process(fs, faults, source, dest, false).result.Ok? {
      ProcessAt(fs, faults, source, dest, false, p);
      TargetIsEntry(source, dest, p);
    }
  }

  /**
   * Copying a directory onto itself: each regular file whose copy succeeds is
   * truncated to nothing, and is gone altogether when removal was asked for
   * and succeeded.
   */
  lemma ProcessOntoItself(fs: FileSystem, faults: Faults, source: Path, removeSource: bool, p: Path)
    requires Wf(fs)
    requires Process(fs, faults, source, source, removeSource).result.Ok?
    requires IsChild(source, p) && p in fs.nodes && fs.nodes[p].File?
    requires p !in faults.typeFails && p !in faults.copyFails
    ensures p in Process(fs, faults, source, source, removeSource).fs.nodes
        <==> !(removeSource && p !in faults.removeFails)
    ensures p in Process(fs, faults, source, source, removeSource).fs.nodes
        ==> Process(fs, faults, source, source, removeSource).fs.nodes[p] == File([])
  {
    ProcessAt(fs, faults, source, source, removeSource, p);
    TargetIsEntry(source, source, p);
  }

  /**
   * Apart from the existing entries of `source` and their targets in `dest`,
   * the call changes nothing: it only adds the missing directories leading to `dest`.
   */
  lemma ProcessFrame(fs: FileSystem, faults: Faults, source: Path, dest: Path, removeSource: bool, k: Path)
    requires Wf(fs)
    requires !(k in fs.nodes && IsChild(source, k))
    requires !(IsChild(dest, k) && Join(source, FileName(k)) in fs.nodes)
    ensures k in fs.nodes ==> k in Process(fs, faults, source, dest, removeSource).fs.nodes
                              && Process(fs, faults, source, dest, removeSource).fs.nodes[k] == fs.nodes[k]
    ensures k !in fs.nodes && k in Process(fs, faults, source, dest, removeSource).fs.nodes
        ==> IsPrefix(k, dest) && Process(fs, faults, source, dest, removeSource).fs.nodes[k] == Dir
  {
    var listing := ReadDir(fs, faults, source);
    var created := CreateDirAll(fs, faults, dest);
    if listing.Ok? && created.Ok? {
      var entries := listing.value;
      forall q | q in entries
        ensures k != Target(dest, q)
      {
        assert IsChild(dest, Target(dest, q)) && FileName(Target(dest, q)) == FileName(q);
        assert q == Join(source, FileName(q));
      }
      EntriesFrame(created.value, faults, entries, dest, removeSource, k);
    }
  }

  /** One turn of the `while let` loop: classify `p`, then copy (and remove) it or collect it. */
  method HandleEntry(fs: FileSystem, faults: Faults, p: Path, dest: Path, removeSource: bool)
    returns (fs': FileSystem, collected: bool)
    ensures Step(fs', if collected then [p] else []) == Entry(fs, faults, p, dest, removeSource)
  {
    fs', collected := fs, false;
    if p in faults.typeFails || p !in fs.nodes {
      // file_type failed: logged, the entry is skipped
    } else if fs.nodes[p].File? {
      var copied := CopyFile(fs, faults, p, Target(dest, p));
      if copied.Ok? {
        fs' := copied.value;
        if removeSource {
          var removed := RemoveFile(fs', faults, p);
          if removed.Ok? {
            fs' := removed.value;
          }
        }
      }
    } else {
      collected := true;
    }
  }

  /** The `while let` loop over the listing: every entry handled in turn, directories collected in order. */
  method HandleEntries(fs: FileSystem, faults: Faults, entries: seq<Path>, dest: Path, removeSource: bool)
    returns (fs': FileSystem, directories: seq<Path>)
    ensures Step(fs', directories) == Entries(fs, faults, entries, dest, removeSource)
  {
    fs', directories := fs, [];
    var i := 0;
    while i < |entries|
      invariant 0 <= i <= |entries|
      invariant Step(fs', directories) == Entries(fs, faults, entries[..i], dest, removeSource)
    {
      var p := entries[i];
      var collected;
      fs', collected := HandleEntry(fs', faults, p, dest, removeSource);
      if collected {
        directories := directories + [p];
      }
      assert entries[..i + 1][..i] == entries[..i];
      i := i + 1;
    }
    assert entries[..i] == entries;
  }

  /** The copier's `process_directory`: list, then create, then the entry loop. */
  method ProcessDirectory(fs: FileSystem, faults: Faults, source: Path, dest: Path, removeSource: bool)
    returns (fs': FileSystem, result: Result<seq<Path>>)
    ensures Processed(fs', result) == Process(fs, faults, source, dest, removeSource)
  {
    var listing := ReadDir(fs, faults, source);
    if listing.Err? {
      return fs, Err(listing.error);
    }
    var created := CreateDirAll(fs, faults, dest);
    if created.Err? {
      return fs, Err(created.error);
    }
    var directories;
    fs', directories := HandleEntries(created.value, faults, listing.value, dest, removeSource);
    result := Ok(directories);
  }
}
