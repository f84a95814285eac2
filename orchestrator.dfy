/**
 * The copier's `main`: check that the source root exists, process it
 * synchronously, then run the work-list loop over `dirs` with a JoinSet of at
 * most `batch_size` tasks, and finally remove the whole source tree when
 * `delete_source` is set.
 *
 * A task runs, atomically, when it is joined. Which pending task `join_next`
 * returns is chosen by `pick`: the k-th join (counting from 0) takes index
 * `pick(k) % |pending|`.
 */
module Orchestrator {
  import opened Results
  import opened Paths
  import opened FileSystems
  import opened Processor

  /** `--source`, `--destination`, `--delete-source` and `--concurrency`. */
  datatype Config = Config(baseSource: Path, baseDest: Path, deleteSource: bool, batchSize: nat)

  /** A spawned `process_directory(&dir, &dest, delete_source)`. */
  datatype Task = Task(source: Path, dest: Path)

  /**
   * The loop's state: the file system, the `dirs` stack (popped at the end) and
   * the JoinSet's pending tasks; `spawned`, `joined` and `fed` record every task
   * spawned, every task joined and every path pushed onto `dirs`, in order.
   */
  datatype LoopState = LoopState(
    fs: FileSystem,
    dirs: seq<Path>,
    pending: seq<Task>,
    spawned: seq<Task>,
    joined: seq<Task>,
    fed: seq<Path>)

  /** How the loop ended: `finished` when `dirs` ran empty, otherwise the iteration bound was reached. */
  datatype Exit = Exit(st: LoopState, finished: bool)

  datatype Outcome = Done | Failed(error: Error)

  /** What `main` leaves: the file system, its result, and the tasks still in the JoinSet when it returns. */
  datatype Report = Report(fs: FileSystem, outcome: Outcome, unjoined: seq<Task>)

  /** The most tasks the JoinSet holds right after a spawn: `max(batch_size, 1)`. */
  function Slots(batchSize: nat): nat
  {
    if batchSize == 0 then 1 else batchSize
  }

  /** The source directories of `tasks`, in order. */
  function Sources(tasks: seq<Task>): (r: seq<Path>)
    ensures |r| == |tasks|
  {
    if tasks == [] then [] else Sources(tasks[..|tasks| - 1]) + [tasks[|tasks| - 1].source]
  }

  lemma SourcesAppend(tasks: seq<Task>, t: Task)
    ensures Sources(tasks + [t]) == Sources(tasks) + [t.source]
  {
    assert (tasks + [t])[..|tasks|] == tasks;
  }

  /** A task's destination is its source re-rooted from the source root to the destination root. */
  predicate Rerooted(cfg: Config, t: Task)
  {
    Reroot(cfg.baseSource, cfg.baseDest, t.source) == Some(t.dest)
  }

  /** Every path ever pushed onto `dirs`, and every path still on it, lies under the source root. */
  predicate UnderSource(cfg: Config, st: LoopState)
  {
    && (forall d :: d in st.fed ==> IsPrefix(cfg.baseSource, d))
    && (forall d :: d in st.dirs ==> IsPrefix(cfg.baseSource, d))
  }

  /**
   * Nothing is lost or duplicated: every pushed path is either still on `dirs`
   * or was spawned, as often as it was pushed, and every spawned task is
   * either pending or was joined exactly once.
   */
  predicate Conserved(st: LoopState)
  {
    && multiset(st.dirs) + multiset(Sources(st.spawned)) == multiset(st.fed)
    && multiset(st.pending) + multiset(st.joined) == multiset(st.spawned)
  }

  /** Every task's destination is its re-rooted source. */
  predicate AllRerooted(cfg: Config, st: LoopState)
  {
    && (forall t :: t in st.spawned ==> Rerooted(cfg, t))
    && (forall t :: t in st.pending ==> Rerooted(cfg, t))
  }

  /** The loop's bookkeeping. */
  predicate Tracked(cfg: Config, st: LoopState)
  {
    Wf(st.fs) && UnderSource(cfg, st) && Conserved(st) && AllRerooted(cfg, st)
  }

  /** The invariant at the head of the loop: the bookkeeping, and the JoinSet below `max(batch_size, 1)`. */
  predicate Inv(cfg: Config, st: LoopState)
  {
    Tracked(cfg, st) && |st.pending| < Slots(cfg.batchSize)
  }

  /** Lines 132-136: pop the last directory, re-root it, spawn its task. */
  function Spawn(cfg: Config, st: LoopState): (r: LoopState)
    requires st.dirs != [] && IsPrefix(cfg.baseSource, st.dirs[|st.dirs| - 1])
  {
    var dir := st.dirs[|st.dirs| - 1];
    var task := Task(dir, cfg.baseDest + StripPrefix(cfg.baseSource, dir).value);
    st.(dirs := st.dirs[..|st.dirs| - 1], pending := st.pending + [task], spawned := st.spawned + [task])
  }

  /**
   * Lines 140-148: `join_next` returns one pending task, which runs now; its
   * directories are appended to `dirs` if it succeeded, and a failed task (its
   * `unwrap` panicked) contributes nothing.
   */
  function JoinOne(cfg: Config, faults: Faults, pick: nat -> nat, st: LoopState): (r: LoopState)
    requires st.pending != []
  {
    var i := pick(|st.joined|) % |st.pending|;
    var task := st.pending[i];
    var done := Process(st.fs, faults, task.source, task.dest, cfg.deleteSource);
    var found := if done.result.Ok? then done.result.value else [];
    Joined(st, i, done.fs, found)
  }

  /** The state after pending task `i` was joined, left `fs` behind and returned `found`. */
  function Joined(st: LoopState, i: nat, fs: FileSystem, found: seq<Path>): LoopState
    requires i < |st.pending|
  {
    st.(fs := fs, dirs := st.dirs + found, pending := st.pending[..i] + st.pending[i + 1..],
        joined := st.joined + [st.pending[i]], fed := st.fed + found)
  }

  /** One turn of the `while let` loop: spawn, then join one task when the JoinSet holds `batch_size` or more. */
  function Iterate(cfg: Config, faults: Faults, pick: nat -> nat, st: LoopState): (r: LoopState)
    requires Inv(cfg, st) && st.dirs != []
    ensures Inv(cfg, r)
    ensures |r.spawned| == |st.spawned| + 1 && |r.dirs| >= |st.dirs| - 1
    ensures |r.joined| == if |st.pending| + 1 >= cfg.batchSize then |st.joined| + 1 else |st.joined|
  {
    SpawnTracked(cfg, st);
    var spawned := Spawn(cfg, st);
    if |spawned.pending| >= cfg.batchSize then
      JoinTracked(cfg, faults, pick, spawned);
      JoinOne(cfg, faults, pick, spawned)
    else
      spawned
  }

  /** The loop, for at most `fuel` turns; it stops as soon as `dirs` is empty, whatever is still pending. */
  function Loop(cfg: Config, faults: Faults, pick: nat -> nat, st: LoopState, fuel: nat): (r: Exit)
    requires Inv(cfg, st)
    ensures Inv(cfg, r.st)
    ensures r.finished <==> r.st.dirs == []
    ensures OutsideKept(cfg, st.fs, r.st.fs)
    ensures !cfg.deleteSource && Disjoint(cfg.baseSource, cfg.baseDest) ==> SourceKept(cfg, st.fs, r.st.fs)
    decreases fuel
  {
    if st.dirs == [] then Exit(st, true)
    else if fuel == 0 then Exit(st, false)
    else
      var next := Iterate(cfg, faults, pick, st);
      IterateOutside(cfg, faults, pick, st);
      IterateKeepsSourceTree(cfg, faults, pick, st);
      var r := Loop(cfg, faults, pick, next, fuel - 1);
      OutsideKeptTrans(cfg, st.fs, next.fs, r.st.fs);
      SourceKeptTrans(cfg, st.fs, next.fs, r.st.fs);
      r
  }

  /** The state the loop starts from, after the root was processed and returned `found`. */
  function Start(fs: FileSystem, found: seq<Path>): (r: LoopState)
    ensures r.fs == fs && r.dirs == found && r.pending == [] && Conserved(r)
  {
    LoopState(fs, found, [], [], [], found)
  }

  /** Lines 153-159: after the loop, remove the whole source tree when `delete_source` is set. */
  function Finish(cfg: Config, faults: Faults, exit: Exit): (r: Report)
    ensures r.unjoined == exit.st.pending
    ensures r.outcome.Failed? ==> r.outcome.error == if exit.finished then RemoveFailed else FuelExhausted
    ensures r.outcome.Failed? ==> r.fs == exit.st.fs
  {
    if !exit.finished then Report(exit.st.fs, Failed(FuelExhausted), exit.st.pending)
    else if !cfg.deleteSource then Report(exit.st.fs, Done, exit.st.pending)
    else
      match RemoveDirAll(exit.st.fs, faults, cfg.baseSource)
      case Err(e) => Report(exit.st.fs, Failed(e), exit.st.pending)
      case Ok(cleared) => Report(cleared, Done, exit.st.pending)
  }

  /** `main` from line 123 on, with the work-list loop bounded by `fuel` turns. */
  function Run(fs: FileSystem, faults: Faults, cfg: Config, pick: nat -> nat, fuel: nat): (r: Report)
    requires Wf(fs)
    ensures r.outcome == Failed(SourceMissing) <==> cfg.baseSource !in fs.nodes
    ensures r.outcome == Failed(SourceMissing) ==> r.fs == fs && r.unjoined == []
  {
    if cfg.baseSource !in fs.nodes then Report(fs, Failed(SourceMissing), [])
    else
      var seed := Process(fs, faults, cfg.baseSource, cfg.baseDest, cfg.deleteSource);
      match seed.result
      case Err(e) => Report(seed.fs, Failed(e), [])
      case Ok(found) =>
        SeedInv(fs, faults, cfg);
        Finish(cfg, faults, Loop(cfg, faults, pick, Start(seed.fs, found), fuel))
  }

  /**
   * `main` from line 123 on: the source-exists guard, the synchronous root
   * call, the work-list loop, and the final removal of the source tree.
   */
  method CopyTree(fs: FileSystem, faults: Faults, cfg: Config, pick: nat -> nat, fuel: nat)
    returns (fs': FileSystem, outcome: Outcome, unjoined: seq<Task>)
    requires Wf(fs)
    ensures Report(fs', outcome, unjoined) == Run(fs, faults, cfg, pick, fuel)
  {
    if cfg.baseSource !in fs.nodes {
      return fs, Failed(SourceMissing), [];
    }
    var seedFs, seedResult := ProcessDirectory(fs, faults, cfg.baseSource, cfg.baseDest, cfg.deleteSource);
    if seedResult.Err? {
      return seedFs, Failed(seedResult.error), [];
    }
    SeedInv(fs, faults, cfg);
    var current, dirs, pending := WorkList(cfg, faults, pick, seedFs, seedResult.value, fuel);
    if dirs != [] {
      return current, Failed(FuelExhausted), pending;
    }
    if !cfg.deleteSource {
      return current, Done, pending;
    }
    match RemoveDirAll(current, faults, cfg.baseSource)
    case Err(e) =>
      return current, Failed(e), pending;
    case Ok(cleared) =>
      return cleared, Done, pending;
  }

  /** Lines 132-151: the `while let` loop over `dirs`, for at most `fuel` turns. */
  method WorkList(cfg: Config, faults: Faults, pick: nat -> nat, fs: FileSystem, found: seq<Path>, fuel: nat)
    returns (fs': FileSystem, dirs: seq<Path>, pending: seq<Task>)
    requires Inv(cfg, Start(fs, found))
    ensures var exit := Loop(cfg, faults, pick, Start(fs, found), fuel);
            fs' == exit.st.fs && dirs == exit.st.dirs && pending == exit.st.pending
            && (exit.finished <==> dirs == [])
  {
    fs', dirs, pending := fs, found, [];
    var joins: nat := 0;
    var turns: nat := 0;
    ghost var st := Start(fs, found);
    while dirs != [] && turns < fuel
      invariant turns <= fuel && Inv(cfg, st)
      invariant fs' == st.fs && dirs == st.dirs && pending == st.pending && joins == |st.joined|
      invariant Loop(cfg, faults, pick, st, fuel - turns) == Loop(cfg, faults, pick, Start(fs, found), fuel)
      decreases fuel - turns
    {
      fs', dirs, pending, joins := Turn(cfg, faults, pick, fs', dirs, pending, joins, st);
      st := Iterate(cfg, faults, pick, st);
      turns := turns + 1;
    }
  }

  /** One turn of the loop: pop, re-root and spawn (lines 132-136), then join one task when the JoinSet is full (lines 138-149). */
  method Turn(cfg: Config, faults: Faults, pick: nat -> nat, fs: FileSystem, dirs: seq<Path>, pending: seq<Task>,
              joins: nat, ghost st: LoopState)
    returns (fs': FileSystem, dirs': seq<Path>, pending': seq<Task>, joins': nat)
    requires Inv(cfg, st) && dirs != []
    requires fs == st.fs && dirs == st.dirs && pending == st.pending && joins == |st.joined|
    ensures var r := Iterate(cfg, faults, pick, st);
            fs' == r.fs && dirs' == r.dirs && pending' == r.pending && joins' == |r.joined|
  {
    SpawnTracked(cfg, st);
    ghost var spawned := Spawn(cfg, st);
    var dir := dirs[|dirs| - 1];
    var dest := cfg.baseDest + StripPrefix(cfg.baseSource, dir).value;
    fs', dirs', pending' := fs, dirs[..|dirs| - 1], pending + [Task(dir, dest)];
    assert pending' == spawned.pending;
    if |pending'| >= cfg.batchSize {
      var i := pick(joins) % |pending'|;
      var task := pending'[i];
      var done, result := ProcessDirectory(fs', faults, task.source, task.dest, cfg.deleteSource);
      var found := if result.Ok? then result.value else [];
      fs', dirs', pending', joins' := done, dirs' + found, pending'[..i] + pending'[i + 1..], joins + 1;
      assert Joined(spawned, i, done, found) == JoinOne(cfg, faults, pick, spawned);
    } else {
      joins' := joins;
    }
  }

  // ---------------------------------------------------------------------------
  // The bookkeeping is kept

  lemma SeedInv(fs: FileSystem, faults: Faults, cfg: Config)
    requires Wf(fs)
    requires Process(fs, faults, cfg.baseSource, cfg.baseDest, cfg.deleteSource).result.Ok?
    ensures var seed := Process(fs, faults, cfg.baseSource, cfg.baseDest, cfg.deleteSource);
            Inv(cfg, Start(seed.fs, seed.result.value))
  {
    ProcessOutcome(fs, faults, cfg.baseSource, cfg.baseDest, cfg.deleteSource);
    ProcessDirs(fs, faults, cfg.baseSource, cfg.baseDest, cfg.deleteSource);
  }

  /** Spawning keeps the bookkeeping, with one more pending task, re-rooted; the `unwrap` cannot fail. */
  lemma SpawnTracked(cfg: Config, st: LoopState)
    requires Tracked(cfg, st) && st.dirs != []
    ensures IsPrefix(cfg.baseSource, st.dirs[|st.dirs| - 1])
    ensures Tracked(cfg, Spawn(cfg, st))
    ensures |Spawn(cfg, st).pending| == |st.pending| + 1
    ensures Spawn(cfg, st).joined == st.joined && Spawn(cfg, st).fs == st.fs
  {
    assert st.dirs[|st.dirs| - 1] in st.dirs;
    SpawnUnderSource(cfg, st);
    SpawnConserved(cfg, st);
    SpawnRerooted(cfg, st);
  }

  /**
   * A spawn pops the last directory and adds its task, whose destination is
   * the directory re-rooted, to the JoinSet; nothing else changes.
   */
  lemma SpawnPops(cfg: Config, st: LoopState)
    requires st.dirs != [] && IsPrefix(cfg.baseSource, st.dirs[|st.dirs| - 1])
    ensures var dir := st.dirs[|st.dirs| - 1];
            var task := Task(dir, Reroot(cfg.baseSource, cfg.baseDest, dir).value);
            var r := Spawn(cfg, st);
            && st.dirs == r.dirs + [dir]
            && r.pending == st.pending + [task] && r.spawned == st.spawned + [task]
            && r.fs == st.fs && r.joined == st.joined && r.fed == st.fed
  {
    assert st.dirs == st.dirs[..|st.dirs| - 1] + [st.dirs[|st.dirs| - 1]];
  }

  lemma SpawnUnderSource(cfg: Config, st: LoopState)
    requires UnderSource(cfg, st) && st.dirs != [] && IsPrefix(cfg.baseSource, st.dirs[|st.dirs| - 1])
    ensures UnderSource(cfg, Spawn(cfg, st))
  {
    var r := Spawn(cfg, st);
    assert forall d :: d in r.dirs ==> d in st.dirs;
  }

  lemma SpawnConserved(cfg: Config, st: LoopState)
    requires Conserved(st) && st.dirs != [] && IsPrefix(cfg.baseSource, st.dirs[|st.dirs| - 1])
    ensures Conserved(Spawn(cfg, st))
  {
    var r := Spawn(cfg, st);
    var dir := st.dirs[|st.dirs| - 1];
    var task := r.spawned[|r.spawned| - 1];
    assert st.dirs == r.dirs + [dir];
    assert multiset(st.dirs) == multiset(r.dirs) + multiset{dir};
    SourcesAppend(st.spawned, task);
    assert multiset(Sources(r.spawned)) == multiset(Sources(st.spawned)) + multiset{dir};
  }

  lemma SpawnRerooted(cfg: Config, st: LoopState)
    requires AllRerooted(cfg, st) && st.dirs != [] && IsPrefix(cfg.baseSource, st.dirs[|st.dirs| - 1])
    ensures AllRerooted(cfg, Spawn(cfg, st))
  {
    var r := Spawn(cfg, st);
    assert Rerooted(cfg, r.spawned[|r.spawned| - 1]);
  }

  /** Joining keeps the bookkeeping, with one task fewer pending and one more joined. */
  lemma JoinTracked(cfg: Config, faults: Faults, pick: nat -> nat, st: LoopState)
    requires Tracked(cfg, st) && st.pending != []
    ensures Tracked(cfg, JoinOne(cfg, faults, pick, st))
    ensures |JoinOne(cfg, faults, pick, st).pending| == |st.pending| - 1
    ensures |JoinOne(cfg, faults, pick, st).joined| == |st.joined| + 1
    ensures var t := st.pending[pick(|st.joined|) % |st.pending|];
            var done := Process(st.fs, faults, t.source, t.dest, cfg.deleteSource);
            var r := JoinOne(cfg, faults, pick, st);
            done.result.Ok? ==>
              && r.dirs == st.dirs + done.result.value && r.fed == st.fed + done.result.value
              && Distinct(done.result.value)
              && forall d :: d in done.result.value <==> IsChild(t.source, d) && Collected(st.fs, faults, d)
  {
    var i := pick(|st.joined|) % |st.pending|;
    var task := st.pending[i];
    assert task in st.pending;
    var done := Process(st.fs, faults, task.source, task.dest, cfg.deleteSource);
    ProcessOutcome(st.fs, faults, task.source, task.dest, cfg.deleteSource);
    var found := if done.result.Ok? then done.result.value else [];
    if done.result.Ok? {
      ProcessDirs(st.fs, faults, task.source, task.dest, cfg.deleteSource);
      forall d | d in found
        ensures IsPrefix(cfg.baseSource, d)
      {
        PrefixTransitive(cfg.baseSource, task.source, d);
      }
    }
    JoinedTracked(cfg, st, i, done.fs, found);
  }

  /**
   * A join removes the picked task from the JoinSet, records it as joined and
   * leaves the file system its run left; a failed task pushes nothing.
   */
  lemma JoinPops(cfg: Config, faults: Faults, pick: nat -> nat, st: LoopState)
    requires st.pending != []
    ensures var i := pick(|st.joined|) % |st.pending|;
            var done := Process(st.fs, faults, st.pending[i].source, st.pending[i].dest, cfg.deleteSource);
            var r := JoinOne(cfg, faults, pick, st);
            && multiset(r.pending) + multiset{st.pending[i]} == multiset(st.pending)
            && r.joined == st.joined + [st.pending[i]]
            && r.spawned == st.spawned && r.fs == done.fs
            && (done.result.Err? ==> r.dirs == st.dirs && r.fed == st.fed)
  {
    var i := pick(|st.joined|) % |st.pending|;
    assert st.pending == st.pending[..i] + [st.pending[i]] + st.pending[i + 1..];
  }

  lemma JoinedTracked(cfg: Config, st: LoopState, i: nat, fs: FileSystem, found: seq<Path>)
    requires Tracked(cfg, st) && i < |st.pending| && Wf(fs)
    requires forall d :: d in found ==> IsPrefix(cfg.baseSource, d)
    ensures Tracked(cfg, Joined(st, i, fs, found))
    ensures |Joined(st, i, fs, found).pending| == |st.pending| - 1
    ensures |Joined(st, i, fs, found).joined| == |st.joined| + 1
  {
    var r := Joined(st, i, fs, found);
    var task := st.pending[i];
    assert st.pending == st.pending[..i] + [task] + st.pending[i + 1..];
    assert multiset(st.pending) == multiset(r.pending) + multiset{task};
    assert Conserved(r);
    assert forall t :: t in r.pending ==> t in st.pending;
  }

  // ---------------------------------------------------------------------------
  // What the loop leaves alone

  /** `k` lies outside both the source tree and the destination tree. */
  predicate Outside(cfg: Config, k: Path)
  {
    !IsPrefix(cfg.baseSource, k) && !IsPrefix(cfg.baseDest, k)
  }

  /** At `k`, `b` keeps what `a` had, and what `b` adds is a directory on the way to the destination root. */
  predicate KeptOutside(cfg: Config, a: FileSystem, b: FileSystem, k: Path)
  {
    && (k in a.nodes ==> k in b.nodes && b.nodes[k] == a.nodes[k])
    && (k !in a.nodes && k in b.nodes ==> IsPrefix(k, cfg.baseDest) && b.nodes[k] == Dir)
  }

  /** Every path outside both trees is kept from `a` to `b`. */
  ghost predicate OutsideKept(cfg: Config, a: FileSystem, b: FileSystem)
  {
    forall k :: Outside(cfg, k) ==> KeptOutside(cfg, a, b, k)
  }

  /** Every path at or below the source root is the same in `a` and `b`. */
  ghost predicate SourceKept(cfg: Config, a: FileSystem, b: FileSystem)
  {
    forall k :: IsPrefix(cfg.baseSource, k) ==> Same(a, b, k)
  }

  /** The root call is the task of the source root itself. */
  lemma RootRerooted(cfg: Config)
    ensures Rerooted(cfg, Task(cfg.baseSource, cfg.baseDest))
  {
    assert cfg.baseSource[|cfg.baseSource|..] == [];
    assert cfg.baseDest + [] == cfg.baseDest;
  }

  /** One task touches nothing outside the two trees, except the directories leading to the destination root. */
  lemma ProcessOutside(cfg: Config, fs: FileSystem, faults: Faults, task: Task, k: Path)
    requires Wf(fs) && Rerooted(cfg, task) && Outside(cfg, k)
    ensures KeptOutside(cfg, fs, Process(fs, faults, task.source, task.dest, cfg.deleteSource).fs, k)
  {
    PrefixChain(cfg.baseSource, task.source, k);
    PrefixChain(cfg.baseDest, task.dest, k);
    ProcessFrame(fs, faults, task.source, task.dest, cfg.deleteSource, k);
    var after := Process(fs, faults, task.source, task.dest, cfg.deleteSource).fs;
    if k !in fs.nodes && k in after.nodes {
      PrefixesComparable(k, cfg.baseDest, task.dest);
    }
  }

  lemma JoinOutside(cfg: Config, faults: Faults, pick: nat -> nat, st: LoopState)
    requires Tracked(cfg, st) && st.pending != []
    ensures OutsideKept(cfg, st.fs, JoinOne(cfg, faults, pick, st).fs)
  {
    var i := pick(|st.joined|) % |st.pending|;
    assert st.pending[i] in st.pending;
    forall k | Outside(cfg, k)
      ensures KeptOutside(cfg, st.fs, JoinOne(cfg, faults, pick, st).fs, k)
    {
      ProcessOutside(cfg, st.fs, faults, st.pending[i], k);
    }
  }

  lemma IterateOutside(cfg: Config, faults: Faults, pick: nat -> nat, st: LoopState)
    requires Inv(cfg, st) && st.dirs != []
    ensures OutsideKept(cfg, st.fs, Iterate(cfg, faults, pick, st).fs)
  {
    SpawnTracked(cfg, st);
    var spawned := Spawn(cfg, st);
    if |spawned.pending| >= cfg.batchSize {
      JoinOutside(cfg, faults, pick, spawned);
    }
  }

  lemma OutsideKeptTrans(cfg: Config, a: FileSystem, b: FileSystem, c: FileSystem)
    ensures OutsideKept(cfg, a, b) && OutsideKept(cfg, b, c) ==> OutsideKept(cfg, a, c)
  {
    if OutsideKept(cfg, a, b) && OutsideKept(cfg, b, c) {
      forall k | Outside(cfg, k)
        ensures KeptOutside(cfg, a, c, k)
      {
        assert KeptOutside(cfg, a, b, k) && KeptOutside(cfg, b, c, k);
      }
    }
  }

  /** With disjoint trees and no deletion, one task leaves every path under the source root as it was. */
  lemma ProcessKeepsSourceTree(cfg: Config, fs: FileSystem, faults: Faults, task: Task, k: Path)
    requires Wf(fs) && Rerooted(cfg, task) && Disjoint(cfg.baseSource, cfg.baseDest)
    requires IsPrefix(cfg.baseSource, k)
    ensures Same(fs, Process(fs, faults, task.source, task.dest, false).fs, k)
  {
    Apart(cfg.baseSource, cfg.baseDest, task.source);
    Apart(cfg.baseSource, cfg.baseDest, k);
    Apart(cfg.baseDest, cfg.baseSource, task.dest);
    PrefixChain(cfg.baseDest, task.dest, k);
    PrefixChain(cfg.baseSource, k, task.dest);
    if k in fs.nodes && IsChild(task.source, k) {
      ProcessWithoutRemoveKeepsSource(fs, faults, task.source, task.dest, k);
    } else {
      ProcessFrame(fs, faults, task.source, task.dest, false, k);
    }
  }

  lemma JoinKeepsSourceTree(cfg: Config, faults: Faults, pick: nat -> nat, st: LoopState)
    requires Tracked(cfg, st) && st.pending != []
    ensures !cfg.deleteSource && Disjoint(cfg.baseSource, cfg.baseDest) ==> SourceKept(cfg, st.fs, JoinOne(cfg, faults, pick, st).fs)
  {
    var i := pick(|st.joined|) % |st.pending|;
    assert st.pending[i] in st.pending;
    if !cfg.deleteSource && Disjoint(cfg.baseSource, cfg.baseDest) {
      forall k | IsPrefix(cfg.baseSource, k)
        ensures Same(st.fs, JoinOne(cfg, faults, pick, st).fs, k)
      {
        ProcessKeepsSourceTree(cfg, st.fs, faults, st.pending[i], k);
      }
    }
  }

  lemma IterateKeepsSourceTree(cfg: Config, faults: Faults, pick: nat -> nat, st: LoopState)
    requires Inv(cfg, st) && st.dirs != []
    ensures !cfg.deleteSource && Disjoint(cfg.baseSource, cfg.baseDest) ==> SourceKept(cfg, st.fs, Iterate(cfg, faults, pick, st).fs)
  {
    SpawnTracked(cfg, st);
    var spawned := Spawn(cfg, st);
    if |spawned.pending| >= cfg.batchSize {
      JoinKeepsSourceTree(cfg, faults, pick, spawned);
    }
  }

  lemma SourceKeptTrans(cfg: Config, a: FileSystem, b: FileSystem, c: FileSystem)
    ensures SourceKept(cfg, a, b) && SourceKept(cfg, b, c) ==> SourceKept(cfg, a, c)
  {
    if SourceKept(cfg, a, b) && SourceKept(cfg, b, c) {
      forall k | IsPrefix(cfg.baseSource, k)
        ensures Same(a, c, k)
      {
        assert Same(a, b, k) && Same(b, c, k);
      }
    }
  }
}
