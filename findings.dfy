/**
 * Two places where `main` does not do what its own comments and purpose say,
 * each shown on a concrete file system, and the corrected behaviour with the
 * property it was meant to have.
 *
 * 1. The `while let Some(dir) = dirs.pop()` loop (line 132) stops as soon as
 *    `dirs` is empty, while tasks may still sit in the JoinSet; when `main`
 *    returns, those tasks are dropped and their directories never copied.
 * 2. The final `remove_dir_all(base_source)` (lines 154-156) is meant to
 *    remove "only the directory structure empty of files", but removes every
 *    file still in the source tree, including each file whose copy failed or
 *    whose directory was never processed.
 */
module Findings {
  import opened Results
  import opened Paths
  import opened FileSystems
  import opened Processor
  import opened Orchestrator

  // ---------------------------------------------------------------------------
  // Runs whose root call returns little

  /** A sequence without repetitions whose only element is `x` is `[x]`. */
  lemma OnlyElement<T>(s: seq<T>, x: T)
    ensures Distinct(s) && x in s && (forall y :: y in s ==> y == x) ==> s == [x]
  {
    if |s| > 1 {
      assert s[0] in s && s[1] in s;
    }
    if |s| > 0 {
      assert s[0] in s;
    }
  }

  /** A sequence with no element is empty. */
  lemma NoElement<T>(s: seq<T>)
    ensures (forall y :: y !in s) ==> s == []
  {
    if s != [] {
      assert s[0] in s;
    }
  }

  /** A call on a directory whose only entry is the directory `sub` returns `[sub]`. */
  lemma SoleSubdirectory(fs: FileSystem, faults: Faults, source: Path, dest: Path, removeSource: bool, sub: Path)
    requires Wf(fs) && source in fs.nodes && fs.nodes[source].Dir? && source !in faults.listFails
    requires dest !in faults.createFails && !Blocked(fs, dest)
    requires IsChild(source, sub) && Collected(fs, faults, sub)
    requires forall d :: d in fs.nodes && IsChild(source, d) ==> d == sub
    ensures Process(fs, faults, source, dest, removeSource).result == Ok([sub])
  {
    ProcessOutcome(fs, faults, source, dest, removeSource);
    ProcessDirs(fs, faults, source, dest, removeSource);
    OnlyElement(Process(fs, faults, source, dest, removeSource).result.value, sub);
  }

  /** From a single directory on `dirs` and an empty JoinSet, one turn spawns its task, joins nothing, and the loop ends. */
  lemma SpawnOnlyTurn(cfg: Config, faults: Faults, pick: nat -> nat, st: LoopState, fuel: nat)
    requires Inv(cfg, st) && cfg.batchSize > 1 && fuel > 0
    requires |st.dirs| == 1 && st.pending == []
    ensures IsPrefix(cfg.baseSource, st.dirs[0])
    ensures var exit := Loop(cfg, faults, pick, st, fuel);
            && exit.finished && exit.st.fs == st.fs
            && exit.st.pending == [Task(st.dirs[0], Reroot(cfg.baseSource, cfg.baseDest, st.dirs[0]).value)]
  {
    SpawnOnlyIterate(cfg, faults, pick, st);
    assert Loop(cfg, faults, pick, st, fuel) == Exit(Spawn(cfg, st), true);
  }

  /** The turn of `SpawnOnlyTurn` spawns the one task and joins nothing. */
  lemma SpawnOnlyIterate(cfg: Config, faults: Faults, pick: nat -> nat, st: LoopState)
    requires Inv(cfg, st) && cfg.batchSize > 1
    requires |st.dirs| == 1 && st.pending == []
    ensures IsPrefix(cfg.baseSource, st.dirs[0])
    ensures Iterate(cfg, faults, pick, st) == Spawn(cfg, st)
    ensures Spawn(cfg, st).dirs == [] && Spawn(cfg, st).fs == st.fs
    ensures Spawn(cfg, st).pending == [Task(st.dirs[0], Reroot(cfg.baseSource, cfg.baseDest, st.dirs[0]).value)]
  {
    SpawnTracked(cfg, st);
  }

  /** A run whose root call succeeds is the loop from its result, then the final step. */
  lemma RunAfterSeed(fs: FileSystem, faults: Faults, cfg: Config, pick: nat -> nat, fuel: nat)
    requires Wf(fs) && cfg.baseSource in fs.nodes
    requires Process(fs, faults, cfg.baseSource, cfg.baseDest, cfg.deleteSource).result.Ok?
    ensures var seed := Process(fs, faults, cfg.baseSource, cfg.baseDest, cfg.deleteSource);
            Inv(cfg, Start(seed.fs, seed.result.value))
            && Run(fs, faults, cfg, pick, fuel) == Finish(cfg, faults, Loop(cfg, faults, pick, Start(seed.fs, seed.result.value), fuel))
  {
    SeedInv(fs, faults, cfg);
  }

  /** After a finished loop, `--delete-source` removes the source tree and reports success. */
  lemma FinishRemovesSource(cfg: Config, faults: Faults, exit: Exit)
    requires exit.finished && cfg.deleteSource
    requires cfg.baseSource in exit.st.fs.nodes && exit.st.fs.nodes[cfg.baseSource].Dir?
    requires cfg.baseSource !in faults.removeFails
    ensures Finish(cfg, faults, exit).outcome == Done && Finish(cfg, faults, exit).unjoined == exit.st.pending
    ensures forall k :: k in Finish(cfg, faults, exit).fs.nodes <==> k in exit.st.fs.nodes && !IsPrefix(cfg.baseSource, k)
  {
  }

  /**
   * The root call of a run succeeds and returns `found`, and the source root
   * can be removed afterwards.
   */
  predicate RootCallReturns(fs: FileSystem, faults: Faults, cfg: Config, found: seq<Path>)
  {
    && Wf(fs) && cfg.baseSource in fs.nodes && cfg.baseSource !in faults.removeFails
    && var seed := Process(fs, faults, cfg.baseSource, cfg.baseDest, cfg.deleteSource);
       && seed.result == Ok(found)
       && cfg.baseSource in seed.fs.nodes && seed.fs.nodes[cfg.baseSource].Dir?
  }

  /**
   * A source root holding a single subdirectory `sub`: with `--delete-source`
   * and a concurrency above one, the task for `sub` is spawned but never
   * joined, and the run reports success.
   */
  lemma SubdirectoryLeftBehind(fs: FileSystem, faults: Faults, cfg: Config, pick: nat -> nat, fuel: nat, sub: Path)
    requires cfg.deleteSource && cfg.batchSize > 1 && fuel > 0
    requires RootCallReturns(fs, faults, cfg, [sub])
    ensures Run(fs, faults, cfg, pick, fuel).outcome == Done
    ensures Run(fs, faults, cfg, pick, fuel).unjoined == [Task(sub, Reroot(cfg.baseSource, cfg.baseDest, sub).value)]
  {
    RunAfterSeed(fs, faults, cfg, pick, fuel);
    var seed := Process(fs, faults, cfg.baseSource, cfg.baseDest, true);
    var st := Start(seed.fs, [sub]);
    SpawnOnlyTurn(cfg, faults, pick, st, fuel);
    FinishRemovesSource(cfg, faults, Loop(cfg, faults, pick, st, fuel));
  }

  /** In the same run, the source tree is gone and the destination holds only what the root call put there. */
  lemma SubdirectoryLeftBehindFiles(fs: FileSystem, faults: Faults, cfg: Config, pick: nat -> nat, fuel: nat, sub: Path, k: Path)
    requires cfg.deleteSource && cfg.batchSize > 1 && fuel > 0
    requires RootCallReturns(fs, faults, cfg, [sub])
    ensures k in Run(fs, faults, cfg, pick, fuel).fs.nodes
            <==> k in Process(fs, faults, cfg.baseSource, cfg.baseDest, true).fs.nodes && !IsPrefix(cfg.baseSource, k)
  {
    RunAfterSeed(fs, faults, cfg, pick, fuel);
    var seed := Process(fs, faults, cfg.baseSource, cfg.baseDest, true);
    var st := Start(seed.fs, [sub]);
    SpawnOnlyTurn(cfg, faults, pick, st, fuel);
    FinishRemovesSource(cfg, faults, Loop(cfg, faults, pick, st, fuel));
  }

  /**
   * A source root whose listing yields no directory: with `--delete-source`
   * the loop never turns, the run reports success, and every path under the
   * source root is gone, whether or not its copy succeeded.
   */
  lemma NoSubdirectoryErased(fs: FileSystem, faults: Faults, cfg: Config, pick: nat -> nat, fuel: nat)
    requires cfg.deleteSource && RootCallReturns(fs, faults, cfg, [])
    ensures Run(fs, faults, cfg, pick, fuel).outcome == Done
    ensures Run(fs, faults, cfg, pick, fuel).unjoined == []
  {
    RunAfterSeed(fs, faults, cfg, pick, fuel);
    var seed := Process(fs, faults, cfg.baseSource, cfg.baseDest, true);
    FinishRemovesSource(cfg, faults, Loop(cfg, faults, pick, Start(seed.fs, []), fuel));
  }

  lemma NoSubdirectoryErasedFiles(fs: FileSystem, faults: Faults, cfg: Config, pick: nat -> nat, fuel: nat, k: Path)
    requires cfg.deleteSource && RootCallReturns(fs, faults, cfg, [])
    ensures k in Run(fs, faults, cfg, pick, fuel).fs.nodes
            <==> k in Process(fs, faults, cfg.baseSource, cfg.baseDest, true).fs.nodes && !IsPrefix(cfg.baseSource, k)
  {
    RunAfterSeed(fs, faults, cfg, pick, fuel);
    var seed := Process(fs, faults, cfg.baseSource, cfg.baseDest, true);
    FinishRemovesSource(cfg, faults, Loop(cfg, faults, pick, Start(seed.fs, []), fuel));
  }

  // ---------------------------------------------------------------------------
  // First finding: a task left in the JoinSet

  function Bytes(): Content { [1 as bv8] }

  function NoFaults(): Faults { Faults({}, {}, {}, {}, {}) }

  /** The task choice of a JoinSet that always returns its oldest pending task. */
  function Oldest(k: nat): nat { 0 }

  /** `s` holds the directory `s/d`, which holds the file `s/d/f`. */
  function NestedTree(): FileSystem
  {
    FileSystem(map[[] := Dir, ["s"] := Dir, ["s", "d"] := Dir, ["s", "d", "f"] := File(Bytes())],
               [[], ["s"], ["s", "d"], ["s", "d", "f"]])
  }

  lemma NestedWf()
    ensures Wf(NestedTree())
  {
    var fs := NestedTree();
    assert forall p :: p in fs.nodes ==> p in fs.order;
  }

  lemma NestedCreatable()
    ensures !Blocked(NestedTree(), ["t"])
  {
    var fs := NestedTree();
    forall q | q in fs.nodes && IsPrefix(q, ["t"])
      ensures fs.nodes[q].Dir?
    {
      assert |q| <= 1;
    }
  }

  /** The root call succeeds and collects `s/d` only. */
  lemma NestedSeedDirs()
    ensures Process(NestedTree(), NoFaults(), ["s"], ["t"], true).result == Ok([["s", "d"]])
  {
    var fs := NestedTree();
    NestedWf();
    NestedCreatable();
    forall d | d in fs.nodes && IsChild(["s"], d)
      ensures d == ["s", "d"]
    {
    }
    SoleSubdirectory(fs, NoFaults(), ["s"], ["t"], true, ["s", "d"]);
  }

  /** The root call leaves `s` and `s/d/f` alone and creates no `t/d/f`. */
  lemma NestedSeedFrame()
    ensures var after := Process(NestedTree(), NoFaults(), ["s"], ["t"], true).fs;
            && Wf(after)
            && ["s"] in after.nodes && after.nodes[["s"]] == Dir
            && ["s", "d", "f"] in after.nodes
            && ["t", "d", "f"] !in after.nodes
  {
    NestedWf();
    ProcessOutcome(NestedTree(), NoFaults(), ["s"], ["t"], true);
    NestedSeedKeeps(["s"]);
    NestedSeedKeeps(["s", "d", "f"]);
    NestedSeedKeeps(["t", "d", "f"]);
    NestedKeys(["t", "d", "f"]);
  }

  /** Every non-root path of the nested tree starts with `s`. */
  lemma NestedKeys(k: Path)
    requires k != [] && k[0] != "s"
    ensures k !in NestedTree().nodes
  {
  }

  lemma NestedSeedKeeps(k: Path)
    requires k == ["s"] || k == ["s", "d", "f"] || k == ["t", "d", "f"]
    ensures Same(NestedTree(), Process(NestedTree(), NoFaults(), ["s"], ["t"], true).fs, k)
  {
    NestedWf();
    assert !IsChild(["s"], k) && !IsChild(["t"], k);
    ProcessFrame(NestedTree(), NoFaults(), ["s"], ["t"], true, k);
  }

  lemma NestedReroot()
    ensures Reroot(["s"], ["t"], ["s", "d"]) == Some(["t", "d"])
  {
    assert ["t"] + ["d"] == ["t", "d"];
  }

  lemma NestedSingle(fs: FileSystem, cfg: Config)
    requires fs == NestedTree() && cfg == Config(["s"], ["t"], true, 10)
    ensures RootCallReturns(fs, NoFaults(), cfg, [["s", "d"]])
  {
    NestedWf();
    NestedSeedDirs();
    NestedSeedFrame();
  }

  lemma NestedOutcome(fs: FileSystem, cfg: Config)
    requires fs == NestedTree() && cfg == Config(["s"], ["t"], true, 10)
    ensures Run(fs, NoFaults(), cfg, Oldest, 5).outcome == Done
    ensures Run(fs, NoFaults(), cfg, Oldest, 5).unjoined == [Task(["s", "d"], ["t", "d"])]
  {
    NestedSingle(fs, cfg);
    NestedReroot();
    SubdirectoryLeftBehind(fs, NoFaults(), cfg, Oldest, 5, ["s", "d"]);
  }

  lemma NestedSourceErased(fs: FileSystem, cfg: Config)
    requires fs == NestedTree() && cfg == Config(["s"], ["t"], true, 10)
    ensures ["s", "d", "f"] !in Run(fs, NoFaults(), cfg, Oldest, 5).fs.nodes
  {
    NestedSingle(fs, cfg);
    assert IsPrefix(["s"], ["s", "d", "f"]);
    SubdirectoryLeftBehindFiles(fs, NoFaults(), cfg, Oldest, 5, ["s", "d"], ["s", "d", "f"]);
  }

  lemma NestedNeverCopied(fs: FileSystem, cfg: Config)
    requires fs == NestedTree() && cfg == Config(["s"], ["t"], true, 10)
    ensures ["t", "d", "f"] !in Run(fs, NoFaults(), cfg, Oldest, 5).fs.nodes
  {
    NestedSingle(fs, cfg);
    NestedSeedFrame();
    SubdirectoryLeftBehindFiles(fs, NoFaults(), cfg, Oldest, 5, ["s", "d"], ["t", "d", "f"]);
  }

  /**
   * With `--delete-source` and the default concurrency of 10, the task for
   * `s/d` is spawned but never joined: the run reports success, the source
   * tree is removed, and the file `s/d/f` exists nowhere.
   */
  lemma UnjoinedTaskLosesFile(fs: FileSystem, cfg: Config)
    requires fs == NestedTree() && cfg == Config(["s"], ["t"], true, 10)
    ensures ["s", "d", "f"] in fs.nodes && fs.nodes[["s", "d", "f"]].File?
    ensures var r := Run(fs, NoFaults(), cfg, Oldest, 5);
            && r.outcome == Done
            && r.unjoined == [Task(["s", "d"], ["t", "d"])]
            && ["s", "d", "f"] !in r.fs.nodes
            && ["t", "d", "f"] !in r.fs.nodes
  {
    NestedOutcome(fs, cfg);
    NestedSourceErased(fs, cfg);
    NestedNeverCopied(fs, cfg);
  }

  // ---------------------------------------------------------------------------
  // Second finding: a file whose copy failed is erased

  /** `s` holds the single file `s/f`. */
  function FlatTree(): FileSystem
  {
    FileSystem(map[[] := Dir, ["s"] := Dir, ["s", "f"] := File(Bytes())], [[], ["s"], ["s", "f"]])
  }

  /** Copying `s/f` fails, for instance because it cannot be read. */
  function CopyOfFileFails(): Faults { Faults({}, {}, {}, {["s", "f"]}, {}) }

  lemma FlatWf()
    ensures Wf(FlatTree())
  {
    var fs := FlatTree();
    assert forall p :: p in fs.nodes ==> p in fs.order;
  }

  lemma FlatCreatable()
    ensures !Blocked(FlatTree(), ["t"])
  {
    var fs := FlatTree();
    forall q | q in fs.nodes && IsPrefix(q, ["t"])
      ensures fs.nodes[q].Dir?
    {
      assert |q| <= 1;
    }
  }

  /** The root call succeeds and collects nothing: its only entry is a file. */
  lemma FlatSeedDirs()
    ensures Process(FlatTree(), CopyOfFileFails(), ["s"], ["t"], true).result == Ok([])
  {
    var fs, faults := FlatTree(), CopyOfFileFails();
    FlatWf();
    FlatCreatable();
    ProcessOutcome(fs, faults, ["s"], ["t"], true);
    ProcessDirs(fs, faults, ["s"], ["t"], true);
    var found := Process(fs, faults, ["s"], ["t"], true).result.value;
    assert forall d :: d in fs.nodes && IsChild(["s"], d) ==> d == ["s", "f"];
    NoElement(found);
  }

  /** The root call leaves `s` alone, keeps `s/f` since its copy failed, and writes no `t/f`. */
  lemma FlatSeedFrame()
    ensures var after := Process(FlatTree(), CopyOfFileFails(), ["s"], ["t"], true).fs;
            && Wf(after)
            && ["s"] in after.nodes && after.nodes[["s"]] == Dir
            && ["s", "f"] in after.nodes
            && ["t", "f"] !in after.nodes
  {
    FlatWf();
    ProcessOutcome(FlatTree(), CopyOfFileFails(), ["s"], ["t"], true);
    FlatSeedKeepsRoot();
    FlatSeedKeepsFile();
  }

  lemma FlatSeedKeepsRoot()
    ensures Same(FlatTree(), Process(FlatTree(), CopyOfFileFails(), ["s"], ["t"], true).fs, ["s"])
  {
    FlatWf();
    assert !IsChild(["s"], ["s"]) && !IsChild(["t"], ["s"]);
    ProcessFrame(FlatTree(), CopyOfFileFails(), ["s"], ["t"], true, ["s"]);
  }

  lemma FlatSeedKeepsFile()
    ensures Same(FlatTree(), Process(FlatTree(), CopyOfFileFails(), ["s"], ["t"], true).fs, ["s", "f"])
    ensures Same(FlatTree(), Process(FlatTree(), CopyOfFileFails(), ["s"], ["t"], true).fs, ["t", "f"])
  {
    FlatWf();
    assert IsChild(["s"], ["s", "f"]) && Target(["t"], ["s", "f"]) == ["t", "f"];
    ProcessKeepsUncopied(FlatTree(), CopyOfFileFails(), ["s"], ["t"], true, ["s", "f"]);
  }

  lemma FlatRoot(fs: FileSystem, cfg: Config)
    requires fs == FlatTree() && cfg == Config(["s"], ["t"], true, 10)
    ensures RootCallReturns(fs, CopyOfFileFails(), cfg, [])
  {
    FlatWf();
    FlatSeedDirs();
    FlatSeedFrame();
  }

  lemma FlatOutcome(fs: FileSystem, cfg: Config)
    requires fs == FlatTree() && cfg == Config(["s"], ["t"], true, 10)
    ensures Run(fs, CopyOfFileFails(), cfg, Oldest, 5).outcome == Done
  {
    FlatRoot(fs, cfg);
    NoSubdirectoryErased(fs, CopyOfFileFails(), cfg, Oldest, 5);
  }

  lemma FlatSourceErased(fs: FileSystem, cfg: Config)
    requires fs == FlatTree() && cfg == Config(["s"], ["t"], true, 10)
    ensures ["s", "f"] !in Run(fs, CopyOfFileFails(), cfg, Oldest, 5).fs.nodes
  {
    FlatRoot(fs, cfg);
    assert IsPrefix(["s"], ["s", "f"]);
    NoSubdirectoryErasedFiles(fs, CopyOfFileFails(), cfg, Oldest, 5, ["s", "f"]);
  }

  lemma FlatNeverCopied(fs: FileSystem, cfg: Config)
    requires fs == FlatTree() && cfg == Config(["s"], ["t"], true, 10)
    ensures ["t", "f"] !in Run(fs, CopyOfFileFails(), cfg, Oldest, 5).fs.nodes
  {
    FlatRoot(fs, cfg);
    FlatSeedFrame();
    NoSubdirectoryErasedFiles(fs, CopyOfFileFails(), cfg, Oldest, 5, ["t", "f"]);
  }

  /**
   * With `--delete-source`, a file whose copy fails stays in the source tree,
   * as the entry loop intends, and is then erased by `remove_dir_all`: the
   * run reports success and `s/f` exists nowhere.
   */
  lemma FailedCopyErased(fs: FileSystem, cfg: Config)
    requires fs == FlatTree() && cfg == Config(["s"], ["t"], true, 10)
    ensures ["s", "f"] in fs.nodes && fs.nodes[["s", "f"]].File? && ["s", "f"] in CopyOfFileFails().copyFails
    ensures var r := Run(fs, CopyOfFileFails(), cfg, Oldest, 5);
            && r.outcome == Done
            && ["s", "f"] !in r.fs.nodes
            && ["t", "f"] !in r.fs.nodes
  {
    FlatOutcome(fs, cfg);
    FlatSourceErased(fs, cfg);
    FlatNeverCopied(fs, cfg);
  }
}
