/**
 * The behaviour `main` evidently intends, where it differs from the code:
 * the work-list loop drains the JoinSet before it ends, and the source tree
 * is removed only once no regular file is left in it. With neither tree
 * inside the other, no regular file of the source tree is ever lost: each one
 * is either still in place, unchanged, or its content is at its re-rooted
 * path.
 */
module Corrected {
  import opened Results
  import opened Paths
  import opened FileSystems
  import opened Processor
  import opened Orchestrator

  // ---------------------------------------------------------------------------
  // The corrected loop and removal

  /**
   * One turn of the corrected loop: the turn of `main`'s loop while `dirs`
   * is non-empty, and otherwise the join of one pending task.
   */
  function DrainTurn(cfg: Config, faults: Faults, pick: nat -> nat, st: LoopState): (r: LoopState)
    requires Inv(cfg, st) && (st.dirs != [] || st.pending != [])
    ensures Inv(cfg, r)
  {
    if st.dirs != [] then
      Iterate(cfg, faults, pick, st)
    else
      JoinTracked(cfg, faults, pick, st);
      JoinOne(cfg, faults, pick, st)
  }

  /**
   * The work-list loop, continued while `dirs` or the JoinSet is non-empty:
   * with `dirs` empty, it joins a pending task (which may push more
   * directories) instead of stopping.
   */
  function DrainLoop(cfg: Config, faults: Faults, pick: nat -> nat, st: LoopState, fuel: nat): (r: Exit)
    requires Inv(cfg, st)
    ensures Inv(cfg, r.st)
    ensures r.finished <==> r.st.dirs == [] && r.st.pending == []
    ensures r.finished ==> multiset(r.st.joined) == multiset(r.st.spawned)
                           && multiset(Sources(r.st.spawned)) == multiset(r.st.fed)
    ensures Disjoint(cfg.baseSource, cfg.baseDest) ==> Conserves(cfg, st.fs, r.st.fs)
    decreases fuel
  {
    if st.dirs == [] && st.pending == [] then
      Exit(st, true)
    else if fuel == 0 then
      Exit(st, false)
    else
      var next := DrainTurn(cfg, faults, pick, st);
      DrainTurnConserves(cfg, faults, pick, st);
      var r := DrainLoop(cfg, faults, pick, next, fuel - 1);
      ConservesTrans(cfg, st.fs, next.fs, r.st.fs);
      r
  }

  /** Some regular file is still at or below `base`. */
  predicate FilesRemain(fs: FileSystem, base: Path)
  {
    exists k :: k in fs.nodes && IsPrefix(base, k) && fs.nodes[k].File?
  }

  /**
   * Removing "only the directory structure empty of files": the source tree
   * goes only when no regular file is left in it; otherwise nothing is
   * removed and the removal fails, as removing a non-empty directory does.
   */
  function GuardedRemoveSource(fs: FileSystem, faults: Faults, base: Path): (r: Result<FileSystem>)
    ensures r.Ok? <==> !FilesRemain(fs, base) && base in fs.nodes && fs.nodes[base].Dir? && base !in faults.removeFails
    ensures r.Ok? ==> forall k :: k in r.value.nodes <==> k in fs.nodes && !IsPrefix(base, k)
    ensures r.Ok? ==> forall k :: k in fs.nodes && fs.nodes[k].File? ==> k in r.value.nodes && r.value.nodes[k] == fs.nodes[k]
    ensures r.Err? ==> r.error == RemoveFailed
  {
    if FilesRemain(fs, base) then Err(RemoveFailed) else RemoveDirAll(fs, faults, base)
  }

  /** The final step, with the guarded removal. */
  function FinishFixed(cfg: Config, faults: Faults, exit: Exit): (r: Report)
    ensures r.unjoined == exit.st.pending
    ensures r.outcome.Failed? ==> r.fs == exit.st.fs
                                  && r.outcome.error == if exit.finished then RemoveFailed else FuelExhausted
    ensures r.outcome == Done && cfg.deleteSource ==> !FilesRemain(exit.st.fs, cfg.baseSource)
  {
    if !exit.finished then Report(exit.st.fs, Failed(FuelExhausted), exit.st.pending)
    else if !cfg.deleteSource then Report(exit.st.fs, Done, exit.st.pending)
    else
      match GuardedRemoveSource(exit.st.fs, faults, cfg.baseSource)
      case Err(e) => Report(exit.st.fs, Failed(e), exit.st.pending)
      case Ok(cleared) => Report(cleared, Done, exit.st.pending)
  }

  /** `main` with both corrections; a run that reports success has joined every task it spawned. */
  function RunFixed(fs: FileSystem, faults: Faults, cfg: Config, pick: nat -> nat, fuel: nat): (r: Report)
    requires Wf(fs)
    ensures r.outcome == Done ==> r.unjoined == []
  {
    if cfg.baseSource !in fs.nodes then Report(fs, Failed(SourceMissing), [])
    else
      var seed := Process(fs, faults, cfg.baseSource, cfg.baseDest, cfg.deleteSource);
      match seed.result
      case Err(e) => Report(seed.fs, Failed(e), [])
      case Ok(found) =>
        SeedInv(fs, faults, cfg);
        FinishFixed(cfg, faults, DrainLoop(cfg, faults, pick, Start(seed.fs, found), fuel))
  }

  // ---------------------------------------------------------------------------
  // No regular file is lost

  /** The file `fs0` held at `p` is still there, or its content is at `q`. */
  predicate Saved(fs0: FileSystem, fs: FileSystem, p: Path, q: Path)
    requires p in fs0.nodes
  {
    || (p in fs.nodes && fs.nodes[p] == fs0.nodes[p])
    || (q in fs.nodes && fs.nodes[q] == fs0.nodes[p])
  }

  /**
   * Every regular file of the source tree of `fs0` is saved in `fs`: still in
   * place, or at its re-rooted path under the destination.
   */
  predicate NoLoss(cfg: Config, fs0: FileSystem, fs: FileSystem)
  {
    forall p :: p in fs0.nodes && IsPrefix(cfg.baseSource, p) && fs0.nodes[p].File? ==>
      Saved(fs0, fs, p, Reroot(cfg.baseSource, cfg.baseDest, p).value)
  }

  /** Below the source root, paths have only been removed since `fs0`, never created or altered. */
  predicate Shrunk(cfg: Config, fs0: FileSystem, fs: FileSystem)
  {
    forall k :: k in fs.nodes && IsPrefix(cfg.baseSource, k) ==> k in fs0.nodes && fs.nodes[k] == fs0.nodes[k]
  }

  /** A copy whose source is gone from `fs0` is still there, unchanged, in `fs`. */
  ghost predicate CopiesKept(cfg: Config, fs0: FileSystem, fs: FileSystem)
  {
    forall p :: IsPrefix(cfg.baseSource, p) && p !in fs0.nodes && Reroot(cfg.baseSource, cfg.baseDest, p).value in fs0.nodes ==>
      var q := Reroot(cfg.baseSource, cfg.baseDest, p).value;
      q in fs.nodes && fs.nodes[q] == fs0.nodes[q]
  }

  /**
   * From `fs0` to `fs`, the copier kept its promise about the source tree: no
   * path below it created or altered, every file in it saved, and every copy
   * of a file already moved left alone. The relation is transitive, so it
   * carries over from one task to a whole run.
   */
  ghost predicate Conserves(cfg: Config, fs0: FileSystem, fs: FileSystem)
  {
    Shrunk(cfg, fs0, fs) && NoLoss(cfg, fs0, fs) && CopiesKept(cfg, fs0, fs)
  }

  /** One task never creates or alters a path below the source root. */
  lemma ProcessShrinksAt(cfg: Config, fs: FileSystem, faults: Faults, task: Task, k: Path)
    requires Wf(fs) && Rerooted(cfg, task) && Disjoint(cfg.baseSource, cfg.baseDest)
    requires IsPrefix(cfg.baseSource, k)
    ensures var after := Process(fs, faults, task.source, task.dest, cfg.deleteSource).fs;
            k in after.nodes ==> k in fs.nodes && after.nodes[k] == fs.nodes[k]
  {
    var source, dest, rm := task.source, task.dest, cfg.deleteSource;
    Apart(cfg.baseSource, cfg.baseDest, source);
    Apart(cfg.baseSource, cfg.baseDest, k);
    Apart(cfg.baseDest, cfg.baseSource, dest);
    PrefixChain(cfg.baseDest, dest, k);
    PrefixChain(cfg.baseSource, k, dest);
    ProcessOutcome(fs, faults, source, dest, rm);
    if k in fs.nodes && IsChild(source, k) {
      if Process(fs, faults, source, dest, rm).result.Ok? {
        ProcessAt(fs, faults, source, dest, rm, k);
        TargetIsEntry(source, dest, k);
        if fs.nodes[k].File? {
          EntryKeepsFile(fs, faults, k, dest, rm);
        } else {
          EntryFrame(fs, faults, k, dest, rm, k);
        }
      }
    } else {
      ProcessFrame(fs, faults, source, dest, rm, k);
    }
  }

  /** A task whose directory holds the file: it stays, or is moved to its re-rooted path. */
  lemma ProcessSavesEntry(cfg: Config, fs: FileSystem, faults: Faults, task: Task, p: Path)
    requires Wf(fs) && Rerooted(cfg, task) && Disjoint(cfg.baseSource, cfg.baseDest)
    requires IsChild(task.source, p) && p in fs.nodes && fs.nodes[p].File?
    requires Process(fs, faults, task.source, task.dest, cfg.deleteSource).result.Ok?
    ensures Saved(fs, Process(fs, faults, task.source, task.dest, cfg.deleteSource).fs, p, Reroot(cfg.baseSource, cfg.baseDest, p).value)
  {
    var source, dest, rm := task.source, task.dest, cfg.deleteSource;
    RerootEntry(cfg.baseSource, cfg.baseDest, source, p);
    Apart(cfg.baseSource, cfg.baseDest, source);
    PrefixChain(cfg.baseDest, dest, source);
    TargetIsEntry(source, dest, p);
    ProcessAt(fs, faults, source, dest, rm, p);
    EntryKeepsFile(fs, faults, p, dest, rm);
  }

  /** One task saves every file of the source tree. */
  lemma ProcessSavesAt(cfg: Config, fs: FileSystem, faults: Faults, task: Task, p: Path)
    requires Wf(fs) && Rerooted(cfg, task) && Disjoint(cfg.baseSource, cfg.baseDest)
    requires p in fs.nodes && IsPrefix(cfg.baseSource, p) && fs.nodes[p].File?
    ensures Saved(fs, Process(fs, faults, task.source, task.dest, cfg.deleteSource).fs, p, Reroot(cfg.baseSource, cfg.baseDest, p).value)
  {
    var source, dest, rm := task.source, task.dest, cfg.deleteSource;
    ProcessOutcome(fs, faults, source, dest, rm);
    if Process(fs, faults, source, dest, rm).result.Err? {
    } else if IsChild(source, p) {
      ProcessSavesEntry(cfg, fs, faults, task, p);
    } else {
      Apart(cfg.baseSource, cfg.baseDest, p);
      PrefixChain(cfg.baseDest, dest, p);
      assert !IsChild(dest, p);
      ProcessFrame(fs, faults, source, dest, rm, p);
    }
  }

  /** A file already copied to its re-rooted path, and gone from its own, stays copied. */
  lemma ProcessKeepsCopy(cfg: Config, fs: FileSystem, faults: Faults, task: Task, p: Path)
    requires Wf(fs) && Rerooted(cfg, task) && Disjoint(cfg.baseSource, cfg.baseDest)
    requires IsPrefix(cfg.baseSource, p) && p !in fs.nodes
    requires Reroot(cfg.baseSource, cfg.baseDest, p).value in fs.nodes
    ensures var after := Process(fs, faults, task.source, task.dest, cfg.deleteSource).fs;
            var q := Reroot(cfg.baseSource, cfg.baseDest, p).value;
            q in after.nodes && after.nodes[q] == fs.nodes[q]
  {
    var source, dest := task.source, task.dest;
    var q := Reroot(cfg.baseSource, cfg.baseDest, p).value;
    Apart(cfg.baseDest, cfg.baseSource, q);
    PrefixChain(cfg.baseSource, source, q);
    RerootChild(cfg.baseSource, cfg.baseDest, source, p);
    if IsChild(source, p) {
      RerootEntry(cfg.baseSource, cfg.baseDest, source, p);
      assert FileName(q) == FileName(p) && p == Join(source, FileName(p));
    }
    ProcessFrame(fs, faults, source, dest, cfg.deleteSource, q);
  }

  /** With neither tree inside the other, one task conserves the source tree. */
  lemma ProcessConserves(cfg: Config, fs: FileSystem, faults: Faults, task: Task)
    requires Wf(fs) && Rerooted(cfg, task) && Disjoint(cfg.baseSource, cfg.baseDest)
    ensures Conserves(cfg, fs, Process(fs, faults, task.source, task.dest, cfg.deleteSource).fs)
  {
    var after := Process(fs, faults, task.source, task.dest, cfg.deleteSource).fs;
    forall k | k in after.nodes && IsPrefix(cfg.baseSource, k)
      ensures k in fs.nodes && after.nodes[k] == fs.nodes[k]
    {
      ProcessShrinksAt(cfg, fs, faults, task, k);
    }
    forall p | p in fs.nodes && IsPrefix(cfg.baseSource, p) && fs.nodes[p].File?
      ensures Saved(fs, after, p, Reroot(cfg.baseSource, cfg.baseDest, p).value)
    {
      ProcessSavesAt(cfg, fs, faults, task, p);
    }
    forall p | IsPrefix(cfg.baseSource, p) && p !in fs.nodes && Reroot(cfg.baseSource, cfg.baseDest, p).value in fs.nodes
      ensures var q := Reroot(cfg.baseSource, cfg.baseDest, p).value;
              q in after.nodes && after.nodes[q] == fs.nodes[q]
    {
      ProcessKeepsCopy(cfg, fs, faults, task, p);
    }
  }

  /** Conserving the source tree is transitive. */
  lemma ConservesTrans(cfg: Config, a: FileSystem, b: FileSystem, c: FileSystem)
    ensures Conserves(cfg, a, b) && Conserves(cfg, b, c) ==> Conserves(cfg, a, c)
  {
    if Conserves(cfg, a, b) && Conserves(cfg, b, c) {
      forall p | p in a.nodes && IsPrefix(cfg.baseSource, p) && a.nodes[p].File?
        ensures Saved(a, c, p, Reroot(cfg.baseSource, cfg.baseDest, p).value)
      {
        var q := Reroot(cfg.baseSource, cfg.baseDest, p).value;
        if p in b.nodes {
          assert b.nodes[p] == a.nodes[p];
          assert Saved(b, c, p, q);
        } else {
          assert q in b.nodes && b.nodes[q] == a.nodes[p];
        }
      }
      forall p | IsPrefix(cfg.baseSource, p) && p !in a.nodes && Reroot(cfg.baseSource, cfg.baseDest, p).value in a.nodes
        ensures var q := Reroot(cfg.baseSource, cfg.baseDest, p).value;
                q in c.nodes && c.nodes[q] == a.nodes[q]
      {
        assert p !in b.nodes;
      }
    }
  }

  lemma JoinConserves(cfg: Config, faults: Faults, pick: nat -> nat, st: LoopState)
    requires Tracked(cfg, st) && st.pending != []
    ensures Disjoint(cfg.baseSource, cfg.baseDest) ==> Conserves(cfg, st.fs, JoinOne(cfg, faults, pick, st).fs)
  {
    var i := pick(|st.joined|) % |st.pending|;
    assert st.pending[i] in st.pending;
    if Disjoint(cfg.baseSource, cfg.baseDest) {
      ProcessConserves(cfg, st.fs, faults, st.pending[i]);
    }
  }

  lemma DrainTurnConserves(cfg: Config, faults: Faults, pick: nat -> nat, st: LoopState)
    requires Inv(cfg, st) && (st.dirs != [] || st.pending != [])
    ensures Disjoint(cfg.baseSource, cfg.baseDest) ==> Conserves(cfg, st.fs, DrainTurn(cfg, faults, pick, st).fs)
  {
    if st.dirs != [] {
      SpawnTracked(cfg, st);
      var spawned := Spawn(cfg, st);
      if |spawned.pending| >= cfg.batchSize {
        JoinConserves(cfg, faults, pick, spawned);
      }
    } else {
      JoinConserves(cfg, faults, pick, st);
    }
  }

  /** The guarded removal takes no file that is still only in the source tree. */
  lemma GuardedRemoveSaves(cfg: Config, faults: Faults, fs0: FileSystem, fs: FileSystem)
    requires Disjoint(cfg.baseSource, cfg.baseDest)
    requires NoLoss(cfg, fs0, fs) && GuardedRemoveSource(fs, faults, cfg.baseSource).Ok?
    ensures NoLoss(cfg, fs0, GuardedRemoveSource(fs, faults, cfg.baseSource).value)
  {
    forall p | p in fs0.nodes && IsPrefix(cfg.baseSource, p) && fs0.nodes[p].File?
      ensures Saved(fs0, GuardedRemoveSource(fs, faults, cfg.baseSource).value, p, Reroot(cfg.baseSource, cfg.baseDest, p).value)
    {
      Apart(cfg.baseDest, cfg.baseSource, Reroot(cfg.baseSource, cfg.baseDest, p).value);
    }
  }

  /**
   * With neither tree inside the other, a corrected run loses no regular file
   * of the source tree, whatever fails on the way and whatever the outcome:
   * each one is still in place, unchanged, or its content is at its
   * re-rooted path under the destination.
   */
  lemma RunFixedLosesNoFile(fs: FileSystem, faults: Faults, cfg: Config, pick: nat -> nat, fuel: nat)
    requires Wf(fs) && Disjoint(cfg.baseSource, cfg.baseDest)
    ensures NoLoss(cfg, fs, RunFixed(fs, faults, cfg, pick, fuel).fs)
  {
    if cfg.baseSource in fs.nodes {
      RootRerooted(cfg);
      ProcessConserves(cfg, fs, faults, Task(cfg.baseSource, cfg.baseDest));
      var seed := Process(fs, faults, cfg.baseSource, cfg.baseDest, cfg.deleteSource);
      if seed.result.Ok? {
        SeedInv(fs, faults, cfg);
        var exit := DrainLoop(cfg, faults, pick, Start(seed.fs, seed.result.value), fuel);
        ConservesTrans(cfg, fs, seed.fs, exit.st.fs);
        if exit.finished && cfg.deleteSource && GuardedRemoveSource(exit.st.fs, faults, cfg.baseSource).Ok? {
          GuardedRemoveSaves(cfg, faults, fs, exit.st.fs);
        }
      }
    }
  }
}
