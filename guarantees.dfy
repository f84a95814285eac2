/**
 * What a whole run of `main` does to the parts of the file system it is not
 * asked to write: paths outside both trees, and the source tree when
 * `delete_source` is not set.
 */
module Guarantees {
  import opened Paths
  import opened FileSystems
  import opened Processor
  import opened Orchestrator

  /**
   * Whatever the outcome, a run keeps every path outside the source and
   * destination trees, and adds there only the directories that
   * `create_dir_all` makes on the way to the destination root.
   */
  lemma RunOutside(fs: FileSystem, faults: Faults, cfg: Config, pick: nat -> nat, fuel: nat, k: Path)
    requires Wf(fs) && Outside(cfg, k)
    ensures KeptOutside(cfg, fs, Run(fs, faults, cfg, pick, fuel).fs, k)
  {
    if cfg.baseSource in fs.nodes {
      RootRerooted(cfg);
      ProcessOutside(cfg, fs, faults, Task(cfg.baseSource, cfg.baseDest), k);
      var seed := Process(fs, faults, cfg.baseSource, cfg.baseDest, cfg.deleteSource);
      if seed.result.Ok? {
        SeedInv(fs, faults, cfg);
        assert KeptOutside(cfg, seed.fs, Loop(cfg, faults, pick, Start(seed.fs, seed.result.value), fuel).st.fs, k);
      }
    }
  }

  /**
   * Without `--delete-source`, and with neither tree inside the other, a run
   * leaves the source tree exactly as it was, whatever fails on the way.
   */
  lemma RunKeepsSourceTree(fs: FileSystem, faults: Faults, cfg: Config, pick: nat -> nat, fuel: nat, k: Path)
    requires Wf(fs) && !cfg.deleteSource && Disjoint(cfg.baseSource, cfg.baseDest)
    requires IsPrefix(cfg.baseSource, k)
    ensures Same(fs, Run(fs, faults, cfg, pick, fuel).fs, k)
  {
    if cfg.baseSource in fs.nodes {
      RootRerooted(cfg);
      ProcessKeepsSourceTree(cfg, fs, faults, Task(cfg.baseSource, cfg.baseDest), k);
      var seed := Process(fs, faults, cfg.baseSource, cfg.baseDest, false);
      if seed.result.Ok? {
        SeedInv(fs, faults, cfg);
        assert Same(seed.fs, Loop(cfg, faults, pick, Start(seed.fs, seed.result.value), fuel).st.fs, k);
      }
    }
  }

  /** With `--delete-source`, a run that reports success leaves nothing at all under the source root. */
  lemma RunDeleteClearsSource(fs: FileSystem, faults: Faults, cfg: Config, pick: nat -> nat, fuel: nat, k: Path)
    requires Wf(fs) && cfg.deleteSource
    requires Run(fs, faults, cfg, pick, fuel).outcome == Done
    requires IsPrefix(cfg.baseSource, k)
    ensures k !in Run(fs, faults, cfg, pick, fuel).fs.nodes
  {
  }
}
