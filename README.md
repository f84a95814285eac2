# rs-copier in Dafny

rs-copier copies a directory tree from `--source` to `--destination`. With
`--delete-source` it moves the tree instead. At most `--concurrency`
directories are processed at once. This project models the copier's core in
`src/main.rs` and proves properties of the model:

- `process_directory` (lines 19-51) lists one directory and creates its
  destination. It copies each regular file directly inside it to
  `dest.join(file_name)`, removing the original after a successful copy when
  asked. It returns every other entry whose type it could read.
- `main`, from the source-exists guard (lines 123-125) on. The root is
  processed synchronously (line 130). Then the work-list loop pops directories
  from `dirs`, re-roots them under the destination (line 133) and spawns one
  task each into a JoinSet. It joins one task whenever the JoinSet holds
  `batch_size` or more (lines 132-151). Finally `remove_dir_all(base_source)`
  runs when deletion is on (lines 154-156).

The file system is a value: a map from paths (sequences of name components) to
`File(content)`, `Dir` or `Other`. It also records the order in which paths
were created, which fixes the order in which the model's `read_dir` yields entries. Every
`tokio::fs` call the copier makes is a function on that value
(`FileSystems`). Whether a call fails comes from a `Faults` oracle: the sets
of paths on which listing, creating, type lookup, copying and removing fail.
A failing call changes nothing; for `copy` the program does not promise that
(see "## Left out").

The source's loops are kept as loops:

- `Processor.HandleEntries` is the `while let` over the listing.
- `Orchestrator.WorkList` is the `while let` over `dirs`.

Each is proved equal to a recursive specification function (`Entries`,
`Loop`), and the properties are proved about those functions. A spawned task
runs, atomically, when it is joined. Which pending task `join_next` returns is
a parameter `pick`. A task that is never joined never runs.

Where the behaviour the copier is described as having differs from the code,
the model follows the code:

- The code has no per-directory deletion guard. It removes the whole source
  tree with one `remove_dir_all` after the loop.
- The loop ends when `dirs` is empty, not when the JoinSet is empty too.
- A failure of the final removal is returned as an error by `?`. It is not
  best-effort.
- Non-regular entries such as symlinks and devices are not skipped. They are
  returned with the directories and handed to a task of their own.

`Corrected` models the evidently intended behaviour for the two points that
lose data (see Findings).

## Model

| member | source | states |
|---|---|---|
| Paths.Join | src/main.rs:30 | `dir.join(name)` is a direct entry of `dir` whose file name is `name` |
| Paths.StripPrefix | src/main.rs:133 | `strip_prefix` succeeds exactly when `base` is a prefix of `p`, and `base` followed by the result is `p` |
| Paths.Reroot | src/main.rs:133 | re-rooting succeeds exactly for paths under `base`; the result lies under `target`, as deep below it as `p` is below `base` |
| Paths.RerootRoundTrip | src/main.rs:133 | re-rooting from `target` back to `base` undoes re-rooting from `base` to `target` |
| Paths.RerootInjective | src/main.rs:133 | two different source directories are never given the same destination |
| Paths.RerootJoin | src/main.rs:133 | the entry `name` of a directory is re-rooted to the entry `name` of the re-rooted directory, so `dest.join(file_name)` inside a task is the file's re-rooted path |
| Paths.RerootEntry | src/main.rs:133 | the same, stated for a direct entry `p` of a directory |
| Paths.RerootChild | src/main.rs:133 | re-rooting keeps the parent relation, in both directions |
| FileSystems.Children | src/main.rs:21 | exactly the existing direct entries of a directory, each once |
| FileSystems.ReadDir | src/main.rs:21 | listing succeeds exactly for an existing, listable directory; on success it yields every direct entry and nothing else, each once; a failure is `ListFailed` |
| FileSystems.Put | src/main.rs:22 | storing a node changes that one path and keeps the file system well-formed |
| FileSystems.MakeDirs | src/main.rs:22 | existing paths are kept unchanged; every prefix of `dest` exists afterwards; every new path is a directory on the way to `dest` |
| FileSystems.CreateDirAll | src/main.rs:22 | `create_dir_all` succeeds exactly when it is not made to fail and no non-directory stands on the way; on success `dest` is a directory |
| FileSystems.CopyFile | src/main.rs:32 | `copy` succeeds exactly for a regular, copyable source and a target that is not a directory or other non-file; on success only the target changes, to the source's content, except that a file copied onto itself is truncated to an empty file |
| FileSystems.RemoveFile | src/main.rs:36 | `remove_file` succeeds exactly for an existing regular file that is not made to fail; on success only that path is gone |
| FileSystems.RemoveDirAll | src/main.rs:155 | `remove_dir_all` succeeds exactly for an existing directory that is not made to fail; on success exactly the paths at or below it are gone and every other path is unchanged |
| Processor.Target | src/main.rs:30 | an entry's target is `dest.join(file_name)`; what that means is stated by `Processor.TargetsApart`, `Processor.TargetIsEntry` and `Paths.RerootEntry` |
| Processor.Entry | src/main.rs:25-48 | one entry keeps the file system well-formed; it is returned exactly when its type lookup succeeds and it is not a regular file |
| Processor.Entries | src/main.rs:24-49 | the entry loop keeps the file system well-formed |
| Processor.EntryFrame | src/main.rs:25-48 | one entry touches at most itself and its target, and never a directory or other non-file |
| Processor.EntryCopiesFile | src/main.rs:27-40 | when the target differs from the entry, a regular file whose copy succeeds is at its target with the same content; it is gone exactly when removal was asked for and succeeded, and otherwise unchanged |
| Processor.EntryKeepsFile | src/main.rs:32-39 | when the target differs from the entry, a regular file is never altered in place, and disappears only once its content is at its target |
| Processor.EntryLocal | src/main.rs:25-48 | what one entry does depends only on what is at the entry and at its target |
| Processor.TargetsApart | src/main.rs:30 | two different entries of one directory never touch each other's path or target |
| Processor.TargetIsEntry | src/main.rs:30 | an entry is its own target exactly when `dest` is `source` |
| Processor.EntriesFrame | src/main.rs:24-49 | the entry loop leaves alone every path that is neither an entry nor an entry's target |
| Processor.EntriesKeepNonFiles | src/main.rs:24-49 | the entry loop never changes a directory or other non-file |
| Processor.EntriesAt | src/main.rs:24-49 | over the distinct entries of one directory, each entry and its target end up as handling that entry alone would leave them |
| Processor.EntriesDirs | src/main.rs:41-43 | the loop returns exactly the entries that are collected, each once |
| Processor.Process | src/main.rs:21-22 | a failed call changes nothing and fails with a listing or creation error, the two `?` exits |
| Processor.ProcessOutcome | src/main.rs:21-22 | the call succeeds exactly when `source` can be listed and `dest` created; a listing failure comes first and changes nothing; any failure changes nothing; on success `dest` is a directory, even for an empty source |
| Processor.ProcessDirs | src/main.rs:41-50 | the returned vector holds, each once, exactly the direct entries of `source` whose type lookup succeeds and that are not regular files |
| Processor.ProcessAt | src/main.rs:24-49 | each direct entry, and its target, end up as handling that entry alone on the initial file system leaves them |
| Processor.ProcessCopiesFile | src/main.rs:27-40 | when `dest` differs from `source`, a direct regular file whose copy succeeds is at `dest.join(file_name)` with the same content; it is gone from `source` exactly when removal was asked for and succeeded, and otherwise unchanged |
| Processor.ProcessKeepsUncopied | src/main.rs:32-33 | a regular file whose type lookup or copy fails stays in place, and its target is unchanged |
| Processor.ProcessWithoutRemoveKeepsSource | src/main.rs:35 | when `dest` differs from `source` and without `remove_source`, every direct entry of `source` is left as it was |
| Processor.ProcessOntoItself | src/main.rs:30-40 | when a directory is processed onto itself, each copied file is left empty, and is gone when deletion is on and its removal succeeds |
| Processor.ProcessFrame | src/main.rs:19-51 | apart from the direct entries of `source` and their targets, the call changes nothing except adding the missing directories leading to `dest`; files in subdirectories are untouched |
| Processor.HandleEntry | src/main.rs:25-48 | the loop body computes exactly `Entry` |
| Processor.HandleEntries | src/main.rs:24-49 | the `while let` loop computes exactly `Entries` |
| Processor.ProcessDirectory | src/main.rs:19-51 | `process_directory` computes exactly `Process` |
| Orchestrator.Iterate | src/main.rs:132-150 | one turn keeps the loop invariant (JoinSet below `max(batch_size, 1)`, nothing lost or duplicated, all pushed paths under the source root, all tasks re-rooted); it spawns exactly one task, and joins exactly one when the JoinSet reaches `batch_size`, otherwise none |
| Orchestrator.Loop | src/main.rs:132-151 | the loop keeps the invariant; it has finished exactly when `dirs` is empty, whatever is still pending; it keeps every path outside both trees; without deletion and with disjoint trees it keeps the source tree |
| Orchestrator.Finish | src/main.rs:154-156 | the tasks still pending are what `main` leaves behind; a failure is the removal's error (or the iteration bound), and then nothing is removed |
| Orchestrator.Run | src/main.rs:123-125 | the run fails with "source does not exist" exactly when the source root is missing, and then changes nothing |
| Orchestrator.CopyTree | src/main.rs:123-159 | `main` computes exactly `Run` |
| Orchestrator.WorkList | src/main.rs:129-151 | the `while let` loop computes exactly `Loop`, and stops with `dirs` empty exactly when `Loop` finishes |
| Orchestrator.Turn | src/main.rs:132-150 | one pass of the loop body computes exactly `Iterate` |
| Orchestrator.SeedInv | src/main.rs:130 | the state after the root call satisfies the loop invariant |
| Orchestrator.Start | src/main.rs:130 | the loop starts from the root call's file system and directories, with an empty JoinSet and its bookkeeping conserved |
| Orchestrator.SpawnPops | src/main.rs:132-136 | `Spawn` pops the last directory, adds its task with the destination re-rooted to the JoinSet and to the spawned tasks, and changes nothing else |
| Orchestrator.SpawnTracked | src/main.rs:132-136 | the popped directory lies under the source root, so the `unwrap` cannot fail; spawning keeps the bookkeeping and adds one pending task |
| Orchestrator.SpawnUnderSource | src/main.rs:132 | popping keeps every path on `dirs` under the source root |
| Orchestrator.SpawnConserved | src/main.rs:132-134 | the popped directory is spawned exactly once |
| Orchestrator.SpawnRerooted | src/main.rs:133 | the spawned destination is the popped directory re-rooted |
| Orchestrator.JoinTracked | src/main.rs:140-148 | joining keeps the bookkeeping, with one task fewer pending and one more joined; all pushed directories lie under the source root; a successful task pushes exactly the direct entries of its directory whose type it could read and that are not regular files, each once, onto both `dirs` and the record of pushed directories |
| Orchestrator.JoinPops | src/main.rs:140-148 | `JoinOne` takes the picked task out of the JoinSet and records it as joined, leaves the file system as the task's run left it, and pushes nothing when the task failed (line 145) |
| Orchestrator.JoinedTracked | src/main.rs:140-148 | removing a pending task and appending what it found keeps the bookkeeping |
| Orchestrator.RootRerooted | src/main.rs:130 | the root call is the task of the source root re-rooted |
| Orchestrator.ProcessOutside | src/main.rs:19-51 | a re-rooted task keeps every path outside both trees, adding only directories on the way to the destination root |
| Orchestrator.JoinOutside | src/main.rs:140-148 | so does joining a task |
| Orchestrator.IterateOutside | src/main.rs:132-150 | so does a turn of the loop |
| Orchestrator.OutsideKeptTrans | src/main.rs:132-151 | keeping the paths outside both trees is transitive |
| Orchestrator.ProcessKeepsSourceTree | src/main.rs:19-51 | without deletion and with disjoint trees, a re-rooted task leaves the whole source tree as it was |
| Orchestrator.JoinKeepsSourceTree | src/main.rs:140-148 | so does joining a task |
| Orchestrator.IterateKeepsSourceTree | src/main.rs:132-150 | so does a turn of the loop |
| Orchestrator.SourceKeptTrans | src/main.rs:132-151 | keeping the source tree is transitive |
| Guarantees.RunOutside | src/main.rs:123-159 | whatever the outcome, a run keeps every path outside both trees, adding only the directories on the way to the destination root |
| Guarantees.RunKeepsSourceTree | src/main.rs:123-159 | without `--delete-source` and with disjoint trees, a run leaves the source tree exactly as it was, whatever fails |
| Guarantees.RunDeleteClearsSource | src/main.rs:154-156 | with `--delete-source`, a run that reports success leaves nothing under the source root |
| Findings.SoleSubdirectory | src/main.rs:19-51 | a directory whose only collected entry is `sub` returns `[sub]` |
| Findings.SpawnOnlyIterate | src/main.rs:132-138 | from one directory and an empty JoinSet with `batch_size` above one, a turn spawns the task and joins nothing |
| Findings.SpawnOnlyTurn | src/main.rs:132-151 | the loop then ends with the task still pending and the file system unchanged |
| Findings.RunAfterSeed | src/main.rs:129-156 | a run whose root call succeeds is the loop from its result, then the final step |
| Findings.FinishRemovesSource | src/main.rs:154-156 | after a finished loop with deletion on, removal reports success and erases exactly the paths under the source root, whatever is still pending |
| Findings.SubdirectoryLeftBehind | src/main.rs:132 | a source root holding a single subdirectory, moved with concurrency above one, reports success with that subdirectory's task never joined |
| Findings.SubdirectoryLeftBehindFiles | src/main.rs:132-156 | in that run the source tree is gone, and the paths that exist are exactly those the root call left outside the source tree |
| Findings.NoSubdirectoryErased | src/main.rs:154-156 | a source root whose listing yields no directory, moved, reports success with nothing pending |
| Findings.NoSubdirectoryErasedFiles | src/main.rs:154-156 | in that run every path under the source root is gone, whether or not its copy succeeded |
| Findings.UnjoinedTaskLosesFile | src/main.rs:132 | on `s/d/f` moved to `t` with the default concurrency, the run reports success, the task for `s/d` is never joined, and `s/d/f` exists nowhere |
| Findings.FailedCopyErased | src/main.rs:154-156 | on `s/f` moved to `t` with its copy failing, the run reports success and `s/f` exists nowhere |
| Corrected.DrainTurn | src/main.rs:132-151 | a turn of the corrected loop keeps the loop invariant |
| Corrected.DrainLoop | src/main.rs:132-151 | the corrected loop finishes exactly when `dirs` and the JoinSet are both empty; then every spawned task was joined and every pushed directory spawned; with disjoint trees it conserves the source tree |
| Corrected.FinishFixed | src/main.rs:153-156 | the tasks still pending are reported; a failure changes nothing and is the removal's error or the iteration bound; a successful removal with deletion on happens only when no regular file is left under the source root |
| Corrected.GuardedRemoveSource | src/main.rs:153-156 | the source tree is removed only when no regular file is left in it, and then exactly the paths under it go; every regular file survives the removal |
| Corrected.RunFixed | src/main.rs:123-159 | a corrected run that reports success has joined every task it spawned |
| Corrected.ProcessShrinksAt | src/main.rs:19-51 | with disjoint trees, a re-rooted task never creates or alters a path under the source root |
| Corrected.ProcessSavesEntry | src/main.rs:27-40 | with disjoint trees, a direct regular file stays unchanged or has its content at its re-rooted path |
| Corrected.ProcessSavesAt | src/main.rs:19-51 | with disjoint trees, the same for every regular file of the source tree |
| Corrected.ProcessKeepsCopy | src/main.rs:19-51 | with disjoint trees, a file already moved to its re-rooted path stays there unchanged |
| Corrected.ProcessConserves | src/main.rs:19-51 | with disjoint trees, one task conserves the source tree: nothing under it created or altered, every file saved, every copy of a moved file kept |
| Corrected.ConservesTrans | src/main.rs:132-151 | conserving the source tree is transitive, so it carries from tasks to a whole run |
| Corrected.JoinConserves | src/main.rs:140-148 | joining a task conserves the source tree |
| Corrected.DrainTurnConserves | src/main.rs:132-150 | a turn of the corrected loop conserves the source tree |
| Corrected.GuardedRemoveSaves | src/main.rs:153-156 | the guarded removal takes no file that is still only in the source tree |
| Corrected.RunFixedLosesNoFile | src/main.rs:123-159 | with disjoint trees, a corrected run loses no regular file of the source tree, whatever fails and whatever the outcome |

## Left out

- Logging (`setup_logger`, `info!`, `debug!`, `error!`): output only, with no effect on the file system.
- Argument parsing (`Args`, clap): the four options are the fields of `Config`. `batch_size` is a `nat` rather than a 64-bit `usize`.
- Concurrency: tasks do not interleave. A task runs atomically when it is joined, and which task `join_next` returns is the parameter `pick`. Tasks still in the JoinSet when `main` returns are reported in `unjoined` and never run. The runtime drops them, and a dropped task may have done none, part or all of its work before that.
- A `next_entry` error half-way through a listing is not modelled. Listing either fails up front or yields every entry.
- The order of `read_dir`: the model lists entries in the recorded order `order`. For paths that existed before the run that order is an arbitrary input, and paths created during the run are listed last. The program lists entries in whatever order the file system returns.
- `create_dir_all` and `remove_dir_all` are atomic. They never fail part-way, leaving some directories created or removed.
- Processor.ProcessKeepsUncopied: a `copy` is all-or-nothing in the model, so a failed copy leaves its target unchanged. In the program `std::fs::copy` opens the target with create and truncate before reading, so a copy that fails after that (a read error, a full disk, `set_permissions`) leaves the target empty or partly written, and creates it if it was absent. The target is unchanged only when the failure comes before the open (the type lookup fails, the source cannot be opened, or the target is not a regular file).
- Byte-level copying, permissions, symlink resolution and OS error kinds are not modelled; a file's content is a byte sequence copied whole. A symlink or device is an `Other` node, which cannot be listed.
- Symlinks to directories: line 42 collects such an entry (its `file_type` is not a regular file), and the task spawned for it lists the linked directory through `read_dir`, which follows the link. With `--delete-source` the program copies and removes the files of a linked directory, even one outside the source tree. The model's `Other` node cannot be listed, so its task fails instead.
- Guarantees.RunOutside: covers only trees without symlinks of any kind, in either tree or on the way to the destination root. `copy` (line 32) writes through a symlink at its target, and `create_dir_all` (line 22) follows one on the way to `dest`, so with such links the program writes outside both trees.
- Orchestrator.Loop: runs for at most `fuel` turns. The real loop need not terminate, for example when the destination lies inside the source.
- Orchestrator.WorkList: bounded by the same `fuel`.
- Orchestrator.Run: a run whose loop exhausts `fuel` reports `FuelExhausted`, an outcome the real program does not have.
- Guarantees.RunKeepsSourceTree: assumes that neither root lies inside the other. Copying a tree into itself is not covered. It also covers only trees without symlinks of any kind, in either tree or on the way to the destination root: a destination symlink that points into the source tree makes `copy` overwrite a source file.
- Corrected.RunFixedLosesNoFile: assumes the same, for the same reasons.
- Guarantees.RunDeleteClearsSource: holds because tasks left unjoined never run in the model. In the program such a task may still be running after `remove_dir_all`; when the destination lies inside the source it can then re-create paths under the source root.
- Corrected.RunFixed: the corrected removal leaves the source tree in place whenever any regular file is left in it. It does not remove the empty parts of the tree directory by directory.

## Findings

| source | as written | input that shows it | evidently intended | confidence | as-written member | corrected member |
|---|---|---|---|---|---|---|
| src/main.rs:132 | `while let Some(dir) = dirs.pop()` stops as soon as `dirs` is empty, while spawned tasks may still be in the JoinSet; `main` then returns and the runtime drops them | source `s` holding `s/d/f`, destination `t`, `--delete-source`, concurrency 10: the task for `s/d` is spawned and never joined, then `remove_dir_all(s)` runs; `s/d/f` is lost unless the unjoined task copied it before the runtime dropped it (in the model it never runs, and `s/d/f` exists nowhere). With `s/d/e/f` instead the loss does not depend on scheduling: the task for `s/d` is never joined, so `s/d/e` is never pushed or spawned and `s/d/e/f` is never copied | keep joining until both `dirs` and the JoinSet are empty | not executed | Findings.UnjoinedTaskLosesFile | Corrected.DrainLoop |
| src/main.rs:154-156 | `remove_dir_all(base_source)` removes the whole source tree, although the comment says it holds "only the directory structure empty of files"; files whose copy failed are still in it | source `s` holding `s/f` whose copy fails, destination `t`, `--delete-source`: the run reports success and `s/f` exists nowhere | remove the source tree only when no regular file is left in it, so that no file is lost | not executed | Findings.FailedCopyErased | Corrected.GuardedRemoveSource |
