# watchdog: a verified model of the supervisor's sequential core

watchdog launches one executable, keeps it running, and restarts it when it exits or
when a file in its directory changes. This project models, in Dafny, the parts of it that
are sequential logic:

- **The managed process** (`Config` in `src/config.rs`), as the class
  `Configuration.Config`. Its settings are `const` fields, which also stand for the
  trivial getters (`directory`, `restart_delay`, `recheck_delay`, `watch_files`). The
  one optional child handle, `process`, is updated in place by `Start`, `Stop` and
  `CheckProcessExit`. A ghost `trace` records every spawn, kill and pause in order.
  The operating system's answers are parameters:
  - `files`: the set of paths that exist;
  - `spawned`: the child a spawn yields, or none when spawning fails;
  - `killSucceeds`: whether the kill works;
  - a `PollResult`: still running, wait error, or exited with success or failure.
  A panic is a returned `Status` (`Panicked(fault)`).
- **The change detector** (`Config::check_file_changes`), as
  `Configuration.Config.CheckFileChanges`. This is a `while` loop with a `break` over a
  listing of `(name, signature)` entries. It updates a `SignatureCache` object in place.
  It is proved equal to the recursive reference function `ChangeDetector.Scan`, and the
  detector's properties are proved about `Scan` as lemmas. A signature is an opaque
  `nat`.
- **The path split in `From<CommandLineArguments>`**, as
  `Paths.SplitExecutablePath`. A canonical path is its sequence of components. Rust's
  `Path::extension` is modelled by `Paths.Extension`.
- **The entry point** (`src/main.rs`):
  - `Supervisor.FileWatchCycle` is one cycle of the file-change monitor.
  - `Supervisor.Supervise` is the order `main` imposes: build the configuration, start
    the child, run the monitors' cycles one whole cycle at a time (as the shared lock
    serialises them), then do the final stop.

The model follows the code where it differs from the advertised design. After a clean
exit with `onlyNonZeroExit` set, `check_process_exit` does nothing: the stale handle
stays and the supervisor keeps running (`src/config.rs:105-115`). The file name taken from
the path is the whole last component, extension included (`src/config.rs:136`). The scan
is one directory level deep (`src/config.rs:72`), although the help text speaks of
subdirectories.

## Model

| member | source | states |
|---|---|---|
| `Paths.Extension` | src/config.rs:134 | an extension exists iff some '.' stands after the first character of the file name; it is the dot-free text after the last '.' |
| `Paths.SplitExecutablePath` | src/config.rs:133-141 | succeeds iff the last component has an extension; then `directory + [fileName]` is the input path, and the file name keeps its extension |
| `Configuration.Config.constructor` | src/config.rs:143-151 | the new configuration has no process and an empty trace, and it copies the flags and delays |
| `Configuration.Config.FromArguments` | src/config.rs:128-153 | panics with `InvalidFilePath` (and no configuration) iff the split fails; otherwise gives a fresh configuration with no process whose directory joined with the file name is the canonical path |
| `Configuration.RestartOnExit` | src/config.rs:105-115 | a failed exit always restarts; a successful exit restarts iff `onlyNonZeroExit` is false |
| `Configuration.Config.Start` | src/config.rs:22-35 | a missing executable panics before spawning, and a spawn failure panics too; both leave handle and trace untouched. Otherwise the spawned child becomes the handle and a spawn event is appended |
| `Configuration.Config.Stop` | src/config.rs:36-56 | returns true iff there was a handle and the kill succeeded; only then is the handle cleared and a kill event appended. Otherwise nothing changes |
| `Configuration.Config.CheckProcessExit` | src/config.rs:99-123 | with no handle, a running child, a wait error, or a clean exit under `onlyNonZeroExit`, nothing changes. After an exit the rule restarts, the trace gets the pause (iff `restartDelay > 0`) and then the effect of `Start` |
| `Configuration.Config.CheckFileChanges` | src/config.rs:71-98 | the loop's result and the cache it leaves equal `Scan` of the listing against the old cache |
| `ChangeDetector.SignatureCache.constructor` | src/main.rs:45 | the monitor's cache starts empty |
| `ChangeDetector.Scan` | src/config.rs:75-97 | a scan never removes cache keys and adds only listed names |
| `ChangeDetector.Adopt` | src/config.rs:85-90 | the baseline holds the old keys plus the listed names, and unlisted names keep their values |
| `ChangeDetector.AdoptMapsListedNames` | src/config.rs:85-90 | with distinct names, the baseline maps each listed name to its listed signature |
| `ChangeDetector.ScanUnchangedAdoptsAll` | src/config.rs:85-97 | a scan that reports no change leaves the cache equal to the old cache with the whole listing adopted |
| `ChangeDetector.ScanUnchangedExtends` | src/config.rs:85-90 | a scan that reports no change keeps every signature already cached |
| `ChangeDetector.ScanUnchangedAllCurrent` | src/config.rs:85-97 | after a scan that reports no change, every listed name maps to its current signature |
| `ChangeDetector.ScanSkipsCurrentPrefix` | src/config.rs:85-94 | entries whose signature is already cached are passed over with no effect |
| `ChangeDetector.QuietScanIsIdentity` | src/config.rs:75-97 | if every entry is current, the scan reports no change and leaves the cache as it was |
| `ChangeDetector.RescanUnchanged` | src/config.rs:75-97 | an immediate rescan after a scan that reported no change reports no change and changes nothing |
| `ChangeDetector.ScanChangedIff` | src/config.rs:85-97 | with distinct names, a change is reported iff some listed name already had a different cached signature |
| `ChangeDetector.FirstScanOnlySeeds` | src/config.rs:85-90 | against an empty cache a scan reports no change and only adopts the baseline |
| `ChangeDetector.ScanEndsAtFirstMismatch` | src/config.rs:85-94 | at the first mismatch the scan reports a change, and the cache holds exactly the listing up to that entry |
| `ChangeDetector.ScanLeavesLaterEntriesUntouched` | src/config.rs:92-95 | names after the first mismatch keep their old cache entry, or stay absent |
| `ChangeDetector.SingleChangeReportedOnce` | src/config.rs:75-97 | in a settled cache, one file whose signature moves is reported once; the next scan reports no change |
| `Supervisor.FileWatchCycle` | src/main.rs:44-58 | with watching off nothing changes; with no change the cache takes the scan's result and the child is untouched; with a change but a failed stop no start is tried; with a change and a successful stop the trace gets the kill, the pause iff `restartDelay > 0`, then the effect of `Start` |
| `Supervisor.FirstFileWatchCycle` | src/main.rs:45-48 | the first cycle, on an empty cache, neither stops nor starts the child and only seeds the cache |
| `Supervisor.Step` | src/main.rs:47-71 | one monitor cycle, a file-watch cycle (lines 47-58) or an exit check (line 71, `check_process_exit` at src/config.rs:99-123), never shortens the trace |
| `Supervisor.Run` | src/main.rs:43-75 | a run of serialised cycles, cut at the first panic, never shortens the trace |
| `Supervisor.RunStopsAtPanic` | src/main.rs:43-78 | once a cycle has panicked, later cycles change nothing: the run equals its prefix up to the panic (the file monitor's private cache is frozen too; see "## Left out") |
| `Supervisor.MonitorCycle` | src/main.rs:47-71 | one cycle of either monitor (the file watcher at lines 47-58, the exit check at line 71, i.e. `check_process_exit` at src/config.rs:99-123) under the lock changes handle, trace and cache exactly as `Step` says |
| `Supervisor.Supervise` | src/main.rs:29-80 | an invalid path, a missing executable or a spawn failure panics before any monitor runs: no handle, no final stop, an empty trace. Otherwise the status, the handle and the trace at the join are those of `Run` from the state right after the initial spawn, so that spawn is the first event. The final stop kills the child iff no monitor panicked, a handle is present and the kill works, and it adds exactly that one kill event |

## Left out

- Threads, `Arc<Mutex<_>>`, locking and `join`: a run is a sequence of whole monitor
  cycles, the order the lock imposes on them. The poison flag itself is not state in the
  model; its effect, that every later locked cycle panics, is modelled by cutting the run
  at the first panic. In the source
  the file-change thread returns normally at once when watching is off, but the exit
  monitor's thread (`src/main.rs:68-75`) ends only by panicking, and its only panics
  happen with the lock held or on an already poisoned lock. So when `main` gets past the
  joins the mutex is poisoned, and the final `lock().unwrap()` at `src/main.rs:80` would
  panic too.
- Supervisor.RunStopsAtPanic: the snapshot after a panic is frozen whole, cache included,
  and `Supervisor.Run` cuts the run the same way. In the source, after the exit monitor
  panics, the file monitor goes on scanning (`src/main.rs:48` takes no lock), so its
  private cache keeps adopting names and signatures, until a scan reports a change and
  the thread panics on the poisoned lock at `src/main.rs:51`. No handle, trace or status
  effect is lost, since those scans never reach the locked configuration.
- Supervisor.Supervise: the end of the given finite list of cycles stands in for the joins
  returning, and in that case the final stop runs. After a panicking cycle the run ends
  and no final stop runs.
- Real sleeps and durations: a pause is only a `Paused` event in the trace. The monitors'
  recheck sleeps (`src/main.rs:60-62`, `73`) are not recorded at all.
- Process calls `spawn`, `kill` and `try_wait`: their outcomes are parameters. Dropping
  a replaced `Child` handle kills nothing in Rust, and nothing is modelled for it.
- Filesystem calls: the listing from `read_dir` and `metadata` is an input. The
  `SystemTime` conversion and the length fallback give an opaque `nat` signature.
  `try_exists` becomes membership in `files`. `fs::canonicalize` is replaced by its result,
  a path given as components without a root or drive prefix.
- `unwrap` panics on I/O errors (canonicalisation, `try_exists`, `read_dir`, entries,
  `metadata`), and all `println!` output.
- Command-line parsing and its defaults. `CommandLineArguments` keeps only the fields
  `Config::from` reads. The raw `path` is replaced by its canonical form.
  `force_restart_delay` is parsed but never read, so it has no behaviour to model.
- The exit monitor's loop (`src/main.rs:68-75`): each of its cycles is one call of
  `CheckProcessExit`, an `ExitCheck` step in `Supervise`.
- Subdirectory recursion: the scan is one level, as in the code.
- Paths.Extension: only the dot rule is modelled. The special case of a file name equal to
  ".." is handled in `Paths.SplitExecutablePath`, which finds no file name for it.
