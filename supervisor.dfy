/**
 * The sequential logic of the entry point (src/main.rs): one cycle of the file-change
 * monitor, and the order `main` imposes on the initial start, the monitors' cycles and
 * the final stop. The monitors run on threads that share the configuration behind one
 * lock; every cycle holds the lock from its first access to its last, so a run is
 * modelled as a sequence of whole cycles taken one after another.
 */
module Supervisor {
  import opened Wrappers
  import opened Paths
  import opened ChangeDetector
  import opened Configuration

  /** One cycle of a monitor, with the outside world's answers for that cycle. */
  datatype MonitorStep =
    | ExitCheck(poll: PollResult, files: set<Path>, spawned: Option<Child>)
    | FileCheck(listing: Listing, killSucceeds: bool, files: set<Path>, spawned: Option<Child>)

  /** One cycle of the file-change monitor: scan the directory; on a change, stop the
      child, and only when the stop succeeded pause (if a restart delay is set) and start
      it again. With file watching off the monitor does nothing at all. */
  method FileWatchCycle(config: Config, cache: SignatureCache, listing: Listing, killSucceeds: bool,
                        files: set<Path>, spawned: Option<Child>) returns (status: Status)
    modifies config, cache
    ensures old(config.trace) <= config.trace
    ensures !config.watchFiles ==>
      status == Normal && cache.entries == old(cache.entries) &&
      config.process == old(config.process) && config.trace == old(config.trace)
    ensures config.watchFiles ==> cache.entries == Scan(listing, old(cache.entries)).cache
    ensures config.watchFiles && !Scan(listing, old(cache.entries)).changed ==>
      status == Normal && config.process == old(config.process) && config.trace == old(config.trace)
    ensures config.watchFiles && Scan(listing, old(cache.entries)).changed &&
            !(old(config.process).Some? && killSucceeds) ==>
      status == Normal && config.process == old(config.process) && config.trace == old(config.trace)
    ensures config.watchFiles && Scan(listing, old(cache.entries)).changed &&
            old(config.process).Some? && killSucceeds ==>
      config.Launched(None, old(config.trace) + [Killed(old(config.process).value)] + PauseBefore(config.restartDelay),
                      files, spawned, status)
  {
    status := Normal;
    if config.watchFiles {
      var changes := Config.CheckFileChanges(listing, cache);
      if changes {
        var stopped := config.Stop(killSucceeds);
        if stopped {
          if config.restartDelay > 0 {
            config.trace := config.trace + [Paused(config.restartDelay)];
          }
          status := config.Start(files, spawned);
        }
      }
    }
  }

  /** The file-change monitor's first cycle: its cache starts empty, so the scan only
      seeds the baseline and the child is neither stopped nor started. */
  method FirstFileWatchCycle(config: Config, listing: Listing, killSucceeds: bool,
                             files: set<Path>, spawned: Option<Child>) returns (status: Status, cache: SignatureCache)
    requires DistinctNames(listing)
    modifies config
    ensures fresh(cache)
    ensures status == Normal && config.process == old(config.process) && config.trace == old(config.trace)
    ensures cache.entries == if config.watchFiles then Adopt(listing, map[]) else map[]
  {
    cache := new SignatureCache();
    FirstScanOnlySeeds(listing);
    status := FileWatchCycle(config, cache, listing, killSucceeds, files, spawned);
  }

  /** What a run has produced after some cycles: the managed process as the outside
      world sees it, and the file-change monitor's cache. */
  datatype Snapshot = Snapshot(life: Lifecycle, cache: Cache)

  /** The effect of one monitor cycle on a run, for the executable at `fullPath` and the
      settings in `args`: an exit check restarts the child when it has exited and the
      restart rule asks for it (after the pause, if any); a file check, when watching is
      on, scans, and on a change kills the child and, if the kill worked, pauses and
      starts it again. The trace only grows. */
  function Step(args: CommandLineArguments, fullPath: Path, s: Snapshot, step: MonitorStep): (r: Snapshot)
    ensures s.life.trace <= r.life.trace
  {
    var quiet := s.life.(status := Normal);
    match step
    case ExitCheck(poll, files, spawned) =>
      if s.life.process.Some? && poll.Exited? && RestartOnExit(args.onlyNonZeroExit, poll.success) then
        s.(life := Launch(fullPath, files, spawned, s.life.process, s.life.trace + PauseBefore(args.restartDelay)))
      else
        s.(life := quiet)
    case FileCheck(listing, killSucceeds, files, spawned) =>
      if !args.watchFiles then s.(life := quiet)
      else
        var scan := Scan(listing, s.cache);
        if scan.changed && s.life.process.Some? && killSucceeds then
          var stopped := s.life.trace + [Killed(s.life.process.value)];
          Snapshot(Launch(fullPath, files, spawned, None, stopped + PauseBefore(args.restartDelay)), scan.cache)
        else
          Snapshot(quiet, scan.cache)
  }

  /** A run of monitor cycles taken one after another from `start`: every cycle after the
      first panic is not taken. The trace of `start` is a prefix of the run's trace. */
  function Run(args: CommandLineArguments, fullPath: Path, start: Snapshot, steps: seq<MonitorStep>): (r: Snapshot)
    ensures start.life.trace <= r.life.trace
    decreases |steps|
  {
    if steps == [] then start
    else
      var before := Run(args, fullPath, start, steps[..|steps| - 1]);
      if before.life.status.Panicked? then before
      else Step(args, fullPath, before, steps[|steps| - 1])
  }

  /** Once a cycle has panicked, the cycles after it change nothing. */
  lemma {:induction false} RunStopsAtPanic(args: CommandLineArguments, fullPath: Path, start: Snapshot,
                                           steps: seq<MonitorStep>, k: nat)
    requires k <= |steps|
    requires Run(args, fullPath, start, steps[..k]).life.status.Panicked?
    ensures Run(args, fullPath, start, steps) == Run(args, fullPath, start, steps[..k])
    decreases |steps| - k
  {
    if k == |steps| {
      assert steps[..k] == steps;
    } else {
      var shorter := steps[..|steps| - 1];
      assert shorter[..k] == steps[..k];
      RunStopsAtPanic(args, fullPath, start, shorter, k);
    }
  }

  /** One cycle of either monitor, taken while it holds the lock: its effect on the
      handle, the trace and the cache is `Step`'s. */
  method MonitorCycle(args: CommandLineArguments, fullPath: Path, config: Config, cache: SignatureCache,
                      step: MonitorStep) returns (status: Status)
    requires config.FullPath() == fullPath && config.watchFiles == args.watchFiles
    requires config.onlyNonZeroExit == args.onlyNonZeroExit && config.restartDelay == args.restartDelay
    modifies config, cache
    ensures Snapshot(Lifecycle(status, config.process, config.trace), cache.entries)
            == Step(args, fullPath, Snapshot(Lifecycle(Normal, old(config.process), old(config.trace)), old(cache.entries)), step)
  {
    match step {
      case ExitCheck(poll, files, spawned) =>
        status := config.CheckProcessExit(poll, files, spawned);
      case FileCheck(listing, killSucceeds, files, spawned) =>
        status := FileWatchCycle(config, cache, listing, killSucceeds, files, spawned);
    }
  }

  /** The whole run as `main` orders it: build the configuration, start the child before
      any monitor exists, run the monitors' cycles (serialised by the lock) until one of
      them panics or the list of cycles ends, and then, unless a monitor panicked, stop
      the child once. `handleAtJoin` and `atJoin` are the handle and the trace when the
      monitors have finished, `finalStopped` whether the final stop killed the child,
      and `trace` the whole trace. The `finalStopped` case stands in for the joins
      returning: in the code as written the exit monitor only ends by panicking, which
      poisons the lock, so the final `stop` cannot run there. */
  method Supervise(args: CommandLineArguments, canonical: Path, files: set<Path>, spawned: Option<Child>,
                   steps: seq<MonitorStep>, finalKillSucceeds: bool)
    returns (status: Status, handleAtJoin: Option<Child>, finalStopped: bool,
             ghost atJoin: seq<Event>, ghost trace: seq<Event>)
    ensures SplitExecutablePath(canonical).None? ==>
      status == Panicked(InvalidFilePath) && handleAtJoin == None && !finalStopped && trace == []
    ensures SplitExecutablePath(canonical).Some? && canonical !in files ==>
      status == Panicked(FileDoesNotExist) && handleAtJoin == None && !finalStopped && trace == []
    ensures SplitExecutablePath(canonical).Some? && canonical in files && spawned.None? ==>
      status == Panicked(CannotSpawn) && handleAtJoin == None && !finalStopped && trace == []
    ensures SplitExecutablePath(canonical).Some? && canonical in files && spawned.Some? ==>
      var run := Run(args, canonical, Snapshot(Lifecycle(Normal, spawned, [Spawned(spawned.value)]), map[]), steps);
      status == run.life.status && handleAtJoin == run.life.process && atJoin == run.life.trace &&
      atJoin[0] == Spawned(spawned.value)
    ensures finalStopped <==> status.Normal? && handleAtJoin.Some? && finalKillSucceeds
    ensures trace == atJoin + if finalStopped then [Killed(handleAtJoin.value)] else []
  {
    var config: Config?;
    status, config := Config.FromArguments(args, canonical);
    if status.Panicked? {
      return status, None, false, [], [];
    }
    status := config.Start(files, spawned);
    if status.Panicked? {
      return status, config.process, false, config.trace, config.trace;
    }
    var cache := new SignatureCache();
    ghost var start := Snapshot(Lifecycle(Normal, spawned, [Spawned(spawned.value)]), map[]);
    var i := 0;
    assert steps[..i] == [];
    while i < |steps|
      invariant 0 <= i <= |steps|
      invariant status == Normal
      invariant Snapshot(Lifecycle(status, config.process, config.trace), cache.entries)
                == Run(args, canonical, start, steps[..i])
    {
      status := MonitorCycle(args, canonical, config, cache, steps[i]);
      assert steps[..i + 1][..i] == steps[..i];
      if status.Panicked? {
        RunStopsAtPanic(args, canonical, start, steps, i + 1);
        break;
      }
      i := i + 1;
    }
    assert i == |steps| ==> steps[..i] == steps;
    handleAtJoin := config.process;
    atJoin := config.trace;
    finalStopped := false;
    if status.Normal? {
      finalStopped := config.Stop(finalKillSucceeds);
    }
    trace := config.trace;
  }
}
