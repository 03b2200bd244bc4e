/**
 * The managed process (`Config` in src/config.rs): the supervisor's settings, the one
 * optional handle to the child it launched, and the start / stop / exit-check lifecycle
 * that updates that handle in place. Operating-system effects come in as parameters:
 * the set of paths that exist, the child a spawn yields (or none when spawning fails),
 * whether a kill succeeds, and the outcome of a non-blocking wait.
 */
module Configuration {
  import opened Wrappers
  import opened Paths
  import opened ChangeDetector

  /** A handle to a running child process. */
  datatype Child = Child(pid: nat)

  /** What the supervisor did to the outside world, in order: a child spawned, a child
      killed, or a pause of the given number of milliseconds. */
  datatype Event = Spawned(child: Child) | Killed(child: Child) | Paused(millis: nat)

  /** The outcome of a non-blocking wait on the child (`try_wait`). */
  datatype PollResult = StillRunning | WaitError | Exited(success: bool)

  /** The conditions under which the supervisor panics. */
  datatype Fault = FileDoesNotExist | CannotSpawn | InvalidFilePath

  /** Whether an operation returned normally or panicked. */
  datatype Status = Normal | Panicked(fault: Fault)

  /** The managed process as the outside world sees it after an operation: how the
      operation ended, the handle, and the trace of effects so far. */
  datatype Lifecycle = Lifecycle(status: Status, process: Option<Child>, trace: seq<Event>)

  /** The parsed command line, less the executable path (whose canonical form is passed
      separately) and the force-restart delay (which nothing reads). */
  datatype CommandLineArguments = CommandLineArguments(
    watchFiles: bool,
    onlyNonZeroExit: bool,
    restartDelay: nat,
    recheckDelay: nat)

  /** The pause that precedes a restart: one of `restartDelay` milliseconds, or none
      when the delay is zero. */
  function PauseBefore(restartDelay: nat): seq<Event>
  {
    if restartDelay > 0 then [Paused(restartDelay)] else []
  }

  /** What `Start` does to handle `process0` and trace `trace0` for the executable at
      `fullPath`. When the executable is missing it panics before spawning, and when it
      cannot be spawned it panics too; in both cases nothing changes. Otherwise the
      spawned child becomes the handle and its spawn is appended to the trace. */
  function Launch(fullPath: Path, files: set<Path>, spawned: Option<Child>,
                  process0: Option<Child>, trace0: seq<Event>): Lifecycle
  {
    if fullPath !in files then Lifecycle(Panicked(FileDoesNotExist), process0, trace0)
    else if spawned.None? then Lifecycle(Panicked(CannotSpawn), process0, trace0)
    else Lifecycle(Normal, spawned, trace0 + [Spawned(spawned.value)])
  }

  /** The restart rule applied when the child has exited. */
  function RestartOnExit(onlyNonZeroExit: bool, success: bool): (restart: bool)
    ensures !success ==> restart
    ensures success ==> (restart <==> !onlyNonZeroExit)
  {
    if success && !onlyNonZeroExit then true
    else if !success then true
    else false
  }

  class Config {
    const directory: Path
    const fileName: string
    var process: Option<Child>
    const watchFiles: bool
    const onlyNonZeroExit: bool
    const restartDelay: nat
    const recheckDelay: nat
    /** Everything this supervisor has done to the outside world, oldest first. */
    ghost var trace: seq<Event>

    /** A configuration with no child yet. */
    constructor (location: Location, args: CommandLineArguments)
      ensures directory == location.directory && fileName == location.fileName
      ensures process == None && trace == []
      ensures watchFiles == args.watchFiles && onlyNonZeroExit == args.onlyNonZeroExit
      ensures restartDelay == args.restartDelay && recheckDelay == args.recheckDelay
    {
      directory := location.directory;
      fileName := location.fileName;
      process := None;
      watchFiles := args.watchFiles;
      onlyNonZeroExit := args.onlyNonZeroExit;
      restartDelay := args.restartDelay;
      recheckDelay := args.recheckDelay;
      trace := [];
    }

    /** Builds the configuration from the command line and the canonical form of its
        path; panics when the path's last component has no extension. */
    static method FromArguments(args: CommandLineArguments, canonical: Path) returns (status: Status, config: Config?)
      ensures status.Normal? <==> SplitExecutablePath(canonical).Some?
      ensures status.Panicked? ==> status.fault == InvalidFilePath && config == null
      ensures status.Normal? ==> config != null && fresh(config) && config.process == None && config.trace == []
      ensures status.Normal? ==> config.directory + [config.fileName] == canonical
      ensures status.Normal? ==> config.watchFiles == args.watchFiles && config.onlyNonZeroExit == args.onlyNonZeroExit
      ensures status.Normal? ==> config.restartDelay == args.restartDelay && config.recheckDelay == args.recheckDelay
    {
      var location := SplitExecutablePath(canonical);
      if location.None? {
        return Panicked(InvalidFilePath), null;
      }
      config := new Config(location.value, args);
      status := Normal;
    }

    /** The executable's full path: the directory joined with the file name. */
    function FullPath(): Path
    {
      directory + [fileName]
    }

    /** The handle and trace are what `Start` makes of handle `process0` and trace
        `trace0`, and `status` is how it ended. */
    ghost predicate Launched(process0: Option<Child>, trace0: seq<Event>, files: set<Path>,
                             spawned: Option<Child>, status: Status)
      reads this
    {
      Lifecycle(status, process, trace) == Launch(FullPath(), files, spawned, process0, trace0)
    }

    /** The child has exited and the restart rule asks for a restart. */
    predicate RestartsAfter(handle: Option<Child>, poll: PollResult)
    {
      handle.Some? && poll.Exited? && RestartOnExit(onlyNonZeroExit, poll.success)
    }

    /** Launches the executable from the configured directory and records its handle. */
    method Start(files: set<Path>, spawned: Option<Child>) returns (status: Status)
      modifies this
      ensures Launched(old(process), old(trace), files, spawned, status)
      ensures status.Normal? <==> FullPath() in files && spawned.Some?
      ensures status.Normal? ==> process.Some?
    {
      var fullPath := directory + [fileName];
      if fullPath !in files {
        return Panicked(FileDoesNotExist);
      }
      if spawned.None? {
        return Panicked(CannotSpawn);
      }
      process := spawned;
      trace := trace + [Spawned(spawned.value)];
      return Normal;
    }

    /** Kills the child, if there is one; the handle is cleared only when the kill
        succeeds, and the result says whether it did. */
    method Stop(killSucceeds: bool) returns (success: bool)
      modifies this
      ensures success <==> old(process).Some? && killSucceeds
      ensures process == if success then None else old(process)
      ensures trace == if success then old(trace) + [Killed(old(process).value)] else old(trace)
    {
      match process {
        case None =>
          success := false;
        case Some(c) =>
          success := killSucceeds;
      }
      if success {
        trace := trace + [Killed(process.value)];
        process := None;
      }
    }

    /** Polls the child once and applies the restart rule: nothing happens without a
        handle, while the child runs, or when the wait fails; after an exit that the rule
        restarts, the pause (if any) comes first and then `Start`; after a clean exit
        with `onlyNonZeroExit` set, nothing happens and the stale handle stays. */
    method CheckProcessExit(poll: PollResult, files: set<Path>, spawned: Option<Child>) returns (status: Status)
      modifies this
      ensures old(trace) <= trace
      ensures !RestartsAfter(old(process), poll) ==>
        status == Normal && process == old(process) && trace == old(trace)
      ensures RestartsAfter(old(process), poll) ==>
        Launched(old(process), old(trace) + PauseBefore(restartDelay), files, spawned, status)
    {
      status := Normal;
      match process {
        case None =>
        case Some(c) =>
          match poll {
            case StillRunning =>
            case WaitError =>
            case Exited(success) =>
              if success && !onlyNonZeroExit {
                if restartDelay > 0 {
                  trace := trace + [Paused(restartDelay)];
                }
                status := Start(files, spawned);
              } else if !success {
                if restartDelay > 0 {
                  trace := trace + [Paused(restartDelay)];
                }
                status := Start(files, spawned);
              }
          }
      }
    }

    /** Scans one directory listing against the monitor's cache, updating the cache in
        place and stopping at the first entry whose signature changed. */
    static method CheckFileChanges(listing: Listing, cache: SignatureCache) returns (fileUpdated: bool)
      modifies cache
      ensures ScanResult(fileUpdated, cache.entries) == Scan(listing, old(cache.entries))
    {
      ghost var outcome := Scan(listing, cache.entries);
      fileUpdated := false;
      var i := 0;
      assert listing[i..] == listing;
      while i < |listing|
        invariant 0 <= i <= |listing|
        invariant !fileUpdated
        invariant Scan(listing[i..], cache.entries) == outcome
      {
        var entry := listing[i];
        ghost var before := cache.entries;
        ScanStep(listing[i..], before);
        assert listing[i..][0] == entry && listing[i..][1..] == listing[i + 1..];
        if entry.name in cache.entries {
          if cache.entries[entry.name] != entry.signature {
            fileUpdated := true;
            cache.entries := cache.entries[entry.name := entry.signature];
          }
        } else {
          cache.entries := cache.entries[entry.name := entry.signature];
        }
        if fileUpdated {
          assert Mismatch(entry, before);
          break;
        }
        assert cache.entries == before[entry.name := entry.signature];
        i := i + 1;
      }
    }
  }
}
