/** `Directory.collect`: the copying runs in a child process so that a stuck filesystem
    cannot hang the collector. The parent picks the log file the child should write to,
    starts the child, waits for it with a timeout and classifies how it ended. */
module Isolation {
  import opened Wrappers
  import opened Seqs
  import opened Text
  import opened DirectoryCollector

  // ---------------------------------------------------------------- the child's log file

  /** The logging handlers installed on the root logger. A `MemoryHandler` buffers records
      for the handler it flushes to, when it has one. */
  datatype Handler =
    | FileHandler(baseFilename: string)
    | MemoryHandler(target: Option<Handler>)
    | OtherHandler

  /** `_is_my_kind_of_logging_handler`: a memory handler that flushes to a file. */
  predicate IsMyKindOfHandler(h: Handler) {
    h.MemoryHandler? && h.target.Some? && h.target.value.FileHandler?
  }

  /** The log file of the parent, passed on to the child: defined only when exactly one
      root handler is a memory handler over a file, and then that file; no such handler,
      or more than one, gives `None`. */
  function ChildLogfilePath(handlers: seq<Handler>): (r: Option<string>)
    ensures r.Some? <==> exists i :: OnlyKept(handlers, IsMyKindOfHandler, i)
    ensures forall i :: OnlyKept(handlers, IsMyKindOfHandler, i) ==> r == Some(handlers[i].target.value.baseFilename)
    ensures (exists i, j :: 0 <= i < j < |handlers| && IsMyKindOfHandler(handlers[i]) && IsMyKindOfHandler(handlers[j])) ==>
      r == None
  {
    FilterUnique(handlers, IsMyKindOfHandler);
    var mine := Filter(handlers, IsMyKindOfHandler);
    if |mine| == 1 then Some(mine[0].target.value.baseFilename) else None
  }

  /** The file the child logs to (`setup_logging` in `multiprocessing_logger`): none
      without a parent log file or when the "child" is the parent itself, otherwise the
      parent's file with every `.debug.log` replaced by `.multiprocessing.debug.log`. */
  function ChildLogFilename(logfilePath: Option<string>, parentPid: int, ownPid: int): (r: Option<string>)
    ensures r.Some? <==> logfilePath.Some? && parentPid != ownPid
  {
    if logfilePath.None? || parentPid == ownPid then None
    else Some(ReplaceAll(logfilePath.value, ".debug.log", ".multiprocessing.debug.log"))
  }

  /** A parent log named `<base>.debug.log` gives the child `<base>.multiprocessing.debug.log`. */
  lemma ChildLogOfDebugLog(base: string, parentPid: int, ownPid: int)
    requires parentPid != ownPid
    requires NoMatchBefore(base + ".debug.log", ".debug.log", |base|)
    ensures ChildLogFilename(Some(base + ".debug.log"), parentPid, ownPid) == Some(base + ".multiprocessing.debug.log")
  {
    ReplaceAtEnd(base, ".debug.log", ".multiprocessing.debug.log");
  }

  /** A parent log whose name holds no `.debug.log` is shared with the child. */
  lemma ChildLogOfOtherName(logfilePath: string, parentPid: int, ownPid: int)
    requires parentPid != ownPid
    requires NoMatchBefore(logfilePath, ".debug.log", |logfilePath|)
    ensures ChildLogFilename(Some(logfilePath), parentPid, ownPid) == Some(logfilePath)
  {
    ReplaceAbsent(logfilePath, ".debug.log", ".multiprocessing.debug.log");
  }

  // ---------------------------------------------------------------- the child's exit code

  /** `multiprocessing_logger` around `collect_process`: returning normally ends the child
      with exit code 0, an exception is caught, logged and turned into `exit(1)`. */
  method ChildMain(job: Job, host: Host, fs: TargetFs, walk: seq<WalkEntry>)
    returns (effects: seq<Effect>, exitcode: int)
    ensures effects == WalkRun(job, host, fs, walk, fs.existingDirs).effects
    ensures exitcode == (if DestinationsAvailable(job, host, fs, walk, fs.existingDirs) then 0 else 1)
  {
    var completed;
    effects, completed := CollectProcess(job, host, fs, walk);
    CompletesIffDestinationsAvailable(job, host, fs, walk, fs.existingDirs);
    exitcode := if completed then 0 else 1;
  }

  // ---------------------------------------------------------------- the parent

  /** How the child process behaves as seen from the parent: how long it runs (`None`:
      it never ends by itself), whether `terminate` ends it, and its exit code when it
      ends by itself. Scheduling and signals are not modelled beyond this. */
  datatype ChildBehaviour = ChildBehaviour(runningTime: Option<int>, diesOnTerminate: bool, exitcode: int)

  /** `Process.terminate` sends SIGTERM; a process it ends has exit code -15. */
  const TerminatedExitcode: int := -15

  /** A `multiprocessing.Process` running the child. */
  class Subprocess {
    const behaviour: ChildBehaviour
    var started: bool
    var alive: bool
    var exitcode: Option<int>

    /** A process has an exit code exactly when it has started and is no longer alive. */
    predicate Valid()
      reads this
    {
      (alive ==> started) && (exitcode.Some? <==> started && !alive)
    }

    constructor(behaviour: ChildBehaviour)
      ensures Valid() && this.behaviour == behaviour && !started && !alive
    {
      this.behaviour := behaviour;
      started, alive, exitcode := false, false, None;
    }

    method Start()
      requires Valid() && !started
      modifies this
      ensures Valid() && started && alive && exitcode == None
    {
      started, alive := true, true;
    }

    /** `join(timeout)`: the process ends in that time when it runs no longer than that. */
    method Join(timeout: int)
      requires Valid() && started
      modifies this
      ensures Valid() && started
      ensures if old(alive) && behaviour.runningTime.Some? && behaviour.runningTime.value <= timeout
        then !alive && exitcode == Some(behaviour.exitcode)
        else alive == old(alive) && exitcode == old(exitcode)
    {
      if alive && behaviour.runningTime.Some? && behaviour.runningTime.value <= timeout {
        alive, exitcode := false, Some(behaviour.exitcode);
      }
    }

    method Terminate()
      requires Valid() && started
      modifies this
      ensures Valid() && started
      ensures if old(alive) && behaviour.diesOnTerminate
        then !alive && exitcode == Some(TerminatedExitcode)
        else alive == old(alive) && exitcode == old(exitcode)
    {
      if alive && behaviour.diesOnTerminate {
        alive, exitcode := false, Some(TerminatedExitcode);
      }
    }

    function IsAlive(): bool
      reads this
    {
      alive
    }
  }

  /** How `collect` ends: normally, with `TimeoutError`, or with `RuntimeError(exitcode)`. */
  datatype Outcome = Collected | TimedOut | ExitFailure(exitcode: int)

  /** What `collect` logs. The texts are kept as the program has them: a child still alive
      after `terminate` is reported as terminated, one that died as stuck. */
  datatype LogRecord =
    | ErrorDidNotFinish(timeoutInSeconds: int)
    | InfoTerminated
    | ErrorStuck
    | ErrorNonZeroExit

  /** The child ends by itself within the item's timeout. */
  predicate FinishesInTime(item: DirectoryItem, behaviour: ChildBehaviour) {
    behaviour.runningTime.Some? && behaviour.runningTime.value <= item.timeoutInSeconds
  }

  /** `Directory.collect` from the parent's side: start the child, wait for it, and tell a
      timeout from a failure from a success. A child still alive after the wait is always
      a timeout, whatever `terminate` then does. */
  method Collect(item: DirectoryItem, behaviour: ChildBehaviour) returns (outcome: Outcome, log: seq<LogRecord>)
    ensures outcome == TimedOut <==> !FinishesInTime(item, behaviour)
    ensures outcome.ExitFailure? <==> FinishesInTime(item, behaviour) && behaviour.exitcode != 0
    ensures outcome.ExitFailure? ==> outcome.exitcode == behaviour.exitcode
    ensures outcome == Collected <==> FinishesInTime(item, behaviour) && behaviour.exitcode == 0
    ensures outcome == TimedOut ==>
      log == [ErrorDidNotFinish(item.timeoutInSeconds), if behaviour.diesOnTerminate then ErrorStuck else InfoTerminated]
    ensures outcome.ExitFailure? ==> log == [ErrorNonZeroExit]
    ensures outcome == Collected ==> log == []
  {
    var subprocess := new Subprocess(behaviour);
    subprocess.Start();
    subprocess.Join(item.timeoutInSeconds);
    log := [];
    if subprocess.IsAlive() {
      log := log + [ErrorDidNotFinish(item.timeoutInSeconds)];
      subprocess.Terminate();
      if subprocess.IsAlive() {
        log := log + [InfoTerminated];
      } else {
        log := log + [ErrorStuck];
      }
      return TimedOut, log;
    } else if subprocess.exitcode.value != 0 {
      log := log + [ErrorNonZeroExit];
      return ExitFailure(subprocess.exitcode.value), log;
    }
    outcome := Collected;
  }
}
