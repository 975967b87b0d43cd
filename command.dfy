/** The `Command` collectable: find the executable, run it with a deadline, kill it when
    it overruns, and write its return code and outputs into three files under the target. */
module CommandCollector {
  import opened Wrappers
  import opened Seqs
  import opened Text
  import opened Paths

  // ---------------------------------------------------------------- find_executable

  /** The name searched for: the basename of what was asked for, with `.exe` appended on nt
      (even when it is already there). */
  function ExecutableName(plat: Platform, executable: string): (r: string)
    ensures forall i :: 0 <= i < |r| ==> r[i] != Sep(plat)
    ensures plat == Nt ==> EndsWith(r, ".exe")
  {
    var b := Basename(plat, executable);
    if plat == Nt then
      WithExe(b, Sep(plat));
      b + ".exe"
    else b
  }

  /** Appending `.exe` adds no separator. */
  lemma WithExe(b: string, sep: char)
    requires forall i :: 0 <= i < |b| ==> b[i] != sep
    requires sep !in ".exe"
    ensures forall i :: 0 <= i < |b + ".exe"| ==> (b + ".exe")[i] != sep
    ensures EndsWith(b + ".exe", ".exe")
  {
    var r := b + ".exe";
    assert r[|b|..] == ".exe";
    forall i | |b| <= i < |r| ensures r[i] != sep {
      assert r[i] == ".exe"[i - |b|];
    }
  }

  /** Without the `.exe` added on nt, the name searched for is the last component of what
      was asked for: a suffix of it that follows a separator or the drive. */
  lemma ExecutableNameShape(plat: Platform, executable: string)
    ensures var r := ExecutableName(plat, executable);
      var b := if plat == Nt then r[..|r| - 4] else r;
      && EndsWith(executable, b)
      && |b| <= |executable| - |Drive(plat, executable)|
      && (|b| < |executable| - |Drive(plat, executable)| ==> executable[|executable| - |b| - 1] == Sep(plat))
  {
    var b := Basename(plat, executable);
    if plat == Nt {
      assert (b + ".exe")[..|b + ".exe"| - 4] == b;
    }
  }

  /** The name searched for carries no drive unless the basename itself starts with one,
      which a name without a colon cannot. */
  lemma ExecutableNameIsRelative(plat: Platform, executable: string)
    requires ':' !in executable
    ensures Relative(plat, ExecutableName(plat, executable))
  {
    if plat == Nt {
      var b := Basename(plat, executable);
      NoColonAfterSuffix(executable, b);
      assert ExecutableName(plat, executable) == b + ".exe";
    }
  }

  /** A suffix of a name without a colon, with `.exe` appended, has no colon second. */
  lemma NoColonAfterSuffix(executable: string, b: string)
    requires ':' !in executable
    requires EndsWith(executable, b)
    ensures |b + ".exe"| >= 2 ==> (b + ".exe")[1] != ':'
  {
    if |b| >= 2 {
      assert (b + ".exe")[1] == b[1] == executable[|executable| - |b| + 1];
    } else {
      assert (b + ".exe")[1] == ".exe"[1 - |b|];
    }
  }

  /** `C:` joined with `Windows` and `System32` as the program writes it. */
  function System32AsWritten(): string {
    Join(Nt, Join(Nt, "C:", "Windows"), "System32")
  }

  /** The system directory the nt search falls back to: rooted at the drive's root. */
  function SystemDirectory(): string {
    Join(Nt, Join(Nt, "C:\\", "Windows"), "System32")
  }

  /** The fallback as written is relative to the current directory of drive C:, because
      joining onto a bare drive puts no separator after it. */
  lemma System32AsWrittenIsDriveRelative()
    ensures System32AsWritten() == "C:Windows\\System32"
    ensures Drive(Nt, System32AsWritten()) == "C:" && System32AsWritten()[2] != Sep(Nt)
  {
    System32AsWrittenSpelledOut();
  }

  lemma System32AsWrittenSpelledOut()
    ensures System32AsWritten() == "C:Windows\\System32"
  {
    JoinOntoBareDrive();
    JoinSystem32OntoDriveRelative();
  }

  lemma JoinOntoBareDrive()
    ensures Join(Nt, "C:", "Windows") == "C:Windows"
  {
    JoinRelative(Nt, "C:", "Windows");
  }

  lemma JoinSystem32OntoDriveRelative()
    ensures Join(Nt, "C:Windows", "System32") == "C:Windows\\System32"
  {
    JoinRelative(Nt, "C:Windows", "System32");
    assert "C:Windows" + "\\" + "System32" == "C:Windows\\System32";
  }

  /** The corrected fallback is the absolute `C:\Windows\System32`. */
  lemma SystemDirectoryIsAbsolute()
    ensures SystemDirectory() == "C:\\Windows\\System32"
    ensures Drive(Nt, SystemDirectory()) == "C:" && SystemDirectory()[2] == Sep(Nt)
  {
    SystemDirectorySpelledOut();
  }

  lemma SystemDirectorySpelledOut()
    ensures SystemDirectory() == "C:\\Windows\\System32"
  {
    JoinOntoDriveRoot();
    JoinSystem32OntoAbsolute();
  }

  lemma JoinOntoDriveRoot()
    ensures Join(Nt, "C:\\", "Windows") == "C:\\Windows"
  {
    JoinRelative(Nt, "C:\\", "Windows");
    assert "C:\\" + "Windows" == "C:\\Windows";
  }

  lemma JoinSystem32OntoAbsolute()
    ensures Join(Nt, "C:\\Windows", "System32") == "C:\\Windows\\System32"
  {
    JoinRelative(Nt, "C:\\Windows", "System32");
    assert "C:\\Windows" + "\\" + "System32" == "C:\\Windows\\System32";
  }

  /** The system directories searched last, as the program writes them. */
  function Fallbacks(plat: Platform): seq<string> {
    if plat == Nt then [System32AsWritten()]
    else [Join(Posix, "/", "sbin"), Join(Posix, Join(Posix, "/", "usr"), "bin"), Join(Posix, "/", "bin")]
  }

  lemma NtFallbacks()
    ensures Fallbacks(Nt) == ["C:Windows\\System32"]
  {
    System32AsWrittenIsDriveRelative();
  }

  lemma PosixFallbacks()
    ensures Fallbacks(Posix) == ["/sbin", "/usr/bin", "/bin"]
  {
    JoinRelative(Posix, "/", "sbin");
    assert "/" + "sbin" == "/sbin";
    JoinRelative(Posix, "/", "usr");
    assert "/" + "usr" == "/usr";
    JoinRelative(Posix, "/usr", "bin");
    assert "/usr" + "/" + "bin" == "/usr/bin";
    JoinRelative(Posix, "/", "bin");
    assert "/" + "bin" == "/bin";
  }

  /** The entries of `PATH`, none when it is not set; no entry holds the list separator. */
  function PathEntries(plat: Platform, env: map<string, string>): (r: seq<string>)
    ensures "PATH" in env <==> r != []
    ensures forall i :: 0 <= i < |r| ==> PathListSep(plat) !in r[i]
  {
    if "PATH" in env then
      SplitPiecesLackSeparator(env["PATH"], PathListSep(plat));
      Split(env["PATH"], PathListSep(plat))
    else []
  }

  /** Every part of `PATH` is searched: its entries put back together give `PATH` again. */
  lemma PathEntriesCoverPath(plat: Platform, env: map<string, string>)
    requires "PATH" in env
    ensures JoinWith(PathEntries(plat, env), PathListSep(plat)) == env["PATH"]
  {
    JoinSplit(env["PATH"], PathListSep(plat));
  }

  /** The directories searched, in order: the directory of the running program, the
      entries of `PATH`, then the system directories. */
  function Locations(plat: Platform, env: map<string, string>, argv0: string): seq<string> {
    [Dirname(plat, argv0)] + PathEntries(plat, env) + Fallbacks(plat)
  }

  /** `name` joined onto each of `locations`. */
  function JoinEach(plat: Platform, locations: seq<string>, name: string): (r: seq<string>)
    ensures |r| == |locations|
    ensures Relative(plat, name) ==>
      forall i :: 0 <= i < |r| ==> StartsWith(r[i], locations[i]) && EndsWith(r[i], name)
  {
    if Relative(plat, name) then
      JoinEachKeepsBoth(plat, locations, name);
      seq(|locations|, i requires 0 <= i < |locations| => Join(plat, locations[i], name))
    else
      seq(|locations|, i requires 0 <= i < |locations| => Join(plat, locations[i], name))
  }

  lemma JoinEachKeepsBoth(plat: Platform, locations: seq<string>, name: string)
    requires Relative(plat, name)
    ensures forall i :: 0 <= i < |locations| ==>
      StartsWith(Join(plat, locations[i], name), locations[i]) && EndsWith(Join(plat, locations[i], name), name)
  {
    forall i | 0 <= i < |locations|
      ensures StartsWith(Join(plat, locations[i], name), locations[i]) && EndsWith(Join(plat, locations[i], name), name)
    {
      JoinKeepsBoth(plat, locations[i], name);
    }
  }

  /** The executable's name in each searched directory: each candidate lies in its
      directory and ends with the name. */
  function Candidates(plat: Platform, env: map<string, string>, argv0: string, executable: string): (r: seq<string>)
    ensures |r| == |Locations(plat, env, argv0)|
    ensures Relative(plat, ExecutableName(plat, executable)) ==> forall i :: 0 <= i < |r| ==>
      StartsWith(r[i], Locations(plat, env, argv0)[i]) && EndsWith(r[i], ExecutableName(plat, executable))
  {
    JoinEach(plat, Locations(plat, env, argv0), ExecutableName(plat, executable))
  }

  /** `cands[k]` is the first candidate that exists. */
  predicate FirstPresent(cands: seq<string>, present: set<string>, k: int) {
    0 <= k < |cands| && cands[k] in present && forall j :: 0 <= j < k ==> cands[j] !in present
  }

  /** What the search answers: the first existing candidate, or the bare name when none exists. */
  predicate SearchResult(cands: seq<string>, present: set<string>, name: string, r: string) {
    (exists k :: 0 <= k < |cands| && FirstPresent(cands, present, k) && r == cands[k]) ||
    ((forall j :: 0 <= j < |cands| ==> cands[j] !in present) && r == name)
  }

  /** The search has one answer. */
  lemma SearchResultUnique(cands: seq<string>, present: set<string>, name: string, r1: string, r2: string)
    requires SearchResult(cands, present, name, r1) && SearchResult(cands, present, name, r2)
    ensures r1 == r2
  {
    if k1 :| FirstPresent(cands, present, k1) && r1 == cands[k1] {
      var k2 :| FirstPresent(cands, present, k2) && r2 == cands[k2];
      assert !(k1 < k2) && !(k2 < k1);
    } else {
      assert forall j :: 0 <= j < |cands| ==> cands[j] !in present;
    }
  }

  /** `path.exists` */
  function ExistsIn(present: set<string>): string -> bool {
    (c: string) => c in present
  }

  /** Taking the head of the existing candidates, or the name when there are none, is the
      search's answer. */
  lemma HeadOfExistingIsSearchResult(cands: seq<string>, present: set<string>, name: string)
    ensures var existing := Filter(cands, ExistsIn(present));
      SearchResult(cands, present, name, if existing == [] then name else existing[0])
  {
    FilterHead(cands, ExistsIn(present));
  }

  /** `find_executable`: build the list of directories, then take the first existing
      candidate; `path.exists` is membership in `present`. */
  method FindExecutable(plat: Platform, env: map<string, string>, argv0: string, executable: string, present: set<string>)
    returns (r: string)
    ensures SearchResult(Candidates(plat, env, argv0, executable), present, ExecutableName(plat, executable), r)
  {
    var name := Basename(plat, executable);
    if plat == Nt {
      name := name + ".exe";
    }
    assert name == ExecutableName(plat, executable);
    var possibleLocations := if "PATH" in env then Split(env["PATH"], PathListSep(plat)) else [];
    possibleLocations := [Dirname(plat, argv0)] + possibleLocations;
    if plat == Nt {
      possibleLocations := possibleLocations + [Join(plat, Join(plat, "C:", "Windows"), "System32")];
    } else {
      possibleLocations := possibleLocations +
        [Join(plat, "/", "sbin"), Join(plat, Join(plat, "/", "usr"), "bin"), Join(plat, "/", "bin")];
    }
    assert possibleLocations == Locations(plat, env, argv0);
    var possibleExecutables := seq(|possibleLocations|, i requires 0 <= i < |possibleLocations| =>
      Join(plat, possibleLocations[i], name));
    assert possibleExecutables == Candidates(plat, env, argv0, executable);
    var existingExecutables := Filter(possibleExecutables, ExistsIn(present));
    HeadOfExistingIsSearchResult(possibleExecutables, present, name);
    if existingExecutables == [] {
      return name;
    }
    r := existingExecutables[0];
  }

  // ---------------------------------------------------------------- running the command

  /** The configuration of one `Command` item. */
  datatype Command = Command(
    executable: string,
    commandlineArguments: seq<string>,
    waitTimeInSeconds: int,
    prefix: Option<string>)

  /** `kill()` with the default signal, and `kill(9)`. */
  datatype Signal = DefaultSignal | Sigkill

  /** How `wait` returns: the command ended, it overran the deadline (`CommandTimeout`),
      or it could not be run (`OSError`). */
  datatype WaitResult = Exited | WaitTimeout | WaitOsError

  /** How the command behaves: how `wait` returns and which signals end it. */
  datatype CommandBehaviour = CommandBehaviour(wait: WaitResult, diesOnDefaultSignal: bool, diesOnSigkill: bool)

  /** The handle `execute_async` returns. */
  class AsyncCommand {
    const argv: seq<string>
    const behaviour: CommandBehaviour
    var finished: bool
    var signals: seq<Signal>

    constructor(argv: seq<string>, behaviour: CommandBehaviour)
      ensures this.argv == argv && this.behaviour == behaviour && !finished && signals == []
    {
      this.argv, this.behaviour := argv, behaviour;
      finished, signals := false, [];
    }

    method Wait() returns (result: WaitResult)
      modifies this
      ensures result == behaviour.wait
      ensures finished == (old(finished) || result == Exited) && signals == old(signals)
    {
      result := behaviour.wait;
      if result == Exited {
        finished := true;
      }
    }

    method Kill(signal: Signal)
      modifies this
      ensures signals == old(signals) + [signal]
      ensures finished == (old(finished) ||
        (signal == DefaultSignal && behaviour.diesOnDefaultSignal) || (signal == Sigkill && behaviour.diesOnSigkill))
    {
      signals := signals + [signal];
      if (signal == DefaultSignal && behaviour.diesOnDefaultSignal) || (signal == Sigkill && behaviour.diesOnSigkill) {
        finished := true;
      }
    }

    function IsFinished(): bool
      reads this
    {
      finished
    }
  }

  /** What `_execute` logs. */
  datatype ExecLog =
    | InfoGoingToRun(argv: seq<string>)
    | ExceptionDidNotRun
    | ExceptionDidNotFinish(seconds: int)
    | InfoStuck
    | InfoKilled

  /** The program actually run: the executable as given when that path exists, otherwise
      the answer of the search. */
  predicate Resolved(plat: Platform, env: map<string, string>, argv0: string, executable: string, present: set<string>, r: string) {
    if executable in present then r == executable
    else SearchResult(Candidates(plat, env, argv0, executable), present, ExecutableName(plat, executable), r)
  }

  /** The first line of `_execute`: the executable as given when it exists, otherwise
      the search. */
  method ResolveExecutable(plat: Platform, env: map<string, string>, argv0: string, executable: string, present: set<string>)
    returns (r: string)
    ensures Resolved(plat, env, argv0, executable, present, r)
  {
    if executable in present {
      r := executable;
    } else {
      r := FindExecutable(plat, env, argv0, executable, present);
    }
  }

  /** The timeout branch of `_execute`: the default signal, then `SIGKILL` only when the
      command is still running; then report whether it is stuck or was killed. */
  method KillOverrunning(cmd: AsyncCommand) returns (report: ExecLog)
    requires !cmd.finished && cmd.signals == []
    modifies cmd
    ensures cmd.signals == (if cmd.behaviour.diesOnDefaultSignal then [DefaultSignal] else [DefaultSignal, Sigkill])
    ensures cmd.finished <==> cmd.behaviour.diesOnDefaultSignal || cmd.behaviour.diesOnSigkill
    ensures report == if cmd.finished then InfoKilled else InfoStuck
  {
    cmd.Kill(DefaultSignal);
    if !cmd.IsFinished() {
      cmd.Kill(Sigkill);
    }
    if !cmd.IsFinished() {
      report := InfoStuck;
    } else {
      report := InfoKilled;
    }
  }

  /** `_execute`: resolve the executable, start it, wait for it; on a timeout kill it as
      `KillOverrunning` does. Starting the command is not guarded. */
  method Execute(command: Command, plat: Platform, env: map<string, string>, argv0: string, present: set<string>,
                 behaviour: CommandBehaviour)
    returns (cmd: AsyncCommand, log: seq<ExecLog>)
    ensures |cmd.argv| == |command.commandlineArguments| + 1 && cmd.argv[1..] == command.commandlineArguments
    ensures Resolved(plat, env, argv0, command.executable, present, cmd.argv[0])
    ensures cmd.behaviour == behaviour
    ensures behaviour.wait != WaitTimeout ==> cmd.signals == []
    ensures behaviour.wait == WaitTimeout ==>
      cmd.signals == (if behaviour.diesOnDefaultSignal then [DefaultSignal] else [DefaultSignal, Sigkill])
    ensures behaviour.wait == WaitTimeout ==>
      (cmd.finished <==> behaviour.diesOnDefaultSignal || behaviour.diesOnSigkill)
    ensures behaviour.wait == Exited ==> cmd.finished && log == [InfoGoingToRun(cmd.argv)]
    ensures behaviour.wait == WaitOsError ==> log == [InfoGoingToRun(cmd.argv), ExceptionDidNotRun]
    ensures behaviour.wait == WaitTimeout ==>
      log == [InfoGoingToRun(cmd.argv), ExceptionDidNotFinish(command.waitTimeInSeconds),
              if cmd.finished then InfoKilled else InfoStuck]
  {
    var executable := ResolveExecutable(plat, env, argv0, command.executable, present);
    var argv := [executable] + command.commandlineArguments;
    assert argv[0] == executable && argv[1..] == command.commandlineArguments;
    cmd := new AsyncCommand(argv, behaviour);
    var result := cmd.Wait();
    if result == WaitOsError {
      log := [InfoGoingToRun(argv), ExceptionDidNotRun];
    } else if result == WaitTimeout {
      var report := KillOverrunning(cmd);
      log := [InfoGoingToRun(argv), ExceptionDidNotFinish(command.waitTimeInSeconds), report];
    } else {
      log := [InfoGoingToRun(argv)];
    }
  }

  // ---------------------------------------------------------------- _write_output

  /** What the finished command handle reports, each already turned into text by `str`. */
  datatype CommandResult = CommandResult(returncode: string, stdout: string, stderr: string)

  /** The outputs written, in this order. */
  const OutputTypes: seq<string> := ["returncode", "stdout", "stderr"]

  function OutputOf(result: CommandResult, outputType: string): string {
    if outputType == "returncode" then result.returncode
    else if outputType == "stdout" then result.stdout
    else result.stderr
  }

  /** The first part of the output file names: the configured prefix when it is set and not
      empty, otherwise the executable's basename up to its first `.`. */
  function OutputPrefix(plat: Platform, command: Command): (r: string)
    ensures command.prefix.Some? && command.prefix.value != [] ==> r == command.prefix.value
    ensures command.prefix.None? || command.prefix.value == [] ==>
      var b := Basename(plat, command.executable);
      && '.' !in r && StartsWith(b, r) && (|r| < |b| ==> b[|r|] == '.')
  {
    if command.prefix.Some? && command.prefix.value != [] then command.prefix.value
    else
      SplitHead(Basename(plat, command.executable), '.');
      Split(Basename(plat, command.executable), '.')[0]
  }

  /** `{prefix}.{timestamp}.{pid}.{output_type}.txt` */
  function OutputFilename(prefix: string, timestamp: string, pid: string, outputType: string): string {
    JoinWith([prefix, timestamp, pid, outputType, "txt"], '.')
  }

  lemma OutputFilenameSpelledOut(prefix: string, timestamp: string, pid: string, outputType: string)
    ensures OutputFilename(prefix, timestamp, pid, outputType) == prefix + "." + timestamp + "." + pid + "." + outputType + ".txt"
  {
    JoinCons(outputType, ["txt"], '.');
    assert [outputType] + ["txt"] == [outputType, "txt"];
    JoinCons(pid, [outputType, "txt"], '.');
    assert [pid] + [outputType, "txt"] == [pid, outputType, "txt"];
    JoinCons(timestamp, [pid, outputType, "txt"], '.');
    assert [timestamp] + [pid, outputType, "txt"] == [timestamp, pid, outputType, "txt"];
    JoinCons(prefix, [timestamp, pid, outputType, "txt"], '.');
    assert [prefix] + [timestamp, pid, outputType, "txt"] == [prefix, timestamp, pid, outputType, "txt"];
  }

  /** An output name starts with the prefix and a dot, ends with the output type and
      `.txt`, and has seven characters besides its four parts. */
  lemma OutputFilenameShape(prefix: string, timestamp: string, pid: string, outputType: string)
    ensures var r := OutputFilename(prefix, timestamp, pid, outputType);
      && StartsWith(r, prefix + ".") && EndsWith(r, "." + outputType + ".txt")
      && |r| == |prefix| + |timestamp| + |pid| + |outputType| + 7
  {
    var r := OutputFilename(prefix, timestamp, pid, outputType);
    OutputFilenameSpelledOut(prefix, timestamp, pid, outputType);
    assert r == (prefix + ".") + (timestamp + "." + pid) + ("." + outputType + ".txt");
  }

  /** Two output names with the same prefix, timestamp and pid are equal exactly when
      their types are: the names differ in the type alone. */
  lemma OutputFilenameInjective(prefix: string, timestamp: string, pid: string, t1: string, t2: string)
    ensures OutputFilename(prefix, timestamp, pid, t1) == OutputFilename(prefix, timestamp, pid, t2) <==> t1 == t2
  {
    var head := prefix + "." + timestamp + "." + pid + ".";
    var n1, n2 := OutputFilename(prefix, timestamp, pid, t1), OutputFilename(prefix, timestamp, pid, t2);
    OutputFilenameSpelledOut(prefix, timestamp, pid, t1);
    OutputFilenameSpelledOut(prefix, timestamp, pid, t2);
    assert n1 == head + t1 + ".txt" && n2 == head + t2 + ".txt";
    if n1 == n2 {
      assert |t1| == |t2|;
      assert t1 == n1[|head|..|head| + |t1|];
      assert t2 == n2[|head|..|head| + |t2|];
    }
  }

  /** The file an output is written to. */
  function OutputPath(plat: Platform, targetdir: string, prefix: string, timestamp: string, pid: string, outputType: string): string {
    Join(plat, targetdir, OutputFilename(prefix, timestamp, pid, outputType))
  }

  /** The three output files are three different files. */
  lemma OutputPathsDistinct(plat: Platform, targetdir: string, prefix: string, timestamp: string, pid: string, t1: string, t2: string)
    requires t1 != t2
    ensures OutputPath(plat, targetdir, prefix, timestamp, pid, t1) != OutputPath(plat, targetdir, prefix, timestamp, pid, t2)
  {
    var n1, n2 := OutputFilename(prefix, timestamp, pid, t1), OutputFilename(prefix, timestamp, pid, t2);
    OutputFilenameInjective(prefix, timestamp, pid, t1, t2);
    OutputFilenameSpelledOut(prefix, timestamp, pid, t1);
    OutputFilenameSpelledOut(prefix, timestamp, pid, t2);
    var head := prefix + "." + timestamp + "." + pid + ".";
    assert n1 == head + (t1 + ".txt") && n2 == head + (t2 + ".txt");
    assert |head| >= 3 && n1[..3] == head[..3] == n2[..3];
    if Join(plat, targetdir, n1) == Join(plat, targetdir, n2) {
      JoinInjective(plat, targetdir, n1, n2);
    }
  }

  /** `_write_output`: one file per output type, in order, each holding that output;
      `timestamp` and `pid` are given as the text they are formatted to. Writes are
      returned as (path, content) pairs. */
  method WriteOutput(command: Command, plat: Platform, result: CommandResult, targetdir: string,
                     timestamp: string, pid: string)
    returns (written: seq<(string, string)>)
    ensures |written| == |OutputTypes|
    ensures forall k :: 0 <= k < |written| ==>
      written[k] == (OutputPath(plat, targetdir, OutputPrefix(plat, command), timestamp, pid, OutputTypes[k]),
                     OutputOf(result, OutputTypes[k]))
  {
    var executableName := Split(Basename(plat, command.executable), '.')[0];
    var prefix := if command.prefix.Some? && command.prefix.value != [] then command.prefix.value else executableName;
    assert prefix == OutputPrefix(plat, command);
    written := WriteOutputs(plat, result, targetdir, prefix, timestamp, pid);
  }

  /** The loop of `_write_output`, once the prefix is known. */
  method WriteOutputs(plat: Platform, result: CommandResult, targetdir: string, prefix: string,
                      timestamp: string, pid: string)
    returns (written: seq<(string, string)>)
    ensures |written| == |OutputTypes|
    ensures forall k :: 0 <= k < |written| ==>
      written[k] == (OutputPath(plat, targetdir, prefix, timestamp, pid, OutputTypes[k]), OutputOf(result, OutputTypes[k]))
  {
    written := [];
    for k := 0 to |OutputTypes|
      invariant |written| == k
      invariant forall i :: 0 <= i < k ==>
        written[i] == (OutputPath(plat, targetdir, prefix, timestamp, pid, OutputTypes[i]), OutputOf(result, OutputTypes[i]))
    {
      var outputType := OutputTypes[k];
      var outputFilename := OutputFilename(prefix, timestamp, pid, outputType);
      written := written + [(Join(plat, targetdir, outputFilename), OutputOf(result, outputType))];
    }
  }

  /** Different writes of `_write_output` go to different files, so none overwrites another. */
  lemma WrittenFilesDistinct(plat: Platform, targetdir: string, prefix: string, timestamp: string, pid: string,
                             i: int, j: int)
    requires 0 <= i < j < |OutputTypes|
    ensures OutputPath(plat, targetdir, prefix, timestamp, pid, OutputTypes[i]) !=
            OutputPath(plat, targetdir, prefix, timestamp, pid, OutputTypes[j])
  {
    OutputTypesDistinct(i, j);
    OutputPathsDistinct(plat, targetdir, prefix, timestamp, pid, OutputTypes[i], OutputTypes[j]);
  }

  /** The three output types differ in their fourth character. */
  lemma OutputTypesDistinct(i: int, j: int)
    requires 0 <= i < j < |OutputTypes|
    ensures OutputTypes[i] != OutputTypes[j]
  {
    assert OutputTypes[0][3] == 'u' && OutputTypes[1][3] == 'o' && OutputTypes[2][3] == 'e';
  }

  /** What `_write_output` produces: the return code, the standard output and the standard
      error, each in a file of its own. */
  lemma WrittenOutputs(plat: Platform, result: CommandResult, targetdir: string, prefix: string,
                       timestamp: string, pid: string, written: seq<(string, string)>)
    requires |written| == |OutputTypes|
    requires forall k :: 0 <= k < |written| ==>
      written[k] == (OutputPath(plat, targetdir, prefix, timestamp, pid, OutputTypes[k]), OutputOf(result, OutputTypes[k]))
    ensures |written| == 3 && written[0].1 == result.returncode && written[1].1 == result.stdout &&
      written[2].1 == result.stderr
    ensures forall i, j :: 0 <= i < j < |written| ==> written[i].0 != written[j].0
  {
    var p0, p1, p2 := written[0].0, written[1].0, written[2].0;
    assert p0 == OutputPath(plat, targetdir, prefix, timestamp, pid, OutputTypes[0]);
    assert p1 == OutputPath(plat, targetdir, prefix, timestamp, pid, OutputTypes[1]);
    assert p2 == OutputPath(plat, targetdir, prefix, timestamp, pid, OutputTypes[2]);
    WrittenFilesDistinct(plat, targetdir, prefix, timestamp, pid, 0, 1);
    WrittenFilesDistinct(plat, targetdir, prefix, timestamp, pid, 0, 2);
    WrittenFilesDistinct(plat, targetdir, prefix, timestamp, pid, 1, 2);
    assert p0 != p1 && p0 != p2 && p1 != p2;
  }

  /** `Command.collect`: run the command, then write its outputs. */
  method Collect(command: Command, plat: Platform, env: map<string, string>, argv0: string, present: set<string>,
                 behaviour: CommandBehaviour, result: CommandResult, targetdir: string, timestamp: string, pid: string)
    returns (cmd: AsyncCommand, log: seq<ExecLog>, written: seq<(string, string)>)
    ensures |cmd.argv| >= 1 && Resolved(plat, env, argv0, command.executable, present, cmd.argv[0])
    ensures |written| == 3 && written[0].1 == result.returncode && written[1].1 == result.stdout &&
      written[2].1 == result.stderr
    ensures forall i, j :: 0 <= i < j < |written| ==> written[i].0 != written[j].0
  {
    cmd, log := Execute(command, plat, env, argv0, present, behaviour);
    written := WriteOutput(command, plat, result, targetdir, timestamp, pid);
    WrittenOutputs(plat, result, targetdir, OutputPrefix(plat, command), timestamp, pid, written);
  }
}
