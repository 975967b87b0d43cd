# Collectables of infi.logs_collector, modelled in Dafny

The logs collector gathers diagnostic material into a target directory. Its collectables are
`Directory`, `File` and `Command`. This project models their decision rules:

- how a source directory is mirrored under the target (`strip_os_prefix_from_path` and
  `os.path.join`);
- which files a `Directory` copies: the name pattern, the time window, and the recursion flag;
- how the walk in the child process makes destination directories and copies files, best effort;
- how the parent picks the child's log file, waits for the child, and classifies how it ended;
- how `find_executable` searches for a program;
- how `Command` escalates from `kill()` to `kill(9)` on a timeout, and how it names its output files.

Modules:

- `Wrappers`: `Option`.
- `Seqs`: list comprehensions with a condition, and order-preserving sub-lists.
- `Text`: Python's `str.replace`, `lstrip`/`rstrip`, `split` and `join`, all on one character or one pattern.
- `Paths`: `os.path.join`, `basename` and `dirname` for posix and nt, and the path rewriting.
- `DirectoryCollector`: file selection, the walk (`collect_process`), and `File`.
- `Isolation`: `Directory.collect` from the parent's side, and the child's log file and exit code.
- `CommandCollector`: `find_executable` and `Command`.

The host is an input, not a live system:

- The filesystem is a map from path to what `stat` reports.
- `os.walk` is a sequence of entries.
- `re.match` is an opaque matcher.
- Failing `makedirs` and `shutil.copy` calls are given as sets.
- A child process or a command is described by how it behaves: how long it runs, and which
  signal ends it.
- Pids and timestamps are opaque strings.

The walk is specified by `WalkRun`, a function over the walk. The loop in `CollectProcess` is
proved to compute it, and the lemmas about the walk are stated on `WalkRun`.

Where the code and the prose description of the system differ, the model follows the code:

- The command output timestamp is whatever `get_timestamp()` returns: minutes without seconds.
  The model takes it as an opaque string.
- A failure to spawn in `execute_async` is not caught: only `wait` is inside the `try`.
- The log messages after `terminate` are inverted. A child still alive is reported as
  "terminated", and a child that died is reported as "stuck". `Isolation.Collect` keeps this.

## Model

| member | source | states |
|---|---|---|
| Paths.Join | src/infi/logs_collector/collectables/__init__.py:72 | `os.path.join` of two parts as nt and posix do it: a part starting at the root keeps its own drive (or else the directory's) and drops the directory's path; on nt a part on another drive (letters compared without case) replaces the directory; otherwise the drive, the directory's path, one separator unless that path is empty or already ends with one, then the part |
| Paths.JoinRelative | src/infi/logs_collector/collectables/__init__.py:72 | joining a relative part appends it to the directory, with one separator between them unless the directory is empty, ends with a separator or is a bare nt drive |
| Paths.JoinOtherDrive | src/infi/logs_collector/collectables/__init__.py:112-113 | on nt, a part carrying a drive other than the directory's is the whole result: the directory is dropped |
| Paths.JoinKeepsBoth | src/infi/logs_collector/collectables/__init__.py:113 | joining a relative part (no drive, not starting at the root) keeps the directory as a prefix and the part as a suffix |
| Paths.JoinRelativeInjective | src/infi/logs_collector/collectables/__init__.py:92 | two relative names joined onto one directory give one path only when the names are equal |
| Paths.JoinInjective | src/infi/logs_collector/collectables/__init__.py:249 | two names of three characters or more that agree on their first three (so on their drive and on whether they start at the root) give one path when joined onto one directory only when the names are equal, whether or not they are relative |
| Paths.Drive | src/infi/logs_collector/collectables/__init__.py:162 | the drive that `os.path.join`, `basename` and `dirname` split off a path first; its shape is stated by `DriveShape` |
| Paths.DriveShape | src/infi/logs_collector/collectables/__init__.py:162 | the drive of an nt path is its letter and colon when its second character is a colon, and the path starts with it; posix paths, and nt paths without that colon, have no drive |
| Paths.AfterLastSep | src/infi/logs_collector/collectables/__init__.py:162 | the index after the last separator: the character before it is a separator, and none follows it |
| Paths.Basename | src/infi/logs_collector/collectables/__init__.py:162 | `os.path.basename` holds no separator, ends the path, is no longer than what follows the drive, and is preceded by a separator whenever it is shorter than that |
| Paths.Dirname | src/infi/logs_collector/collectables/__init__.py:162 | `os.path.dirname` is a prefix of the path that starts with the path's drive and leaves room for the basename after it; between the drive and the basename lies the head (empty or ending with the last separator): a head of only separators is kept whole, and any other head is cut just before the separators that close it, so the dirname does not end with a separator (`/a/b` gives `/a`, `//b` gives `//`) |
| Paths.DirPart | src/infi/logs_collector/collectables/__init__.py:162 | the drive followed by the head less its closing separators, unless the head holds nothing else |
| Paths.StripsUnique | src/infi/logs_collector/collectables/__init__.py:162 | at most one string is the drive and the head less the head's closing separators |
| Paths.DirnameOfNested | src/infi/logs_collector/collectables/__init__.py:162 | `os.path.dirname("/a/b")` is `/a`, without the separator before the basename |
| Paths.DirnameDetermined | src/infi/logs_collector/collectables/__init__.py:162 | any string that meets the strip clause of the contract of `Dirname` is the dirname |
| Paths.DirnameBasenameJoin | src/infi/logs_collector/collectables/__init__.py:162 | joining `dirname(p)` and `basename(p)` gives `p` back when the last separator is single |
| Paths.SystemDrive | src/infi/logs_collector/collectables/__init__.py:18 | the value of `SYSTEMDRIVE`, `C:` when it is not set |
| Paths.StripOsPrefix | src/infi/logs_collector/collectables/__init__.py:16-18 | the rewritten path never starts with a separator |
| Paths.StripOsPrefixDeletesOnly | src/infi/logs_collector/collectables/__init__.py:16-18 | the rewritten path is an order-preserving sub-list of the original: characters are only deleted |
| Paths.StripOsPrefixOfDrivePath | src/infi/logs_collector/collectables/__init__.py:16-18 | a path that starts with `SYSTEMDRIVE` (default `C:`) and holds it nowhere else loses the drive and the separators after it |
| Paths.StripOsPrefixOfPlainPath | src/infi/logs_collector/collectables/__init__.py:16-18 | a path without the drive only loses its leading separators (`/var/log` becomes `var/log`) |
| Paths.MirroredUnderTarget | src/infi/logs_collector/collectables/__init__.py:112-113 | the mirror of a source directory lies under the target directory whenever the rewritten path carries no drive (always on posix, and on nt for a directory on the system drive) |
| Paths.OtherDriveMirrorsOntoItself | src/infi/logs_collector/collectables/__init__.py:112-113 | on nt with the default system drive, `D:\logs` keeps its drive through the rewriting, and joining it onto the target `C:\t` gives `D:\logs` itself |
| Paths.Relativize | src/infi/logs_collector/collectables/__init__.py:16-18 | the rewriting as evidently intended also drops a drive left in front, so what remains is always relative |
| Paths.RelativizedMirrorUnderTarget | src/infi/logs_collector/collectables/__init__.py:112-113 | with that rewriting, every source directory is mirrored under the target directory |
| Text.ReplaceSkipsCleanPrefix | src/infi/logs_collector/collectables/__init__.py:18 | `str.replace` copies unchanged a prefix in which the pattern does not start |
| Text.ReplaceAll | src/infi/logs_collector/collectables/__init__.py:18 | `str.replace`: a left-to-right scan that replaces non-overlapping occurrences, and puts the replacement around every character for an empty pattern |
| Text.ReplaceAllLength | src/infi/logs_collector/collectables/__init__.py:32 | an empty pattern inserts the replacement `len(s) + 1` times; a replacement no longer than the pattern never lengthens the text, and one of equal length keeps its length |
| Text.ReplaceAbsent | src/infi/logs_collector/collectables/__init__.py:18 | `str.replace` of a pattern that does not occur changes nothing |
| Text.ReplaceLeading | src/infi/logs_collector/collectables/__init__.py:18 | `str.replace` replaces a leading occurrence and goes on after it |
| Text.ReplaceAtEnd | src/infi/logs_collector/collectables/__init__.py:32 | a single occurrence of the pattern at the end is replaced, and the rest is kept |
| Text.RemovalIsSubsequence | src/infi/logs_collector/collectables/__init__.py:18 | replacing a pattern by nothing leaves a sub-list of the input |
| Text.LStrip | src/infi/logs_collector/collectables/__init__.py:18 | `lstrip(c)` leaves a suffix of the input that does not start with `c`, and removes only `c` |
| Text.RStrip | src/infi/logs_collector/collectables/__init__.py:162 | `rstrip(c)` leaves a prefix of the input that does not end with `c`, and removes only `c` |
| Text.JoinSplit | src/infi/logs_collector/collectables/__init__.py:173 | `c.join(s.split(c)) == s` |
| Text.Split | src/infi/logs_collector/collectables/__init__.py:173 | `str.split(c)`: the pieces between the occurrences of `c`, at least one |
| Text.SplitPiecesLackSeparator | src/infi/logs_collector/collectables/__init__.py:173 | no piece of `s.split(c)` contains `c` |
| Text.JoinWith | src/infi/logs_collector/collectables/__init__.py:173 | `c.join(pieces)`: the pieces with one `c` between each two |
| Text.JoinWithEnds | src/infi/logs_collector/collectables/__init__.py:243-248 | a join starts with its first piece and ends with its last one |
| Text.SplitHead | src/infi/logs_collector/collectables/__init__.py:240 | `s.split(c)[0]` is the longest prefix of `s` without `c`, and `c` follows it when it is shorter than `s` |
| Seqs.FilterIsSubsequence | src/infi/logs_collector/collectables/__init__.py:85 | a list comprehension with a condition returns an order-preserving sub-list of its input |
| Seqs.FilterMembership | src/infi/logs_collector/collectables/__init__.py:101 | an element survives the comprehension exactly when it is in the input and satisfies the condition |
| Seqs.FilterHead | src/infi/logs_collector/collectables/__init__.py:181-186 | the first survivor is the first input element that satisfies the condition; there is none exactly when no element does |
| Seqs.FilterTwice | src/infi/logs_collector/collectables/__init__.py:116-117 | filtering by one condition and then by another keeps exactly what one filter by both conditions keeps |
| Seqs.FilterUnique | src/infi/logs_collector/collectables/__init__.py:136-139 | exactly one survivor exactly when exactly one element satisfies the condition, and it is that element |
| DirectoryCollector.ModifiedRecently | src/infi/logs_collector/collectables/__init__.py:68-77 | a file is recent when it is a regular file, not a symbolic link, and was modified strictly after `timestamp - delta` |
| DirectoryCollector.RecentWindow | src/infi/logs_collector/collectables/__init__.py:68-77 | a file modified exactly `delta` before the timestamp is not recent, and widening the window keeps a recent file recent |
| DirectoryCollector.FilterOldFiles | src/infi/logs_collector/collectables/__init__.py:68-85 | keeps, in order, exactly the names that are regular files, not symbolic links, with mtime strictly after `timestamp - delta` |
| DirectoryCollector.FilterMatching | src/infi/logs_collector/collectables/__init__.py:99-101 | keeps, in order, exactly the names the pattern matches |
| DirectoryCollector.Selected | src/infi/logs_collector/collectables/__init__.py:116-117 | the names copied are the matching ones, and also recent ones only when `timeframe_only` is set |
| DirectoryCollector.SelectedIsOneFilter | src/infi/logs_collector/collectables/__init__.py:116-117 | the two filters in turn select exactly what one filter selects by both conditions: the pattern matches, and the file is recent when `timeframe_only` is set |
| DirectoryCollector.JobOf | src/infi/logs_collector/collectables/__init__.py:132-134 | the keyword arguments the parent passes to `collect_process`: the item's directory, pattern, recursion and time-window flags, with the target directory, timestamp and delta of the call |
| DirectoryCollector.Visited | src/infi/logs_collector/collectables/__init__.py:110-111 | an entry is handled exactly when it is the walked directory itself or the walk is recursive |
| DirectoryCollector.Destination | src/infi/logs_collector/collectables/__init__.py:112-113 | a directory is mirrored at the target directory joined with its rewritten path |
| DirectoryCollector.WalkRun | src/infi/logs_collector/collectables/__init__.py:103-120 | the specification of the walk: a skipped entry does nothing; a visited entry makes its missing destination, copies its selected files and the walk goes on with that destination existing; a failing `makedirs` ends the walk, not completed; an exhausted walk is completed |
| DirectoryCollector.CollectLogfile | src/infi/logs_collector/collectables/__init__.py:87-97 | one copy from `src_directory/filename` to `dst_directory/filename`; it fails exactly for a failing source, and the failure is not raised |
| DirectoryCollector.CollectLogfiles | src/infi/logs_collector/collectables/__init__.py:119 | every selected name is attempted in order, whether earlier copies failed or not |
| DirectoryCollector.CollectEntry | src/infi/logs_collector/collectables/__init__.py:112-119 | the loop body gives the entry's specified effects; it stops exactly when a missing destination cannot be made |
| DirectoryCollector.CollectProcess | src/infi/logs_collector/collectables/__init__.py:103-120 | the loop over the walk gives exactly the effects and the outcome that `WalkRun` specifies |
| DirectoryCollector.CopyEffectsAttempts | src/infi/logs_collector/collectables/__init__.py:119 | the copies of one directory are one per selected name, in order, and make no directory |
| DirectoryCollector.EntryEffectsFollowPlan | src/infi/logs_collector/collectables/__init__.py:112-119 | a visited entry attempts exactly its planned copies, and makes at most its own destination, only when it is missing |
| DirectoryCollector.AttemptsFollowPlan | src/infi/logs_collector/collectables/__init__.py:109-119 | the walk attempts a prefix of the planned copies in the planned order, and all of them when it completes |
| DirectoryCollector.CopyFailuresDoNotMatter | src/infi/logs_collector/collectables/__init__.py:94-97 | failing copies change neither what is attempted nor whether the walk completes |
| DirectoryCollector.CompletesIffDestinationsAvailable | src/infi/logs_collector/collectables/__init__.py:114-115 | the walk completes exactly when every destination it needs exists or can be made |
| DirectoryCollector.MadeDirsOnlyWhenMissing | src/infi/logs_collector/collectables/__init__.py:114-115 | `makedirs` is called only for destinations missing before the walk, and never twice for one directory |
| DirectoryCollector.MadeDirsUnderTarget | src/infi/logs_collector/collectables/__init__.py:113-115 | every directory the walk makes lies under the target directory, as long as no rewritten source directory carries a drive |
| DirectoryCollector.CompletedWalkMirrorsEveryVisited | src/infi/logs_collector/collectables/__init__.py:113-115 | after a completed walk, every visited directory's mirror existed before or was made |
| DirectoryCollector.NonRecursiveVisitsOnlyTop | src/infi/logs_collector/collectables/__init__.py:110-111 | without `recursive`, the walk does exactly what it does on the entries for `dirname` alone |
| DirectoryCollector.PlannedUnderTarget | src/infi/logs_collector/collectables/__init__.py:113-119 | every planned copy goes to a path under the target directory, as long as the file names are plain and no rewritten source directory carries a drive |
| DirectoryCollector.CopiesStayUnderTarget | src/infi/logs_collector/collectables/__init__.py:92-93 | every attempted copy writes under the target directory, under the same two conditions |
| DirectoryCollector.FileItem | src/infi/logs_collector/collectables/__init__.py:158-163 | `File(p)` is a non-recursive `Directory` without the time window, with the default timeout of 60, whose pattern is a suffix of `p` |
| DirectoryCollector.FileItemRejoins | src/infi/logs_collector/collectables/__init__.py:162 | the directory and the pattern of `File(p)` join back to `p` |
| DirectoryCollector.FileCollectsItself | src/infi/logs_collector/collectables/__init__.py:158-163 | a `File` whose basename, read as a pattern, matches itself, and whose path is `Rejoinable` (single last separator, driveless basename), plans a copy of the file into the mirror of its directory when the walk lists it in its first entry; when the walk completes, that copy is attempted |
| Isolation.IsMyKindOfHandler | src/infi/logs_collector/collectables/__init__.py:122-125 | a handler is of the kind whose file is passed on exactly when it is a memory handler whose target is a file handler |
| Isolation.ChildLogfilePath | src/infi/logs_collector/collectables/__init__.py:135-139 | the log file is defined exactly when one root handler is a memory handler over a file, and is then that file; two such handlers give none |
| Isolation.ChildLogFilename | src/infi/logs_collector/collectables/__init__.py:27-32 | the child gets its own log file exactly when there is a parent log file and it runs in another process |
| Isolation.ChildLogOfDebugLog | src/infi/logs_collector/collectables/__init__.py:32 | `<base>.debug.log` becomes `<base>.multiprocessing.debug.log` |
| Isolation.ChildLogOfOtherName | src/infi/logs_collector/collectables/__init__.py:32 | a log name without `.debug.log` is kept |
| Isolation.ChildMain | src/infi/logs_collector/collectables/__init__.py:38-44 | the child runs the walk and exits with 0 exactly when every destination is available, otherwise with 1 |
| Isolation.Subprocess.Start | src/infi/logs_collector/collectables/__init__.py:142 | `start` makes a process that was not started a live one, without an exit code |
| Isolation.Subprocess.Join | src/infi/logs_collector/collectables/__init__.py:143 | `join(timeout)` ends a live child that runs no longer than the timeout, with its exit code; otherwise nothing changes |
| Isolation.Subprocess.Terminate | src/infi/logs_collector/collectables/__init__.py:147 | `terminate` ends a live child that dies on SIGTERM, with exit code -15; otherwise nothing changes |
| Isolation.Collect | src/infi/logs_collector/collectables/__init__.py:140-155 | a timeout exactly when the child does not end in time, whatever `terminate` does; `RuntimeError(exitcode)` exactly when it ends with a non-zero code; success exactly when it ends with 0; and what is logged in each case |
| CommandCollector.ExecutableName | src/infi/logs_collector/collectables/__init__.py:169-172 | the name searched for holds no separator and ends with `.exe` on nt |
| CommandCollector.ExecutableNameShape | src/infi/logs_collector/collectables/__init__.py:169-172 | without the `.exe` added on nt, the name searched for is a suffix of the given name, no longer than what follows its drive, and preceded by a separator whenever it is shorter than that |
| CommandCollector.ExecutableNameIsRelative | src/infi/logs_collector/collectables/__init__.py:174-180 | a name without a colon gives a relative name to search for, so every candidate lies in its directory |
| CommandCollector.System32AsWrittenIsDriveRelative | src/infi/logs_collector/collectables/__init__.py:176 | the nt fallback as written is `C:Windows\System32`: its drive is `C:` and no separator follows it, so it is relative to the current directory of drive C: |
| CommandCollector.SystemDirectoryIsAbsolute | src/infi/logs_collector/collectables/__init__.py:176 | the corrected nt fallback is `C:\Windows\System32`, with a separator after its drive |
| CommandCollector.Fallbacks | src/infi/logs_collector/collectables/__init__.py:175-179 | the system directories searched last, as the program writes them |
| CommandCollector.NtFallbacks | src/infi/logs_collector/collectables/__init__.py:175-177 | on nt the only fallback searched is `C:Windows\System32`, as written |
| CommandCollector.PosixFallbacks | src/infi/logs_collector/collectables/__init__.py:178-179 | the posix fallbacks are `/sbin`, `/usr/bin`, `/bin`, in that order |
| CommandCollector.PathEntries | src/infi/logs_collector/collectables/__init__.py:173 | `PATH` split at the list separator: entries exactly when `PATH` is set, and none of them holds the separator |
| CommandCollector.PathEntriesCoverPath | src/infi/logs_collector/collectables/__init__.py:173 | the `PATH` entries searched put back together give `PATH` |
| CommandCollector.Locations | src/infi/logs_collector/collectables/__init__.py:173-179 | the directories searched, in order: the directory of `argv[0]`, then the `PATH` entries, then the fallbacks |
| CommandCollector.JoinEach | src/infi/logs_collector/collectables/__init__.py:180 | one path per directory, in order; when the name is relative, each lies in its directory and ends with the name |
| CommandCollector.Candidates | src/infi/logs_collector/collectables/__init__.py:174-180 | one candidate per searched directory; when the name searched for is relative, each candidate lies in its directory and ends with that name |
| CommandCollector.SearchResultUnique | src/infi/logs_collector/collectables/__init__.py:181-186 | the search has exactly one answer |
| CommandCollector.HeadOfExistingIsSearchResult | src/infi/logs_collector/collectables/__init__.py:181-186 | the head of the existing candidates, or the bare name when there are none, is the first existing candidate |
| CommandCollector.FindExecutable | src/infi/logs_collector/collectables/__init__.py:165-186 | returns the first candidate that exists, in the order argv[0]'s directory, `PATH`, the fallbacks as written; or the bare name when none exists |
| CommandCollector.AsyncCommand.Wait | src/infi/logs_collector/collectables/__init__.py:223 | `wait` returns as the command behaves, and finishes it when it exits |
| CommandCollector.AsyncCommand.Kill | src/infi/logs_collector/collectables/__init__.py:228-230 | a signal is recorded, and it finishes the command when the command dies on that signal |
| CommandCollector.ResolveExecutable | src/infi/logs_collector/collectables/__init__.py:219 | the executable as given when that path exists, otherwise the search result |
| CommandCollector.KillOverrunning | src/infi/logs_collector/collectables/__init__.py:226-234 | the default signal, then SIGKILL only when the command has not finished; reports "killed" exactly when one of them ended it, otherwise "stuck" |
| CommandCollector.Execute | src/infi/logs_collector/collectables/__init__.py:216-235 | runs the resolved executable with the arguments; logs and signals per wait outcome: none after a normal exit, "did not run" on `OSError`, kill escalation on a timeout |
| CommandCollector.OutputPrefix | src/infi/logs_collector/collectables/__init__.py:240-244 | the prefix is the configured one when it is non-empty; otherwise the basename's text before its first `.` |
| CommandCollector.OutputFilename | src/infi/logs_collector/collectables/__init__.py:243-248 | `{prefix}.{timestamp}.{pid}.{output_type}.txt`, the five parts joined with dots |
| CommandCollector.OutputFilenameShape | src/infi/logs_collector/collectables/__init__.py:243-248 | an output name starts with the prefix and a dot, ends with a dot, the output type and `.txt`, and has seven characters besides its four parts |
| CommandCollector.OutputFilenameInjective | src/infi/logs_collector/collectables/__init__.py:243-248 | two output names with the same prefix, timestamp and pid are equal exactly when their types are |
| CommandCollector.OutputPath | src/infi/logs_collector/collectables/__init__.py:249 | an output is written to its file name joined onto the target directory |
| CommandCollector.OutputPathsDistinct | src/infi/logs_collector/collectables/__init__.py:249 | outputs of different types go to different files |
| CommandCollector.WriteOutput | src/infi/logs_collector/collectables/__init__.py:237-250 | three writes, in the order `returncode`, `stdout`, `stderr`, each to `{prefix}.{timestamp}.{pid}.{type}.txt` in the target directory and holding that output |
| CommandCollector.WriteOutputs | src/infi/logs_collector/collectables/__init__.py:246-250 | the loop of `_write_output` once the prefix is known: one write per output type, in order, to its path and holding its output |
| CommandCollector.WrittenFilesDistinct | src/infi/logs_collector/collectables/__init__.py:246-249 | no write of `_write_output` overwrites another |
| CommandCollector.WrittenOutputs | src/infi/logs_collector/collectables/__init__.py:246-250 | the files written hold the return code, the standard output and the standard error, in three different files |
| CommandCollector.Collect | src/infi/logs_collector/collectables/__init__.py:252-254 | runs the resolved command, then writes its three outputs into three different files |

## Left out

- Process spawning, scheduling, the real `join` deadline and signal delivery. A child process
  and a command are described by their behaviour, given as input.
- The logging re-initialisation in the child, and closing the first root handler on failure.
  `ChildMain` keeps only the exit code.
- `infi.execute` (`execute_async`, `wait`, `kill`, `get_pid`, the output getters). The command's
  outputs are given already turned into text.
- `shutil.copy`, `os.makedirs`, `os.walk` and `os.stat` as I/O. Their results and failures are inputs.
- The regular-expression engine behind `re.match`. It is an opaque matcher.
- Isolation.ChildMain, DirectoryCollector.CompletesIffDestinationsAvailable, DirectoryCollector.WalkRun: an invalid pattern (such as `*.log`) makes `re.match` raise `re.error` out of the walk, at the first visited entry that lists a file and after that entry's `makedirs`; the child then exits with 1 even when every destination is available. The matcher of the model always answers yes or no, so this exit is not modelled, and the exit-code iff holds only for valid patterns.
- The wall clock behind `get_timestamp` and the process ids. They are opaque inputs.
- `Environment` and `Hostname`, which only dump `os.environ` or the host name to JSON files.
- `__repr__` and `__str__`.
- The `cmdline` keyword in `_write_output`, which the file name format never uses.
- Paths.Join, Paths.Basename, Paths.Dirname, Paths.DirPart, CommandCollector.ExecutableName (and every Paths member built on them): nt's alternative separator `/` is not modelled. On nt only `\` separates.
- Paths.Join: UNC shares (`\\server\share`) are not drives in the model, and drive letters are compared with ASCII case folding only.
- Paths.Drive: only the `X:` form of an nt drive is modelled, not UNC shares.
- DirectoryCollector.MadeDirsUnderTarget, DirectoryCollector.PlannedUnderTarget, DirectoryCollector.CopiesStayUnderTarget and Paths.MirroredUnderTarget: they hold only when no rewritten source directory carries a drive, because the code as written mirrors a directory on another nt drive onto itself (see Findings).
- DirectoryCollector.CopiesStayUnderTarget and DirectoryCollector.PlannedUnderTarget: they also ask that the listed file names hold no separator and no drive, which `os.walk` guarantees but the model takes as input.
- CommandCollector.Candidates: each candidate is shown to lie in its directory only when the name searched for is relative. A basename such as `D:x` carries a drive, and the join then drops the directory.
- CommandCollector.JoinEach: the same condition as `Candidates`.
- DirectoryCollector.FileCollectsItself: it holds only when the file's basename, read as a regular expression, matches itself (the code passes it to `re.match` unescaped, so `x(1).log` selects nothing), when the path is `Rejoinable`, and when the walk's first entry is the file's directory and lists the file. On completion it promises the copy is attempted, not that it succeeds: a failing copy is logged and passed over.
- Paths.DirnameBasenameJoin and DirectoryCollector.FileItemRejoins: they hold only for a path whose last separator is single and whose basename carries no drive (`Rejoinable`).
- CommandCollector.Execute: a failure to spawn (`execute_async` raising) is not modelled. It
  leaves `_execute` uncaught.
- CommandCollector.AsyncCommand.Wait: after an `OSError` from `wait`, the command is taken as
  not finished.
- The command output files as files. `WriteOutput` returns the (path, contents) pairs it writes.
- Datetime arithmetic: mtimes, the timestamp and the delta are integers on one scale.

## Findings

| source | as written | input that shows it | evidently intended | confidence | as-written member | corrected member |
|---|---|---|---|---|---|---|
| src/infi/logs_collector/collectables/__init__.py:176 | `path.join(r"C:", "Windows", "System32")` adds no separator after a bare drive | on nt it gives `C:Windows\System32`, which is relative to the current directory of drive C: | the absolute system directory `C:\Windows\System32` | not executed | CommandCollector.System32AsWrittenIsDriveRelative | CommandCollector.SystemDirectoryIsAbsolute |
| src/infi/logs_collector/collectables/__init__.py:112-113 | the rewritten source directory keeps any drive other than `SYSTEMDRIVE`, and `path.join(targetdir, ...)` then drops the target | on nt with `SYSTEMDRIVE` unset, the walk of `D:\logs` with target `C:\t` mirrors `D:\logs` onto itself: `D:\logs` exists, so `makedirs` is skipped, and each copy is a copy of a file onto itself, which `shutil.copy` refuses and the walk logs and passes over | every source directory is mirrored under the target directory | not executed | Paths.OtherDriveMirrorsOntoItself | Paths.RelativizedMirrorUnderTarget |

The search in `CommandCollector.FindExecutable` and the walk in `DirectoryCollector.WalkRun` keep
the code as written: the nt fallback is the drive-relative `C:Windows\System32`, and a source
directory on another drive is mirrored onto itself. The corrected members state what the code
evidently means.
