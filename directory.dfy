/** The `Directory` collectable's work in the child process (`collect_process`): walk a
    source tree, pick file names by pattern and by age, mirror each visited directory
    under the target and copy the picked files into it, best effort. The `File`
    collectable is a `Directory` scoped to one name. */
module DirectoryCollector {
  import opened Seqs
  import opened Text
  import opened Paths

  /** What `os.path.isfile`, `os.path.islink` and `os.stat(...).st_mtime` report for a path.
      Times are on one integer scale (the timestamp and delta of a run use the same one). */
  datatype FileStat = FileStat(isFile: bool, isLink: bool, mtime: int)

  /** `re.match(pattern, name)` is truthy: the pattern matches at the start of the name.
      The regular-expression engine itself is not part of this model. */
  type Matcher = (string, string) -> bool

  /** The configuration of one `Directory` item. */
  datatype DirectoryItem = DirectoryItem(
    dirname: string,
    regexBasename: string,
    recursive: bool,
    timeoutInSeconds: int,
    timeframeOnly: bool)

  /** The keyword arguments `collect` hands to `collect_process`. */
  datatype Job = Job(
    dirname: string,
    regexBasename: string,
    recursive: bool,
    targetdir: string,
    timeframeOnly: bool,
    timestamp: int,
    delta: int)

  function JobOf(item: DirectoryItem, targetdir: string, timestamp: int, delta: int): Job {
    Job(item.dirname, item.regexBasename, item.recursive, targetdir, item.timeframeOnly, timestamp, delta)
  }

  /** One `(dirpath, dirnames, filenames)` triple produced by `os.walk`. */
  datatype WalkEntry = WalkEntry(dirpath: string, dirnames: seq<string>, filenames: seq<string>)

  /** The host as the child process reads it. */
  datatype Host = Host(
    plat: Platform,
    env: map<string, string>,
    stats: map<string, FileStat>,   // source paths that exist, and what stat reports
    matches: Matcher)

  /** The target tree before the walk, and which writes into it raise. */
  datatype TargetFs = TargetFs(
    existingDirs: set<string>,      // destination directories that already exist
    unmakeableDirs: set<string>,    // destination directories whose `makedirs` raises
    failingCopies: set<string>)     // source paths whose `shutil.copy` raises

  /** What the walk does to the target tree. */
  datatype Effect = MakeDirs(dir: string) | CopyAttempt(src: string, dst: string, ok: bool)

  /** The effects of a walk, and whether it ran to its end (no exception escaped). */
  datatype Run = Run(effects: seq<Effect>, completed: bool)

  // ---------------------------------------------------------------- file selection

  /** `was_this_file_modified_recently`: a regular file, not a symbolic link, modified
      strictly after `timestamp - delta`. */
  predicate ModifiedRecently(plat: Platform, stats: map<string, FileStat>, dirpath: string, filename: string,
                             timestamp: int, delta: int) {
    var filepath := Join(plat, dirpath, filename);
    filepath in stats && stats[filepath].isFile && !stats[filepath].isLink && stats[filepath].mtime > timestamp - delta
  }

  /** The time frame is open at its start: a file last modified exactly `delta` before the
      timestamp is not recent; and widening the frame keeps every recent file recent. */
  lemma RecentWindow(plat: Platform, stats: map<string, FileStat>, dirpath: string, filename: string,
                     timestamp: int, delta: int, wider: int)
    ensures var filepath := Join(plat, dirpath, filename);
      filepath in stats && stats[filepath].mtime == timestamp - delta ==>
        !ModifiedRecently(plat, stats, dirpath, filename, timestamp, delta)
    ensures delta <= wider && ModifiedRecently(plat, stats, dirpath, filename, timestamp, delta) ==>
      ModifiedRecently(plat, stats, dirpath, filename, timestamp, wider)
  {
  }

  /** `filter_old_files` */
  function FilterOldFiles(plat: Platform, stats: map<string, FileStat>, dirpath: string, filenames: seq<string>,
                          timestamp: int, delta: int): (r: seq<string>)
    ensures IsSubsequence(r, filenames)
    ensures forall n :: n in r <==> n in filenames && ModifiedRecently(plat, stats, dirpath, n, timestamp, delta)
  {
    FilterIsSubsequence(filenames, Recent(plat, stats, dirpath, timestamp, delta));
    FilterMembershipAll(filenames, Recent(plat, stats, dirpath, timestamp, delta));
    Filter(filenames, Recent(plat, stats, dirpath, timestamp, delta))
  }

  function Recent(plat: Platform, stats: map<string, FileStat>, dirpath: string, timestamp: int, delta: int): string -> bool {
    n => ModifiedRecently(plat, stats, dirpath, n, timestamp, delta)
  }

  /** `filter_matching_filenames` */
  function FilterMatching(filenames: seq<string>, pattern: string, matches: Matcher): (r: seq<string>)
    ensures IsSubsequence(r, filenames)
    ensures forall n :: n in r <==> n in filenames && matches(pattern, n)
  {
    FilterIsSubsequence(filenames, Matching(pattern, matches));
    FilterMembershipAll(filenames, Matching(pattern, matches));
    Filter(filenames, Matching(pattern, matches))
  }

  function Matching(pattern: string, matches: Matcher): string -> bool {
    n => matches(pattern, n)
  }

  /** The names of one walk entry that are copied: those the pattern matches and, when the
      job is limited to the time frame, that are also recent regular files. */
  function Selected(job: Job, host: Host, e: WalkEntry): (r: seq<string>)
    ensures IsSubsequence(r, e.filenames)
    ensures forall n :: n in r <==>
      n in e.filenames && host.matches(job.regexBasename, n) &&
      (job.timeframeOnly ==> ModifiedRecently(host.plat, host.stats, e.dirpath, n, job.timestamp, job.delta))
  {
    var matching := FilterMatching(e.filenames, job.regexBasename, host.matches);
    if job.timeframeOnly then
      var r := FilterOldFiles(host.plat, host.stats, e.dirpath, matching, job.timestamp, job.delta);
      SubsequenceTransitive(r, matching, e.filenames);
      r
    else matching
  }

  /** What `collect_process` wants of a name: the pattern matches it and, when the job is
      limited to the time frame, it is a recent regular file. */
  function Wanted(job: Job, host: Host, e: WalkEntry): string -> bool {
    n => host.matches(job.regexBasename, n) &&
      (job.timeframeOnly ==> ModifiedRecently(host.plat, host.stats, e.dirpath, n, job.timestamp, job.delta))
  }

  /** The two filters applied one after the other select what one filter by both
      conditions selects. */
  lemma SelectedIsOneFilter(job: Job, host: Host, e: WalkEntry)
    ensures Selected(job, host, e) == Filter(e.filenames, Wanted(job, host, e))
  {
    var matching := Matching(job.regexBasename, host.matches);
    if job.timeframeOnly {
      FilterTwice(e.filenames, matching, Recent(host.plat, host.stats, e.dirpath, job.timestamp, job.delta), Wanted(job, host, e));
    } else {
      FilterSameOn(e.filenames, matching, Wanted(job, host, e));
    }
  }

  // ---------------------------------------------------------------- the walk

  /** Whether `collect_process` handles a walk entry rather than skipping it. */
  predicate Visited(job: Job, e: WalkEntry) {
    e.dirpath == job.dirname || job.recursive
  }

  /** The directory a source directory is mirrored to. */
  function Destination(job: Job, host: Host, dirpath: string): string {
    Join(host.plat, job.targetdir, StripOsPrefix(host.plat, host.env, dirpath))
  }

  /** One copy per name, in order; each one's success depends on that file alone. */
  function CopyEffects(plat: Platform, fs: TargetFs, dirpath: string, names: seq<string>, dst: string): seq<Effect> {
    seq(|names|, k requires 0 <= k < |names| => CopyOne(plat, fs, dirpath, names[k], dst))
  }

  /** The copy of one name: from the source directory to the destination, failing exactly
      when that source file cannot be copied. */
  function CopyOne(plat: Platform, fs: TargetFs, dirpath: string, name: string, dst: string): Effect {
    CopyAttempt(Join(plat, dirpath, name), Join(plat, dst, name), Join(plat, dirpath, name) !in fs.failingCopies)
  }

  /** What the walk does, entry by entry; `existing` holds the destination directories
      that exist when an entry is reached. A failing `makedirs` ends the walk. */
  function WalkRun(job: Job, host: Host, fs: TargetFs, walk: seq<WalkEntry>, existing: set<string>): Run
    decreases |walk|
  {
    if walk == [] then Run([], true)
    else
      var e := walk[0];
      if !Visited(job, e) then WalkRun(job, host, fs, walk[1..], existing)
      else
        var dst := Destination(job, host, e.dirpath);
        if dst !in existing && dst in fs.unmakeableDirs then Run([], false)
        else
          var rest := WalkRun(job, host, fs, walk[1..], existing + {dst});
          Prepend(EntryEffects(job, host, fs, e, existing), rest)
  }

  /** What a visited entry does when its destination can be had: `makedirs` when it is
      missing, then the copies. */
  function EntryEffects(job: Job, host: Host, fs: TargetFs, e: WalkEntry, existing: set<string>): seq<Effect> {
    var dst := Destination(job, host, e.dirpath);
    (if dst in existing then [] else [MakeDirs(dst)]) +
    CopyEffects(host.plat, fs, e.dirpath, Selected(job, host, e), dst)
  }

  function Prepend(done: seq<Effect>, r: Run): Run {
    Run(done + r.effects, r.completed)
  }

  lemma PrependTwice(a: seq<Effect>, b: seq<Effect>, r: Run)
    ensures Prepend(a, Prepend(b, r)) == Prepend(a + b, r)
  {
    assert a + (b + r.effects) == (a + b) + r.effects;
  }

  /** One visited entry of the walk: its destination is made when missing, then its
      selected files are copied, then the walk goes on. */
  lemma WalkRunVisit(job: Job, host: Host, fs: TargetFs, walk: seq<WalkEntry>, i: nat, existing: set<string>)
    requires i < |walk| && Visited(job, walk[i])
    ensures var dst := Destination(job, host, walk[i].dirpath);
      WalkRun(job, host, fs, walk[i..], existing) ==
        if dst !in existing && dst in fs.unmakeableDirs then Run([], false)
        else Prepend(EntryEffects(job, host, fs, walk[i], existing), WalkRun(job, host, fs, walk[i + 1..], existing + {dst}))
  {
    assert walk[i..][0] == walk[i] && walk[i..][1..] == walk[i + 1..];
  }

  /** An entry the walk skips changes nothing. */
  lemma WalkRunSkip(job: Job, host: Host, fs: TargetFs, walk: seq<WalkEntry>, i: nat, existing: set<string>)
    requires i < |walk| && !Visited(job, walk[i])
    ensures WalkRun(job, host, fs, walk[i..], existing) == WalkRun(job, host, fs, walk[i + 1..], existing)
  {
    assert walk[i..][1..] == walk[i + 1..];
  }

  /** `collect_logfile`: copy one file; a failure is logged and reported, never raised. */
  method CollectLogfile(plat: Platform, fs: TargetFs, srcDirectory: string, filename: string, dstDirectory: string)
    returns (e: Effect)
    ensures e == CopyOne(plat, fs, srcDirectory, filename, dstDirectory)
  {
    var src := Join(plat, srcDirectory, filename);
    var dst := Join(plat, dstDirectory, filename);
    e := CopyAttempt(src, dst, src !in fs.failingCopies);
  }

  /** The list comprehension that calls `collect_logfile` once per selected name. */
  method CollectLogfiles(plat: Platform, fs: TargetFs, dirpath: string, filenames: seq<string>, dst: string)
    returns (copies: seq<Effect>)
    ensures copies == CopyEffects(plat, fs, dirpath, filenames, dst)
  {
    copies := [];
    for j := 0 to |filenames|
      invariant |copies| == j
      invariant forall k :: 0 <= k < j ==> copies[k] == CopyOne(plat, fs, dirpath, filenames[k], dst)
    {
      var copy := CollectLogfile(plat, fs, dirpath, filenames[j], dst);
      copies := copies + [copy];
    }
  }

  /** The body of `collect_process`'s loop for an entry it does not skip: make the
      destination when it is missing, select the names, copy them. `made` is false when
      `makedirs` raised. */
  method CollectEntry(job: Job, host: Host, fs: TargetFs, e: WalkEntry, existing: set<string>)
    returns (effects: seq<Effect>, made: bool)
    ensures var dst := Destination(job, host, e.dirpath);
      && made == (dst in existing || dst !in fs.unmakeableDirs)
      && (made ==> effects == EntryEffects(job, host, fs, e, existing))
  {
    var dst := Join(host.plat, job.targetdir, StripOsPrefix(host.plat, host.env, e.dirpath));
    effects := [];
    if dst !in existing {
      if dst in fs.unmakeableDirs {
        return effects, false;
      }
      effects := [MakeDirs(dst)];
    }
    var filenames := FilterMatching(e.filenames, job.regexBasename, host.matches);
    if job.timeframeOnly {
      filenames := FilterOldFiles(host.plat, host.stats, e.dirpath, filenames, job.timestamp, job.delta);
    }
    var copies := CollectLogfiles(host.plat, fs, e.dirpath, filenames, dst);
    effects, made := effects + copies, true;
  }

  /** `collect_process`: the loop over the walk. */
  method CollectProcess(job: Job, host: Host, fs: TargetFs, walk: seq<WalkEntry>) returns (effects: seq<Effect>, completed: bool)
    ensures Run(effects, completed) == WalkRun(job, host, fs, walk, fs.existingDirs)
  {
    effects := [];
    var existing := fs.existingDirs;
    var i := 0;
    assert walk[0..] == walk;
    assert Prepend([], WalkRun(job, host, fs, walk, existing)) == WalkRun(job, host, fs, walk, existing) by {
      assert [] + WalkRun(job, host, fs, walk, existing).effects == WalkRun(job, host, fs, walk, existing).effects;
    }
    while i < |walk|
      invariant 0 <= i <= |walk|
      invariant WalkRun(job, host, fs, walk, fs.existingDirs) == Prepend(effects, WalkRun(job, host, fs, walk[i..], existing))
    {
      var e := walk[i];
      if e.dirpath != job.dirname && !job.recursive {
        WalkRunSkip(job, host, fs, walk, i, existing);
        i := i + 1;
        continue;
      }
      var done, made := CollectEntry(job, host, fs, e, existing);
      WalkRunVisit(job, host, fs, walk, i, existing);
      if !made {
        // `makedirs` raised: the exception leaves `collect_process`
        assert effects + [] == effects;
        completed := false;
        return;
      }
      var existingAfter := existing + {Join(host.plat, job.targetdir, StripOsPrefix(host.plat, host.env, e.dirpath))};
      PrependTwice(effects, done, WalkRun(job, host, fs, walk[i + 1..], existingAfter));
      effects, existing := effects + done, existingAfter;
      i := i + 1;
    }
    completed := true;
    assert walk[i..] == [];
    assert effects + [] == effects;
  }

  // ---------------------------------------------------------------- properties of the walk

  /** The copies a walk effect list attempts, as (source, destination) pairs. */
  function Attempts(effects: seq<Effect>): seq<(string, string)>
    decreases |effects|
  {
    if effects == [] then []
    else (if effects[0].CopyAttempt? then [(effects[0].src, effects[0].dst)] else []) + Attempts(effects[1..])
  }

  /** The directories a walk effect list creates, in order. */
  function MadeDirs(effects: seq<Effect>): seq<string>
    decreases |effects|
  {
    if effects == [] then []
    else (if effects[0].MakeDirs? then [effects[0].dir] else []) + MadeDirs(effects[1..])
  }

  lemma {:induction false} AttemptsAppend(a: seq<Effect>, b: seq<Effect>)
    ensures Attempts(a + b) == Attempts(a) + Attempts(b)
    decreases |a|
  {
    if a != [] {
      assert (a + b)[1..] == a[1..] + b;
      AttemptsAppend(a[1..], b);
    } else {
      assert a + b == b;
    }
  }

  lemma {:induction false} MadeDirsAppend(a: seq<Effect>, b: seq<Effect>)
    ensures MadeDirs(a + b) == MadeDirs(a) + MadeDirs(b)
    decreases |a|
  {
    if a != [] {
      assert (a + b)[1..] == a[1..] + b;
      MadeDirsAppend(a[1..], b);
    } else {
      assert a + b == b;
    }
  }

  /** Each name paired with its source and destination paths. */
  function CopyPairs(plat: Platform, dirpath: string, names: seq<string>, dst: string): seq<(string, string)> {
    seq(|names|, k requires 0 <= k < |names| => (Join(plat, dirpath, names[k]), Join(plat, dst, names[k])))
  }

  /** The copies a visited entry is meant to attempt: every selected name, from the source
      directory into its mirror. */
  function EntryPlan(job: Job, host: Host, e: WalkEntry): seq<(string, string)> {
    CopyPairs(host.plat, e.dirpath, Selected(job, host, e), Destination(job, host, e.dirpath))
  }

  /** The copies the whole walk is meant to attempt, entry by entry. */
  function Planned(job: Job, host: Host, walk: seq<WalkEntry>): seq<(string, string)>
    decreases |walk|
  {
    if walk == [] then []
    else (if Visited(job, walk[0]) then EntryPlan(job, host, walk[0]) else []) + Planned(job, host, walk[1..])
  }

  /** A list of copies attempts its own paths, in order, and makes no directory. */
  lemma {:induction false} AttemptsOfCopies(effects: seq<Effect>)
    requires forall k :: 0 <= k < |effects| ==> effects[k].CopyAttempt?
    ensures Attempts(effects) == seq(|effects|, k requires 0 <= k < |effects| => (effects[k].src, effects[k].dst))
    ensures MadeDirs(effects) == []
    decreases |effects|
  {
    if effects != [] {
      AttemptsOfCopies(effects[1..]);
    }
  }

  /** Copy attempts do not depend on which copies fail. */
  lemma CopyEffectsAttempts(plat: Platform, fs: TargetFs, dirpath: string, names: seq<string>, dst: string)
    ensures Attempts(CopyEffects(plat, fs, dirpath, names, dst)) == CopyPairs(plat, dirpath, names, dst)
    ensures MadeDirs(CopyEffects(plat, fs, dirpath, names, dst)) == []
  {
    AttemptsOfCopies(CopyEffects(plat, fs, dirpath, names, dst));
  }

  /** An optional `makedirs` of the destination followed by the copies into it. */
  lemma MakeThenCopy(plat: Platform, fs: TargetFs, dirpath: string, names: seq<string>, dst: string, make: bool)
    ensures var head: seq<Effect> := if make then [MakeDirs(dst)] else [];
      && Attempts(head + CopyEffects(plat, fs, dirpath, names, dst)) == CopyPairs(plat, dirpath, names, dst)
      && MadeDirs(head + CopyEffects(plat, fs, dirpath, names, dst)) == if make then [dst] else []
  {
    var head: seq<Effect> := if make then [MakeDirs(dst)] else [];
    var copies := CopyEffects(plat, fs, dirpath, names, dst);
    AttemptsAppend(head, copies);
    MadeDirsAppend(head, copies);
    CopyEffectsAttempts(plat, fs, dirpath, names, dst);
  }

  /** A visited entry attempts exactly the copies planned for it, and makes at most its
      own destination. */
  lemma EntryEffectsFollowPlan(job: Job, host: Host, fs: TargetFs, e: WalkEntry, existing: set<string>)
    ensures Attempts(EntryEffects(job, host, fs, e, existing)) == EntryPlan(job, host, e)
    ensures var dst := Destination(job, host, e.dirpath);
      MadeDirs(EntryEffects(job, host, fs, e, existing)) == if dst in existing then [] else [dst]
  {
    var dst := Destination(job, host, e.dirpath);
    MakeThenCopy(host.plat, fs, e.dirpath, Selected(job, host, e), dst, dst !in existing);
  }

  /** The copies the walk attempts are the planned ones, in the planned order: all of them
      when the walk completes, a leading part of them when `makedirs` ends it early. A
      failing copy never stops the files after it. */
  lemma {:induction false} AttemptsFollowPlan(job: Job, host: Host, fs: TargetFs, walk: seq<WalkEntry>, existing: set<string>)
    ensures Attempts(WalkRun(job, host, fs, walk, existing).effects) <= Planned(job, host, walk)
    ensures WalkRun(job, host, fs, walk, existing).completed ==>
      Attempts(WalkRun(job, host, fs, walk, existing).effects) == Planned(job, host, walk)
    decreases |walk|
  {
    if walk != [] {
      var e := walk[0];
      if Visited(job, e) {
        var dst := Destination(job, host, e.dirpath);
        if !(dst !in existing && dst in fs.unmakeableDirs) {
          var effects := EntryEffects(job, host, fs, e, existing);
          var rest := WalkRun(job, host, fs, walk[1..], existing + {dst});
          assert WalkRun(job, host, fs, walk, existing) == Prepend(effects, rest);
          assert Planned(job, host, walk) == EntryPlan(job, host, e) + Planned(job, host, walk[1..]);
          AttemptsFollowPlan(job, host, fs, walk[1..], existing + {dst});
          AttemptsAppend(effects, rest.effects);
          EntryEffectsFollowPlan(job, host, fs, e, existing);
          PrefixAfterSame(EntryPlan(job, host, e), Attempts(rest.effects), Planned(job, host, walk[1..]));
        }
      } else {
        AttemptsFollowPlan(job, host, fs, walk[1..], existing);
      }
    }
  }

  lemma PrefixAfterSame<T>(c: seq<T>, a: seq<T>, b: seq<T>)
    requires a <= b
    ensures c + a <= c + b
  {
    assert (c + a) == (c + b)[..|c + a|];
  }

  /** Whether the copies fail has no influence on what is attempted or on whether the walk
      completes: only a failing `makedirs` does. */
  lemma {:induction false} CopyFailuresDoNotMatter(job: Job, host: Host, fs1: TargetFs, fs2: TargetFs,
                                                   walk: seq<WalkEntry>, existing: set<string>)
    requires fs1.unmakeableDirs == fs2.unmakeableDirs
    ensures WalkRun(job, host, fs1, walk, existing).completed == WalkRun(job, host, fs2, walk, existing).completed
    ensures Attempts(WalkRun(job, host, fs1, walk, existing).effects) ==
      Attempts(WalkRun(job, host, fs2, walk, existing).effects)
    decreases |walk|
  {
    if walk != [] {
      var e := walk[0];
      if Visited(job, e) {
        var dst := Destination(job, host, e.dirpath);
        if !(dst !in existing && dst in fs1.unmakeableDirs) {
          CopyFailuresDoNotMatter(job, host, fs1, fs2, walk[1..], existing + {dst});
          AttemptsAppend(EntryEffects(job, host, fs1, e, existing), WalkRun(job, host, fs1, walk[1..], existing + {dst}).effects);
          AttemptsAppend(EntryEffects(job, host, fs2, e, existing), WalkRun(job, host, fs2, walk[1..], existing + {dst}).effects);
          EntryEffectsFollowPlan(job, host, fs1, e, existing);
          EntryEffectsFollowPlan(job, host, fs2, e, existing);
        }
      } else {
        CopyFailuresDoNotMatter(job, host, fs1, fs2, walk[1..], existing);
      }
    }
  }

  /** An entry's destination, when the walk visits it, exists already or can be made. */
  predicate EntryAvailable(job: Job, host: Host, fs: TargetFs, e: WalkEntry, existing: set<string>) {
    Visited(job, e) ==>
      Destination(job, host, e.dirpath) in existing || Destination(job, host, e.dirpath) !in fs.unmakeableDirs
  }

  /** Every destination the walk needs exists already or can be made. */
  predicate DestinationsAvailable(job: Job, host: Host, fs: TargetFs, walk: seq<WalkEntry>, existing: set<string>) {
    forall i :: 0 <= i < |walk| ==> EntryAvailable(job, host, fs, walk[i], existing)
  }

  lemma AvailableCons(job: Job, host: Host, fs: TargetFs, walk: seq<WalkEntry>, existing: set<string>)
    requires walk != []
    ensures DestinationsAvailable(job, host, fs, walk, existing) <==>
      EntryAvailable(job, host, fs, walk[0], existing) && DestinationsAvailable(job, host, fs, walk[1..], existing)
  {
    if EntryAvailable(job, host, fs, walk[0], existing) && DestinationsAvailable(job, host, fs, walk[1..], existing) {
      forall i | 0 <= i < |walk| ensures EntryAvailable(job, host, fs, walk[i], existing) {
        if i > 0 { assert walk[i] == walk[1..][i - 1]; }
      }
    }
  }

  /** Adding a directory that exists or can be made does not change what is available. */
  lemma AvailableGrow(job: Job, host: Host, fs: TargetFs, walk: seq<WalkEntry>, existing: set<string>, dst: string)
    requires dst in existing || dst !in fs.unmakeableDirs
    ensures DestinationsAvailable(job, host, fs, walk, existing + {dst}) <==> DestinationsAvailable(job, host, fs, walk, existing)
  {
    forall i | 0 <= i < |walk|
      ensures EntryAvailable(job, host, fs, walk[i], existing + {dst}) <==> EntryAvailable(job, host, fs, walk[i], existing)
    {
    }
  }

  /** The walk runs to its end exactly when every destination it needs exists or can be made. */
  lemma {:induction false} CompletesIffDestinationsAvailable(job: Job, host: Host, fs: TargetFs, walk: seq<WalkEntry>, existing: set<string>)
    ensures WalkRun(job, host, fs, walk, existing).completed <==> DestinationsAvailable(job, host, fs, walk, existing)
    decreases |walk|
  {
    if walk != [] {
      AvailableCons(job, host, fs, walk, existing);
      var e := walk[0];
      if Visited(job, e) {
        var dst := Destination(job, host, e.dirpath);
        if !(dst !in existing && dst in fs.unmakeableDirs) {
          CompletesIffDestinationsAvailable(job, host, fs, walk[1..], existing + {dst});
          AvailableGrow(job, host, fs, walk[1..], existing, dst);
        }
      } else {
        CompletesIffDestinationsAvailable(job, host, fs, walk[1..], existing);
      }
    }
  }

  /** No element occurs twice. */
  predicate Distinct(s: seq<string>) {
    forall i, j :: 0 <= i < j < |s| ==> s[i] != s[j]
  }

  lemma DistinctCons(x: string, s: seq<string>)
    requires x !in s && Distinct(s)
    ensures Distinct([x] + s)
  {
    forall i, j | 0 <= i < j < |[x] + s| ensures ([x] + s)[i] != ([x] + s)[j] {
      if i > 0 { assert ([x] + s)[i] == s[i - 1]; }
      assert ([x] + s)[j] == s[j - 1];
    }
  }

  /** `makedirs` is only called for a destination that does not exist yet, so no
      directory is made twice. */
  lemma {:induction false} MadeDirsOnlyWhenMissing(job: Job, host: Host, fs: TargetFs, walk: seq<WalkEntry>, existing: set<string>)
    ensures var made := MadeDirs(WalkRun(job, host, fs, walk, existing).effects);
      && Distinct(made)
      && (forall d :: d in made ==> d !in existing)
    decreases |walk|
  {
    if walk != [] {
      var e := walk[0];
      if Visited(job, e) {
        var dst := Destination(job, host, e.dirpath);
        if !(dst !in existing && dst in fs.unmakeableDirs) {
          var rest := WalkRun(job, host, fs, walk[1..], existing + {dst});
          MadeDirsOnlyWhenMissing(job, host, fs, walk[1..], existing + {dst});
          MadeDirsAppend(EntryEffects(job, host, fs, e, existing), rest.effects);
          EntryEffectsFollowPlan(job, host, fs, e, existing);
          if dst !in existing {
            DistinctCons(dst, MadeDirs(rest.effects));
          }
        }
      } else {
        MadeDirsOnlyWhenMissing(job, host, fs, walk[1..], existing);
      }
    }
  }

  /** The rewritten source directory carries no drive: always so on posix, and on nt for
      a directory on the system drive. */
  predicate MirrorHasNoDrive(host: Host, dirpath: string) {
    Drive(host.plat, StripOsPrefix(host.plat, host.env, dirpath)) == []
  }

  predicate DrivelessMirrors(host: Host, walk: seq<WalkEntry>) {
    forall i :: 0 <= i < |walk| ==> MirrorHasNoDrive(host, walk[i].dirpath)
  }

  lemma DrivelessMirrorsTail(host: Host, walk: seq<WalkEntry>)
    requires walk != [] && DrivelessMirrors(host, walk)
    ensures MirrorHasNoDrive(host, walk[0].dirpath) && DrivelessMirrors(host, walk[1..])
  {
    forall i | 0 <= i < |walk[1..]| ensures MirrorHasNoDrive(host, walk[1..][i].dirpath) {
      assert walk[1..][i] == walk[i + 1];
    }
  }

  /** Every directory the walk makes lies under the target, as long as no rewritten source
      directory carries a drive. */
  lemma {:induction false} MadeDirsUnderTarget(job: Job, host: Host, fs: TargetFs, walk: seq<WalkEntry>, existing: set<string>)
    requires DrivelessMirrors(host, walk)
    ensures forall d :: d in MadeDirs(WalkRun(job, host, fs, walk, existing).effects) ==> StartsWith(d, job.targetdir)
    decreases |walk|
  {
    if walk != [] {
      var e := walk[0];
      DrivelessMirrorsTail(host, walk);
      if Visited(job, e) {
        var dst := Destination(job, host, e.dirpath);
        if !(dst !in existing && dst in fs.unmakeableDirs) {
          var rest := WalkRun(job, host, fs, walk[1..], existing + {dst});
          MadeDirsUnderTarget(job, host, fs, walk[1..], existing + {dst});
          MadeDirsAppend(EntryEffects(job, host, fs, e, existing), rest.effects);
          EntryEffectsFollowPlan(job, host, fs, e, existing);
          MirroredUnderTarget(host.plat, host.env, job.targetdir, e.dirpath);
        }
      } else {
        MadeDirsUnderTarget(job, host, fs, walk[1..], existing);
      }
    }
  }

  /** A visited entry's destination exists already or is among `made`. */
  predicate EntryMirrored(job: Job, host: Host, e: WalkEntry, existing: set<string>, made: seq<string>) {
    Visited(job, e) ==> Destination(job, host, e.dirpath) in existing || Destination(job, host, e.dirpath) in made
  }

  predicate AllMirrored(job: Job, host: Host, walk: seq<WalkEntry>, existing: set<string>, made: seq<string>) {
    forall i :: 0 <= i < |walk| ==> EntryMirrored(job, host, walk[i], existing, made)
  }

  /** What is mirrored once `dst` exists stays mirrored when `dst` is made instead. */
  lemma AllMirroredWeaken(job: Job, host: Host, walk: seq<WalkEntry>, existing: set<string>, dst: string,
                          made: seq<string>, made2: seq<string>)
    requires dst in existing || dst in made2
    requires forall d :: d in made ==> d in made2
    requires AllMirrored(job, host, walk, existing + {dst}, made)
    ensures AllMirrored(job, host, walk, existing, made2)
  {
    forall i | 0 <= i < |walk| ensures EntryMirrored(job, host, walk[i], existing, made2) {
      assert EntryMirrored(job, host, walk[i], existing + {dst}, made);
    }
  }

  lemma AllMirroredCons(job: Job, host: Host, walk: seq<WalkEntry>, existing: set<string>, made: seq<string>)
    requires walk != []
    requires EntryMirrored(job, host, walk[0], existing, made) && AllMirrored(job, host, walk[1..], existing, made)
    ensures AllMirrored(job, host, walk, existing, made)
  {
    forall i | 0 <= i < |walk| ensures EntryMirrored(job, host, walk[i], existing, made) {
      if i > 0 { assert walk[i] == walk[1..][i - 1]; }
    }
  }

  /** After a completed walk, every visited entry's destination exists: it existed before
      or the walk made it. */
  lemma {:induction false} CompletedWalkMirrorsEveryVisited(job: Job, host: Host, fs: TargetFs, walk: seq<WalkEntry>, existing: set<string>)
    requires WalkRun(job, host, fs, walk, existing).completed
    ensures AllMirrored(job, host, walk, existing, MadeDirs(WalkRun(job, host, fs, walk, existing).effects))
    decreases |walk|
  {
    if walk != [] {
      var e := walk[0];
      var made := MadeDirs(WalkRun(job, host, fs, walk, existing).effects);
      if Visited(job, e) {
        var dst := Destination(job, host, e.dirpath);
        var rest := WalkRun(job, host, fs, walk[1..], existing + {dst});
        CompletedWalkMirrorsEveryVisited(job, host, fs, walk[1..], existing + {dst});
        MadeDirsAppend(EntryEffects(job, host, fs, e, existing), rest.effects);
        EntryEffectsFollowPlan(job, host, fs, e, existing);
        assert made == (if dst in existing then [] else [dst]) + MadeDirs(rest.effects);
        AllMirroredWeaken(job, host, walk[1..], existing, dst, MadeDirs(rest.effects), made);
        AllMirroredCons(job, host, walk, existing, made);
      } else {
        CompletedWalkMirrorsEveryVisited(job, host, fs, walk[1..], existing);
        AllMirroredCons(job, host, walk, existing, made);
      }
    }
  }

  /** The entries at the top of the walk. */
  function AtTop(dirname: string): WalkEntry -> bool {
    (e: WalkEntry) => e.dirpath == dirname
  }

  /** Without `recursive`, the walk does exactly what it does on its top entries alone. */
  lemma {:induction false} NonRecursiveVisitsOnlyTop(job: Job, host: Host, fs: TargetFs, walk: seq<WalkEntry>, existing: set<string>)
    requires !job.recursive
    ensures WalkRun(job, host, fs, walk, existing) == WalkRun(job, host, fs, Filter(walk, AtTop(job.dirname)), existing)
    decreases |walk|
  {
    if walk != [] {
      var top := Filter(walk, AtTop(job.dirname));
      if walk[0].dirpath == job.dirname {
        assert top[0] == walk[0] && top[1..] == Filter(walk[1..], AtTop(job.dirname));
        var dst := Destination(job, host, walk[0].dirpath);
        NonRecursiveVisitsOnlyTop(job, host, fs, walk[1..], existing + {dst});
      } else {
        NonRecursiveVisitsOnlyTop(job, host, fs, walk[1..], existing);
      }
    }
  }

  /** A name as `os.walk` lists it: no separator, and no drive (a colon is not allowed in
      an nt file name). */
  predicate PlainName(plat: Platform, n: string) {
    Sep(plat) !in n && Drive(plat, n) == []
  }

  predicate PlainNames(plat: Platform, walk: seq<WalkEntry>) {
    forall i, j :: 0 <= i < |walk| && 0 <= j < |walk[i].filenames| ==> PlainName(plat, walk[i].filenames[j])
  }

  lemma StartsWithTransitive(a: string, b: string, c: string)
    requires StartsWith(a, b) && StartsWith(b, c)
    ensures StartsWith(a, c)
  {
    assert a[..|c|] == a[..|b|][..|c|];
  }

  /** Every copy planned for an entry goes from that entry's directory into its mirror
      under the target. */
  lemma EntryPlanUnderTarget(job: Job, host: Host, e: WalkEntry)
    requires forall j :: 0 <= j < |e.filenames| ==> PlainName(host.plat, e.filenames[j])
    requires MirrorHasNoDrive(host, e.dirpath)
    ensures forall k :: 0 <= k < |EntryPlan(job, host, e)| ==>
      StartsWith(EntryPlan(job, host, e)[k].0, e.dirpath) && StartsWith(EntryPlan(job, host, e)[k].1, job.targetdir)
  {
    var names := Selected(job, host, e);
    forall k | 0 <= k < |names| ensures PlainName(host.plat, names[k]) {
      assert names[k] in e.filenames;
    }
    MirroredUnderTarget(host.plat, host.env, job.targetdir, e.dirpath);
    PairsUnder(host.plat, e.dirpath, names, Destination(job, host, e.dirpath), job.targetdir);
  }

  /** Plain names joined onto a directory stay under it, and joined onto a mirror under the
      target stay under the target. */
  lemma PairsUnder(plat: Platform, dirpath: string, names: seq<string>, dst: string, targetdir: string)
    requires forall k :: 0 <= k < |names| ==> PlainName(plat, names[k])
    requires StartsWith(dst, targetdir)
    ensures forall k :: 0 <= k < |names| ==>
      StartsWith(CopyPairs(plat, dirpath, names, dst)[k].0, dirpath) &&
      StartsWith(CopyPairs(plat, dirpath, names, dst)[k].1, targetdir)
  {
    forall k | 0 <= k < |names|
      ensures StartsWith(Join(plat, dirpath, names[k]), dirpath)
      ensures StartsWith(Join(plat, dst, names[k]), targetdir)
    {
      var n := names[k];
      assert Relative(plat, n) by {
        if n != [] { assert n[0] in n; }
      }
      JoinKeepsBoth(plat, dirpath, n);
      JoinKeepsBoth(plat, dst, n);
      StartsWithTransitive(Join(plat, dst, n), dst, targetdir);
    }
  }

  /** Every copy the walk plans writes under the target directory, as long as no rewritten
      source directory carries a drive. */
  lemma {:induction false} PlannedUnderTarget(job: Job, host: Host, walk: seq<WalkEntry>)
    requires PlainNames(host.plat, walk) && DrivelessMirrors(host, walk)
    ensures forall k :: 0 <= k < |Planned(job, host, walk)| ==> StartsWith(Planned(job, host, walk)[k].1, job.targetdir)
    decreases |walk|
  {
    if walk != [] {
      assert PlainNames(host.plat, walk[1..]) by {
        forall i, j | 0 <= i < |walk[1..]| && 0 <= j < |walk[1..][i].filenames|
          ensures PlainName(host.plat, walk[1..][i].filenames[j])
        {
          assert walk[1..][i] == walk[i + 1];
        }
      }
      DrivelessMirrorsTail(host, walk);
      PlannedUnderTarget(job, host, walk[1..]);
      var head := if Visited(job, walk[0]) then EntryPlan(job, host, walk[0]) else [];
      if Visited(job, walk[0]) {
        assert forall j :: 0 <= j < |walk[0].filenames| ==> PlainName(host.plat, walk[0].filenames[j]);
        EntryPlanUnderTarget(job, host, walk[0]);
      }
      assert Planned(job, host, walk) == head + Planned(job, host, walk[1..]);
      DestinationsAppend(head, Planned(job, host, walk[1..]), job.targetdir);
    }
  }

  lemma DestinationsAppend(a: seq<(string, string)>, b: seq<(string, string)>, targetdir: string)
    requires forall k :: 0 <= k < |a| ==> StartsWith(a[k].1, targetdir)
    requires forall k :: 0 <= k < |b| ==> StartsWith(b[k].1, targetdir)
    ensures forall k :: 0 <= k < |a + b| ==> StartsWith((a + b)[k].1, targetdir)
  {
    forall k | 0 <= k < |a + b| ensures StartsWith((a + b)[k].1, targetdir) {
      if k < |a| {
        assert (a + b)[k] == a[k];
      } else {
        assert (a + b)[k] == b[k - |a|];
      }
    }
  }

  /** Nothing the walk copies lands outside the target directory, as long as no rewritten
      source directory carries a drive. */
  lemma CopiesStayUnderTarget(job: Job, host: Host, fs: TargetFs, walk: seq<WalkEntry>)
    requires PlainNames(host.plat, walk) && DrivelessMirrors(host, walk)
    ensures var attempted := Attempts(WalkRun(job, host, fs, walk, fs.existingDirs).effects);
      forall k :: 0 <= k < |attempted| ==> StartsWith(attempted[k].1, job.targetdir)
  {
    AttemptsFollowPlan(job, host, fs, walk, fs.existingDirs);
    PlannedUnderTarget(job, host, walk);
  }

  // ---------------------------------------------------------------- File

  /** `File(filepath)`: the directory of the path, its basename as the pattern, no
      recursion, no time-frame filter, the default timeout of 60 seconds. */
  function FileItem(plat: Platform, filepath: string): (item: DirectoryItem)
    ensures !item.recursive && !item.timeframeOnly && item.timeoutInSeconds == 60
    ensures EndsWith(filepath, item.regexBasename)
  {
    DirectoryItem(Dirname(plat, filepath), Basename(plat, filepath), false, 60, false)
  }

  /** The directory and the pattern of a `File` join back to its path. */
  lemma FileItemRejoins(plat: Platform, filepath: string)
    requires Rejoinable(plat, filepath)
    ensures Join(plat, FileItem(plat, filepath).dirname, FileItem(plat, filepath).regexBasename) == filepath
  {
    DirnameBasenameJoin(plat, filepath);
  }

  lemma EntryPlanHas(job: Job, host: Host, e: WalkEntry, n: string)
    requires n in Selected(job, host, e)
    ensures (Join(host.plat, e.dirpath, n), Join(host.plat, Destination(job, host, e.dirpath), n)) in EntryPlan(job, host, e)
  {
    var names := Selected(job, host, e);
    var k :| 0 <= k < |names| && names[k] == n;
    assert EntryPlan(job, host, e)[k] == (Join(host.plat, e.dirpath, n), Join(host.plat, Destination(job, host, e.dirpath), n));
  }

  /** A `File` whose basename matches itself as a pattern plans a copy of the file itself,
      whatever its age, as soon as the walk lists it at the top; when the walk completes the
      copy is attempted. */
  lemma FileCollectsItself(plat: Platform, filepath: string, host: Host, fs: TargetFs, walk: seq<WalkEntry>,
                           targetdir: string, timestamp: int, delta: int)
    requires host.plat == plat && Rejoinable(plat, filepath)
    requires host.matches(Basename(plat, filepath), Basename(plat, filepath))
    requires walk != [] && walk[0].dirpath == Dirname(plat, filepath) && Basename(plat, filepath) in walk[0].filenames
    ensures var job := JobOf(FileItem(plat, filepath), targetdir, timestamp, delta);
      var copy := (filepath, Join(plat, Destination(job, host, walk[0].dirpath), Basename(plat, filepath)));
      && copy in Planned(job, host, walk)
      && (WalkRun(job, host, fs, walk, fs.existingDirs).completed ==> copy in Attempts(WalkRun(job, host, fs, walk, fs.existingDirs).effects))
  {
    FileItemRejoins(plat, filepath);
    ItemCollectsFile(FileItem(plat, filepath), host, fs, walk, targetdir, timestamp, delta,
                     Basename(plat, filepath), filepath);
  }

  /** An item without the time window whose pattern is the name of a file listed in the
      first entry, its own directory, plans that file's copy. */
  lemma ItemCollectsFile(item: DirectoryItem, host: Host, fs: TargetFs, walk: seq<WalkEntry>,
                         targetdir: string, timestamp: int, delta: int, name: string, src: string)
    requires !item.timeframeOnly && item.regexBasename == name && host.matches(name, name)
    requires walk != [] && walk[0].dirpath == item.dirname && name in walk[0].filenames
    requires Join(host.plat, item.dirname, name) == src
    ensures var job := JobOf(item, targetdir, timestamp, delta);
      var copy := (src, Join(host.plat, Destination(job, host, walk[0].dirpath), name));
      && copy in Planned(job, host, walk)
      && (WalkRun(job, host, fs, walk, fs.existingDirs).completed ==> copy in Attempts(WalkRun(job, host, fs, walk, fs.existingDirs).effects))
  {
    var job := JobOf(item, targetdir, timestamp, delta);
    assert Visited(job, walk[0]);
    assert name in Selected(job, host, walk[0]);
    FirstEntryCopyPlanned(job, host, fs, walk, name, src);
  }

  /** A name selected in the first entry of the walk, when that entry is handled, is planned, and attempted when the walk
      completes. */
  lemma FirstEntryCopyPlanned(job: Job, host: Host, fs: TargetFs, walk: seq<WalkEntry>, name: string, src: string)
    requires walk != [] && Visited(job, walk[0])
    requires name in Selected(job, host, walk[0]) && Join(host.plat, walk[0].dirpath, name) == src
    ensures var copy := (src, Join(host.plat, Destination(job, host, walk[0].dirpath), name));
      && copy in Planned(job, host, walk)
      && (WalkRun(job, host, fs, walk, fs.existingDirs).completed ==> copy in Attempts(WalkRun(job, host, fs, walk, fs.existingDirs).effects))
  {
    EntryPlanHas(job, host, walk[0], name);
    assert Planned(job, host, walk) == EntryPlan(job, host, walk[0]) + Planned(job, host, walk[1..]);
    AttemptsFollowPlan(job, host, fs, walk, fs.existingDirs);
  }
}
