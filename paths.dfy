/** `os.path` for the two platforms the collector runs on, and the source-path rewriting
    that mirrors a collected directory under the target directory. */
module Paths {
  import opened Seqs
  import opened Text

  /** `os.name`: "posix" or "nt". */
  datatype Platform = Posix | Nt

  /** `os.path.sep` */
  function Sep(plat: Platform): char {
    if plat == Posix then '/' else '\\'
  }

  /** `os.pathsep`, the separator of the entries of `PATH`. */
  function PathListSep(plat: Platform): char {
    if plat == Posix then ':' else ';'
  }

  /** A drive with nothing after it, such as `C:`. */
  predicate IsBareDrive(s: string) {
    |s| == 2 && s[1] == ':'
  }

  /** The drive part of a path: `C:` of `C:\\Windows` on nt, always empty on posix. UNC
      shares are not modelled. */
  function Drive(plat: Platform, p: string): string {
    if HasDrive(plat, p) then p[..2] else []
  }

  predicate HasDrive(plat: Platform, p: string) {
    plat == Nt && |p| >= 2 && p[1] == ':'
  }

  /** What follows the drive. */
  function PathPart(plat: Platform, p: string): string {
    if HasDrive(plat, p) then p[2..] else p
  }

  /** On nt the drive is exactly the leading letter and colon when the second character is
      a colon; on posix, and on nt without such a colon, it is empty. */
  lemma DriveShape(plat: Platform, p: string)
    ensures var d := Drive(plat, p);
      && (plat == Nt && |p| >= 2 && p[1] == ':' ==> d == p[..2] && IsBareDrive(d))
      && (!(plat == Nt && |p| >= 2 && p[1] == ':') ==> d == [])
      && StartsWith(p, d)
  {
  }

  /** `c.lower()` for ASCII letters. */
  function LowerAscii(c: char): char {
    if 'A' <= c <= 'Z' then (c as int + 32) as char else c
  }

  /** Two drives that name the same drive letter, in either case. */
  predicate SameDrive(d1: string, d2: string) {
    |d1| == 2 && |d2| == 2 && LowerAscii(d1[0]) == LowerAscii(d2[0]) && d1[1] == d2[1]
  }

  /** A part with no drive that does not start at the root: joining it appends it. */
  predicate Relative(plat: Platform, b: string) {
    Drive(plat, b) == [] && (b == [] || b[0] != Sep(plat))
  }

  /** `os.path.join(a, b)`: the path part of `b` after what the join puts in front of it. */
  function Join(plat: Platform, a: string, b: string): string {
    var bd := Drive(plat, b);
    var bp := PathPart(plat, b);
    JoinPrefix(plat, a, bd, bp != [] && bp[0] == Sep(plat)) + bp
  }

  /** What `os.path.join(a, b)` puts in front of the path part of `b`, given the drive `bd`
      of `b` and whether its path part starts at the root:
      - a rooted part keeps the drive of `b`, or else that of `a`, and drops the rest of `a`;
      - a part on another drive than `a` (nt) drops all of `a`;
      - otherwise the drive, then the path of `a`, then one separator unless that path is
        empty or already ends with one. */
  function JoinPrefix(plat: Platform, a: string, bd: string, rooted: bool): string {
    var ad := Drive(plat, a);
    var ap := PathPart(plat, a);
    if rooted then (if bd == [] then ad else bd)
    else if bd != [] && !SameDrive(ad, bd) then bd
    else (if bd == [] then ad else bd) + ap + (if ap == [] || ap[|ap| - 1] == Sep(plat) then [] else [Sep(plat)])
  }

  /** Joining a relative part onto a directory adds one separator between them unless the
      directory is empty, already ends with one, or is a bare drive. */
  lemma JoinRelative(plat: Platform, a: string, b: string)
    requires Relative(plat, b)
    ensures Join(plat, a, b) ==
      if a == [] || a[|a| - 1] == Sep(plat) || (plat == Nt && IsBareDrive(a)) then a + b else a + [Sep(plat)] + b
  {
    var ad := Drive(plat, a);
    var ap := PathPart(plat, a);
    DriveThenPath(plat, a);
    var glue := if ap == [] || ap[|ap| - 1] == Sep(plat) then [] else [Sep(plat)];
    assert Join(plat, a, b) == ad + ap + glue + b;
    assert ad + ap == a;
  }

  /** A path is its drive and its path part; the path part is empty exactly for an empty
      path or a bare drive, and otherwise ends the path. */
  lemma DriveThenPath(plat: Platform, a: string)
    ensures var ad := Drive(plat, a);
      var ap := PathPart(plat, a);
      && a == ad + ap
      && (ap == [] <==> a == [] || (plat == Nt && IsBareDrive(a)))
      && (ap != [] ==> a[|a| - 1] == ap[|ap| - 1])
  {
    if HasDrive(plat, a) {
      assert a == a[..2] + a[2..];
    }
  }

  /** On nt, a part on another drive replaces the directory it is joined onto. */
  lemma JoinOtherDrive(a: string, b: string)
    requires Drive(Nt, b) != [] && !SameDrive(Drive(Nt, a), Drive(Nt, b))
    ensures Join(Nt, a, b) == b
  {
    assert b == Drive(Nt, b) + b[2..];
  }

  /** Joining a relative part never loses the directory in front or the part itself. */
  lemma JoinKeepsBoth(plat: Platform, a: string, b: string)
    requires Relative(plat, b)
    ensures StartsWith(Join(plat, a, b), a)
    ensures EndsWith(Join(plat, a, b), b)
  {
    JoinRelative(plat, a, b);
    var r := Join(plat, a, b);
    assert r[..|a|] == a;
    assert r[|r| - |b|..] == b;
  }

  /** Two relative names joined onto the same directory give the same path only when the
      names are equal. */
  lemma JoinRelativeInjective(plat: Platform, a: string, b1: string, b2: string)
    requires Relative(plat, b1) && Relative(plat, b2)
    requires Join(plat, a, b1) == Join(plat, a, b2)
    ensures b1 == b2
  {
    JoinRelative(plat, a, b1);
    JoinRelative(plat, a, b2);
    var r := Join(plat, a, b1);
    assert b1 == r[|r| - |b1|..];
    assert b2 == r[|r| - |b2|..];
  }

  /** Two names that begin alike (their first three characters fix the drive and whether
      they are rooted) are joined onto the same directory in the same way, so different
      names give different paths. */
  lemma JoinInjective(plat: Platform, a: string, b1: string, b2: string)
    requires |b1| >= 3 && |b2| >= 3 && b1[..3] == b2[..3]
    requires Join(plat, a, b1) == Join(plat, a, b2)
    ensures b1 == b2
  {
    var bd := Drive(plat, b1);
    assert b1[1] == b1[..3][1] && b2[1] == b2[..3][1];
    assert HasDrive(plat, b1) == HasDrive(plat, b2);
    assert Drive(plat, b2) == bd by {
      if bd != [] { assert b1[..2] == b1[..3][..2] && b2[..2] == b2[..3][..2]; }
    }
    var p1, p2 := PathPart(plat, b1), PathPart(plat, b2);
    DriveThenPath(plat, b1);
    DriveThenPath(plat, b2);
    assert p1[0] == p2[0] by {
      if HasDrive(plat, b1) {
        assert p1[0] == b1[2] == b1[..3][2] && p2[0] == b2[2] == b2[..3][2];
      } else {
        assert p1[0] == b1[0] == b1[..3][0] && p2[0] == b2[0] == b2[..3][0];
      }
    }
    var pre := JoinPrefix(plat, a, bd, p1[0] == Sep(plat));
    assert pre + p1 == pre + p2;
    assert p1 == (pre + p1)[|pre|..];
    assert p2 == (pre + p2)[|pre|..];
    assert p1 == p2;
  }

  /** Index just after the last `c` of `s`, or 0 when `s` has none: `s.rfind(c) + 1`. */
  function AfterLastSep(s: string, c: char): (k: nat)
    ensures k <= |s|
    ensures k > 0 ==> s[k - 1] == c
    ensures forall i :: k <= i < |s| ==> s[i] != c
    decreases |s|
  {
    if s == [] then 0
    else if s[|s| - 1] == c then |s|
    else AfterLastSep(s[..|s| - 1], c)
  }

  predicate AllChar(s: string, c: char) {
    forall i :: 0 <= i < |s| ==> s[i] == c
  }

  /** `os.path.basename(p)`: what follows the last separator (after the drive on nt). */
  function Basename(plat: Platform, p: string): (r: string)
    ensures forall i :: 0 <= i < |r| ==> r[i] != Sep(plat)
    ensures EndsWith(p, r)
    ensures |r| <= |p| - |Drive(plat, p)|
    ensures |r| < |p| - |Drive(plat, p)| ==> p[|p| - |r| - 1] == Sep(plat)
  {
    var d := Drive(plat, p);
    var q := p[|d|..];
    DriveShape(plat, p);
    assert q[AfterLastSep(q, Sep(plat))..] == p[|d| + AfterLastSep(q, Sep(plat))..];
    q[AfterLastSep(q, Sep(plat))..]
  }

  /** `os.path.dirname(p)`: what precedes the last separator, with trailing separators
      removed unless nothing but separators is left. A head of only separators is kept
      whole after the drive, and any other head loses exactly the separators that close
      it. */
  function Dirname(plat: Platform, p: string): (r: string)
    ensures StartsWith(p, r) && StartsWith(r, Drive(plat, p))
    ensures |r| <= |p| - |Basename(plat, p)|
    ensures StripsClosingSeps(plat, Drive(plat, p), DirHead(plat, p), r)
  {
    DirPartPrefix(plat, p);
    DirPart(plat, Drive(plat, p), DirHead(plat, p))
  }

  /** The head of a path: what lies between its drive and its basename, which is empty or
      ends with the last separator. */
  function DirHead(plat: Platform, p: string): (head: string)
    ensures |Drive(plat, p)| + |head| == BaseStart(plat, p)
    ensures p[..BaseStart(plat, p)] == Drive(plat, p) + head
  {
    DriveShape(plat, p);
    p[|Drive(plat, p)|..BaseStart(plat, p)]
  }

  /** The directory part of a path is a prefix of it that leaves room for the basename. */
  lemma DirPartPrefix(plat: Platform, p: string)
    ensures var r := DirPart(plat, Drive(plat, p), DirHead(plat, p));
      StartsWith(p, r) && StartsWith(r, Drive(plat, p)) && |r| <= |p| - |Basename(plat, p)|
  {
    var d, head := Drive(plat, p), DirHead(plat, p);
    BasenameAt(plat, p);
    DirPartWithin(plat, p, d, head, BaseStart(plat, p));
  }

  /** The directory part of `d + head` is a prefix of any path that starts with them. */
  lemma DirPartWithin(plat: Platform, p: string, d: string, head: string, i: nat)
    requires i == |d| + |head| <= |p| && p[..i] == d + head
    ensures var r := DirPart(plat, d, head);
      StartsWith(p, r) && StartsWith(r, d) && |r| <= i
  {
    var r := DirPart(plat, d, head);
    assert p[..|r|] == p[..i][..|r|];
  }

  /** `os.path.dirname("/a/b")` is `/a`: the separator before the basename goes. */
  lemma DirnameOfNested()
    ensures Dirname(Posix, "/a/b") == "/a"
  {
    NestedHead();
    NestedHeadStrips();
    DirnameDetermined(Posix, "/a/b", "/a");
  }

  lemma NestedHead()
    ensures Drive(Posix, "/a/b") == [] && DirHead(Posix, "/a/b") == "/a/"
  {
    var p := "/a/b";
    assert AfterLastSep(p, '/') == 3 by {
      assert AfterLastSep(p, '/') == AfterLastSep(p[..3], '/');
    }
  }

  lemma NestedHeadStrips()
    ensures StripsClosingSeps(Posix, [], "/a/", "/a")
  {
    assert "/a/"[1] == 'a';
    assert "/a/"[..2] == "/a";
    assert "/a/"[2..] == "/";
  }

  /** At most one string is `d + head` less the separators that close `head`. */
  lemma StripsUnique(plat: Platform, d: string, head: string, r1: string, r2: string)
    requires StripsClosingSeps(plat, d, head, r1) && StripsClosingSeps(plat, d, head, r2)
    ensures r1 == r2
  {
    if !AllChar(head, Sep(plat)) {
      StripsNoLonger(plat, d, head, r1, r2);
      StripsNoLonger(plat, d, head, r2, r1);
    }
  }

  /** What remains of a head that holds something besides separators ends at its last
      other character, so no stripped candidate is longer than another. */
  lemma StripsNoLonger(plat: Platform, d: string, head: string, r1: string, r2: string)
    requires StripsClosingSeps(plat, d, head, r1) && StripsClosingSeps(plat, d, head, r2)
    requires !AllChar(head, Sep(plat))
    ensures |r2| <= |r1|
  {
    var k1, k2 := |r1| - |d|, |r2| - |d|;
    assert head[k2 - 1] != Sep(plat) by {
      assert r2[|r2| - 1] == head[..k2][k2 - 1];
    }
    forall j | k1 <= j < |head| ensures head[j] == Sep(plat) {
      assert head[k1..][j - k1] == head[j];
    }
  }

  /** The contract of `Dirname` leaves it no choice: any string that meets it is the
      dirname. */
  lemma DirnameDetermined(plat: Platform, p: string, r: string)
    requires StripsClosingSeps(plat, Drive(plat, p), DirHead(plat, p), r)
    ensures r == Dirname(plat, p)
  {
    StripsUnique(plat, Drive(plat, p), DirHead(plat, p), r, Dirname(plat, p));
  }

  /** A head holding something besides separators loses exactly its closing separators. */
  lemma StripsWhenNotAll(plat: Platform, d: string, head: string)
    requires !AllChar(head, Sep(plat))
    ensures StripsClosingSeps(plat, d, head, d + RStrip(head, Sep(plat)))
  {
    var sep := Sep(plat);
    var rs := RStrip(head, sep);
    var j :| 0 <= j < |head| && head[j] != sep;
    assert j < |rs|;
    var r := d + rs;
    assert r[|r| - 1] == rs[|rs| - 1];
    assert head[..|r| - |d|] == rs;
    assert AllChar(head[|r| - |d|..], sep) by {
      forall i | 0 <= i < |head| - |rs| ensures head[|rs|..][i] == sep {
        assert head[|rs|..][i] == head[|rs| + i];
      }
    }
  }

  /** The drive followed by the directory part `head`, trailing separators removed unless
      nothing but separators is left. */
  function DirPart(plat: Platform, d: string, head: string): (r: string)
    ensures |d| <= |r| <= |d| + |head| && r == d + head[..|r| - |d|]
    ensures StripsClosingSeps(plat, d, head, r)
  {
    if head != [] && !AllChar(head, Sep(plat)) then
      StripsWhenNotAll(plat, d, head);
      d + RStrip(head, Sep(plat))
    else d + head
  }

  /** `r` is `d + head` less the separators that close `head`: all of `head` is kept when
      it holds nothing but separators, and otherwise `r` ends just before them. */
  predicate StripsClosingSeps(plat: Platform, d: string, head: string, r: string) {
    && (AllChar(head, Sep(plat)) ==> r == d + head)
    && (!AllChar(head, Sep(plat)) ==>
          && |d| < |r| <= |d| + |head| && r == d + head[..|r| - |d|]
          && r[|r| - 1] != Sep(plat) && AllChar(head[|r| - |d|..], Sep(plat)))
  }

  /** The last separator of `p` is not doubled, and its basename does not start with a
      drive (`C:\\x\\D:y` does not join back). */
  predicate Rejoinable(plat: Platform, p: string) {
    var q := p[|Drive(plat, p)|..];
    var k := AfterLastSep(q, Sep(plat));
    (k < 2 || q[k - 2] != Sep(plat)) && Drive(plat, q[k..]) == []
  }

  /** Stripping a single trailing separator. */
  lemma RStripOne(s: string, c: char)
    requires |s| >= 2 && s[|s| - 1] == c && s[|s| - 2] != c
    ensures RStrip(s, c) == s[..|s| - 1]
  {
    assert RStrip(s, c) == RStrip(s[..|s| - 1], c);
  }

  /** Joining onto a directory that needs a separator. */
  lemma JoinAddsSep(plat: Platform, a: string, b: string)
    requires a != [] && a[|a| - 1] != Sep(plat) && !(plat == Nt && IsBareDrive(a))
    requires Relative(plat, b)
    ensures Join(plat, a, b) == a + [Sep(plat)] + b
  {
    JoinRelative(plat, a, b);
  }

  /** A directory `d + dir` that does not end with a separator gets one back from the join. */
  lemma DirPartJoinStripped(plat: Platform, d: string, dir: string, base: string)
    requires d == [] || (plat == Nt && IsBareDrive(d))
    requires dir != [] && dir[|dir| - 1] != Sep(plat)
    requires Relative(plat, base)
    requires d == [] && plat == Nt && |dir| > 1 ==> dir[1] != ':'
    ensures Join(plat, d + dir, base) == d + (dir + [Sep(plat)]) + base
  {
    var a := d + dir;
    assert a[|a| - 1] == dir[|dir| - 1];
    assert !(plat == Nt && IsBareDrive(a)) by {
      if d == [] { assert a == dir; }
    }
    JoinAddsSep(plat, a, base);
  }

  /** The directory part and a basename after a single separator join back together. */
  lemma DirPartJoin(plat: Platform, d: string, head: string, base: string)
    requires d == [] || (plat == Nt && IsBareDrive(d))
    requires head != [] ==> head[|head| - 1] == Sep(plat)
    requires |head| < 2 || head[|head| - 2] != Sep(plat)
    requires Relative(plat, base)
    requires d == [] && plat == Nt && |head| > 2 ==> head[1] != ':'
    ensures Join(plat, DirPart(plat, d, head), base) == d + head + base
  {
    if head != [] && !AllChar(head, Sep(plat)) {
      DirPartJoinLong(plat, d, head, base);
    } else {
      DirPartJoinKept(plat, d, head, base);
    }
  }

  /** A directory part with something besides separators loses its trailing separator,
      which the join puts back. */
  lemma DirPartJoinLong(plat: Platform, d: string, head: string, base: string)
    requires d == [] || (plat == Nt && IsBareDrive(d))
    requires head != [] && !AllChar(head, Sep(plat))
    requires head[|head| - 1] == Sep(plat)
    requires |head| < 2 || head[|head| - 2] != Sep(plat)
    requires Relative(plat, base)
    requires d == [] && plat == Nt && |head| > 2 ==> head[1] != ':'
    ensures Join(plat, DirPart(plat, d, head), base) == d + head + base
  {
    var sep := Sep(plat);
    var dir := head[..|head| - 1];
    RStripOne(head, sep);
    assert DirPart(plat, d, head) == d + dir;
    assert head == dir + [sep];
    DirPartJoinStripped(plat, d, dir, base);
  }

  /** A directory part that is empty or only separators is kept whole, and the join adds
      nothing after it. */
  lemma DirPartJoinKept(plat: Platform, d: string, head: string, base: string)
    requires d == [] || (plat == Nt && IsBareDrive(d))
    requires head == [] || AllChar(head, Sep(plat))
    requires Relative(plat, base)
    ensures Join(plat, DirPart(plat, d, head), base) == d + head + base
  {
    JoinRelative(plat, d + head, base);
    if head != [] {
      assert (d + head)[|d + head| - 1] == head[|head| - 1];
    } else {
      assert d + head == d;
    }
  }

  /** The index at which a path's basename starts: after the drive and the last separator. */
  function BaseStart(plat: Platform, p: string): (i: nat)
    ensures |Drive(plat, p)| <= i <= |p|
  {
    var d := Drive(plat, p);
    |d| + AfterLastSep(p[|d|..], Sep(plat))
  }

  lemma BasenameAt(plat: Platform, p: string)
    ensures Basename(plat, p) == p[BaseStart(plat, p)..]
  {
    var d := Drive(plat, p);
    var q := p[|d|..];
    assert q[AfterLastSep(q, Sep(plat))..] == p[BaseStart(plat, p)..];
  }

  lemma DirnameAt(plat: Platform, p: string)
    ensures Dirname(plat, p) == DirPart(plat, Drive(plat, p), p[|Drive(plat, p)|..BaseStart(plat, p)])
  {
  }

  /** A path is its drive, its directory part up to the last separator, and its basename. */
  lemma PathParts(plat: Platform, p: string)
    ensures var d := Drive(plat, p);
      p == d + p[|d|..BaseStart(plat, p)] + p[BaseStart(plat, p)..]
  {
    var d := Drive(plat, p);
    assert p[..|d|] == d;
  }

  /** The parts of a path whose last separator is single meet what `DirPartJoin` needs. */
  lemma PathPartsShape(plat: Platform, p: string)
    requires Rejoinable(plat, p)
    ensures var d := Drive(plat, p);
      var head, base := p[|d|..BaseStart(plat, p)], p[BaseStart(plat, p)..];
      && (head != [] ==> head[|head| - 1] == Sep(plat))
      && (|head| < 2 || head[|head| - 2] != Sep(plat))
      && Relative(plat, base)
      && (d == [] && plat == Nt && |head| > 2 ==> head[1] != ':')
  {
    var d := Drive(plat, p);
    var q := p[|d|..];
    var k := AfterLastSep(q, Sep(plat));
    assert p[|d|..BaseStart(plat, p)] == q[..k];
    assert p[BaseStart(plat, p)..] == q[k..];
    if d == [] && plat == Nt && k > 2 {
      assert q == p;
    }
  }

  /** Joining the dirname and the basename of a path gives the path back. */
  lemma DirnameBasenameJoin(plat: Platform, p: string)
    requires Rejoinable(plat, p)
    ensures Join(plat, Dirname(plat, p), Basename(plat, p)) == p
  {
    var d, i := Drive(plat, p), BaseStart(plat, p);
    var head, base := p[|d|..i], p[i..];
    BasenameAt(plat, p);
    DirnameAt(plat, p);
    PathParts(plat, p);
    PathPartsShape(plat, p);
    DirPartJoin(plat, d, head, base);
  }

  /** The value of `SYSTEMDRIVE`, `C:` when it is not set. */
  function SystemDrive(env: map<string, string>): string {
    if "SYSTEMDRIVE" in env then env["SYSTEMDRIVE"] else "C:"
  }

  /** `strip_os_prefix_from_path`: delete every occurrence of the system drive, then every
      leading separator, so that the rest is relative and can be joined under a target. */
  function StripOsPrefix(plat: Platform, env: map<string, string>, path: string): (r: string)
    ensures r == [] || r[0] != Sep(plat)
  {
    LStrip(ReplaceAll(path, SystemDrive(env), []), Sep(plat))
  }

  /** The rewritten path only ever loses characters of the original. */
  lemma StripOsPrefixDeletesOnly(plat: Platform, env: map<string, string>, path: string)
    ensures IsSubsequence(StripOsPrefix(plat, env, path), path)
  {
    var removed := ReplaceAll(path, SystemDrive(env), []);
    var r := StripOsPrefix(plat, env, path);
    RemovalIsSubsequence(path, SystemDrive(env));
    assert IsSubsequence(r, removed[|removed| - |r|..]) by {
      SubsequenceReflexive(r);
    }
    SubsequenceOfSuffix(r, removed, |removed| - |r|);
    SubsequenceTransitive(r, removed, path);
  }

  /** A path that starts with the system drive and holds it nowhere else loses the drive
      and the separators after it: `C:\Windows\Temp` becomes `Windows\Temp`. */
  lemma StripOsPrefixOfDrivePath(plat: Platform, env: map<string, string>, rest: string)
    requires SystemDrive(env) != []
    requires NoMatchBefore(rest, SystemDrive(env), |rest|)
    ensures StripOsPrefix(plat, env, SystemDrive(env) + rest) == LStrip(rest, Sep(plat))
  {
    var drive := SystemDrive(env);
    ReplaceLeading(drive, rest, []);
    ReplaceAbsent(rest, drive, []);
    assert ReplaceAll(drive + rest, drive, []) == rest;
  }

  /** A path without the system drive only loses its leading separators:
      `/var/log` becomes `var/log`. */
  lemma StripOsPrefixOfPlainPath(plat: Platform, env: map<string, string>, path: string)
    requires SystemDrive(env) != []
    requires NoMatchBefore(path, SystemDrive(env), |path|)
    ensures StripOsPrefix(plat, env, path) == LStrip(path, Sep(plat))
  {
    ReplaceAbsent(path, SystemDrive(env), []);
  }

  /** The directory a source directory is mirrored to lies under the target, as long as
      the rewritten path carries no drive (always so on posix). */
  lemma MirroredUnderTarget(plat: Platform, env: map<string, string>, targetdir: string, dirpath: string)
    requires Drive(plat, StripOsPrefix(plat, env, dirpath)) == []
    ensures StartsWith(Join(plat, targetdir, StripOsPrefix(plat, env, dirpath)), targetdir)
  {
    JoinKeepsBoth(plat, targetdir, StripOsPrefix(plat, env, dirpath));
  }

  /** A directory on another drive than the system drive keeps its drive through the
      rewriting, and the join then drops the target: `D:\\logs` is mirrored onto itself. */
  lemma OtherDriveMirrorsOntoItself()
    ensures StripOsPrefix(Nt, map[], "D:\\logs") == "D:\\logs"
    ensures Join(Nt, "C:\\t", StripOsPrefix(Nt, map[], "D:\\logs")) == "D:\\logs"
  {
    var path := "D:\\logs";
    assert NoMatchBefore(path, "C:", |path|) by {
      forall i | 0 <= i < |path| ensures !OccursAt(path, "C:", i) {
        assert path[i] != 'C';
      }
    }
    ReplaceAbsent(path, "C:", []);
    assert LStrip(path, '\\') == path;
    JoinOtherDrive("C:\\t", path);
  }

  /** The rewriting as evidently intended: also drop any drive left at the front (and the
      separators after it), so that what remains is relative. */
  function Relativize(plat: Platform, p: string): (r: string)
    ensures Relative(plat, r)
    decreases |p|
  {
    var q := LStrip(p, Sep(plat));
    if Drive(plat, q) == [] then q else Relativize(plat, q[2..])
  }

  /** With the intended rewriting every source directory is mirrored under the target. */
  lemma RelativizedMirrorUnderTarget(plat: Platform, env: map<string, string>, targetdir: string, dirpath: string)
    ensures StartsWith(Join(plat, targetdir, Relativize(plat, StripOsPrefix(plat, env, dirpath))), targetdir)
  {
    JoinKeepsBoth(plat, targetdir, Relativize(plat, StripOsPrefix(plat, env, dirpath)));
  }
}
