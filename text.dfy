/** String operations with Python's `str` semantics: `replace`, `lstrip`/`rstrip` of one
    character, and `split`/`join` on one character. */
module Text {
  import opened Seqs

  /** `s.startswith(p)` */
  predicate StartsWith(s: string, p: string) {
    |p| <= |s| && s[..|p|] == p
  }

  /** `s.endswith(p)` */
  predicate EndsWith(s: string, p: string) {
    |p| <= |s| && s[|s| - |p|..] == p
  }

  /** `pat` occurs in `s` starting at index `i`. */
  predicate OccursAt(s: string, pat: string, i: int) {
    0 <= i <= |s| && StartsWith(s[i..], pat)
  }

  /** No occurrence of `pat` in `s` starts before index `k`. */
  predicate NoMatchBefore(s: string, pat: string, k: int) {
    forall i :: 0 <= i < k ==> !OccursAt(s, pat, i)
  }

  /** `s.replace(pat, repl)`: a left-to-right scan that replaces non-overlapping occurrences.
      An empty `pat` inserts `repl` before every character and at the end, as Python does. */
  function ReplaceAll(s: string, pat: string, repl: string): string
    decreases |s|
  {
    if pat == [] then
      (if s == [] then repl else repl + [s[0]] + ReplaceAll(s[1..], pat, repl))
    else if StartsWith(s, pat) then
      repl + ReplaceAll(s[|pat|..], pat, repl)
    else if s == [] then []
    else [s[0]] + ReplaceAll(s[1..], pat, repl)
  }

  /** An empty pattern matches before every character and at the end; a replacement no
      longer than the pattern never lengthens the text, and one of the same length keeps
      its length. */
  lemma {:induction false} ReplaceAllLength(s: string, pat: string, repl: string)
    ensures pat == [] ==> |ReplaceAll(s, pat, repl)| == |s| + (|s| + 1) * |repl|
    ensures pat != [] && |repl| <= |pat| ==> |ReplaceAll(s, pat, repl)| <= |s|
    ensures pat != [] && |repl| == |pat| ==> |ReplaceAll(s, pat, repl)| == |s|
    decreases |s|
  {
    if pat == [] {
      if s != [] {
        ReplaceAllLength(s[1..], pat, repl);
        assert |ReplaceAll(s, pat, repl)| == |repl| + 1 + (|s| - 1) + |s| * |repl|;
      }
    } else if StartsWith(s, pat) {
      ReplaceAllLength(s[|pat|..], pat, repl);
    } else if s != [] {
      ReplaceAllLength(s[1..], pat, repl);
    }
  }

  /** Dropping the first character shifts every occurrence one place to the left. */
  lemma NoMatchShift(s: string, pat: string, k: int)
    requires s != [] && k >= 1
    requires NoMatchBefore(s, pat, k)
    ensures NoMatchBefore(s[1..], pat, k - 1)
  {
    forall i | 0 <= i < k - 1 ensures !OccursAt(s[1..], pat, i) {
      assert !OccursAt(s, pat, i + 1);
      if i <= |s[1..]| {
        assert s[1..][i..] == s[i + 1..];
      }
    }
  }

  /** A character that does not start an occurrence is copied. */
  lemma ReplaceCopiesFirst(s: string, pat: string, repl: string)
    requires pat != [] && s != [] && !StartsWith(s, pat)
    ensures ReplaceAll(s, pat, repl) == [s[0]] + ReplaceAll(s[1..], pat, repl)
  {
  }

  /** Putting the first character back in front of a split of the rest. */
  lemma ConsPrefix(s: string, k: int, tail: string)
    requires 1 <= k <= |s|
    ensures [s[0]] + (s[1..][..k - 1] + tail) == s[..k] + tail
  {
    assert [s[0]] + s[1..][..k - 1] == s[..k];
  }

  /** Where no occurrence starts in the first `k` characters, the scan copies them unchanged. */
  lemma {:induction false} ReplaceSkipsCleanPrefix(s: string, k: int, pat: string, repl: string)
    requires pat != [] && 0 <= k <= |s|
    requires NoMatchBefore(s, pat, k)
    ensures ReplaceAll(s, pat, repl) == s[..k] + ReplaceAll(s[k..], pat, repl)
    decreases k
  {
    if k == 0 {
      assert s[0..] == s;
    } else {
      assert !OccursAt(s, pat, 0);
      assert s[0..] == s;
      NoMatchShift(s, pat, k);
      ReplaceSkipsCleanPrefix(s[1..], k - 1, pat, repl);
      ReplaceCopiesFirst(s, pat, repl);
      assert s[1..][k - 1..] == s[k..];
      ConsPrefix(s, k, ReplaceAll(s[k..], pat, repl));
    }
  }

  /** A string without an occurrence of a non-empty `pat` is left as it is. */
  lemma ReplaceAbsent(s: string, pat: string, repl: string)
    requires pat != []
    requires NoMatchBefore(s, pat, |s|)
    ensures ReplaceAll(s, pat, repl) == s
  {
    ReplaceSkipsCleanPrefix(s, |s|, pat, repl);
    assert s[..|s|] == s;
    assert s[|s|..] == [];
  }

  /** A leading occurrence is replaced. */
  lemma ReplaceLeading(pat: string, t: string, repl: string)
    requires pat != []
    ensures ReplaceAll(pat + t, pat, repl) == repl + ReplaceAll(t, pat, repl)
  {
    assert (pat + t)[..|pat|] == pat;
    assert (pat + t)[|pat|..] == t;
  }

  /** An occurrence at the very end, and none before it, is the only one replaced. */
  lemma ReplaceAtEnd(base: string, pat: string, repl: string)
    requires pat != []
    requires NoMatchBefore(base + pat, pat, |base|)
    ensures ReplaceAll(base + pat, pat, repl) == base + repl
  {
    var s := base + pat;
    ReplaceSkipsCleanPrefix(s, |base|, pat, repl);
    assert s[..|base|] == base && s[|base|..] == pat;
    ReplaceLeading(pat, [], repl);
    assert pat + [] == pat;
    assert ReplaceAll([], pat, repl) == [];
    assert repl + [] == repl;
  }

  /** Removing text (replacing it by nothing) only deletes characters: the result is an
      order-preserving sub-list of the input. */
  lemma {:induction false} RemovalIsSubsequence(s: string, pat: string)
    ensures IsSubsequence(ReplaceAll(s, pat, []), s)
    decreases |s|
  {
    if pat == [] {
      if s != [] {
        RemovalIsSubsequence(s[1..], pat);
        assert ReplaceAll(s, pat, [])[1..] == ReplaceAll(s[1..], pat, []);
      }
    } else if StartsWith(s, pat) {
      RemovalIsSubsequence(s[|pat|..], pat);
      assert ReplaceAll(s, pat, []) == ReplaceAll(s[|pat|..], pat, []);
      SubsequenceOfSuffix(ReplaceAll(s[|pat|..], pat, []), s, |pat|);
    } else if s != [] {
      RemovalIsSubsequence(s[1..], pat);
      assert ReplaceAll(s, pat, [])[1..] == ReplaceAll(s[1..], pat, []);
    }
  }

  /** `s.lstrip(c)` */
  function LStrip(s: string, c: char): (r: string)
    ensures r == [] || r[0] != c
    ensures |r| <= |s| && r == s[|s| - |r|..]
    ensures forall i :: 0 <= i < |s| - |r| ==> s[i] == c
    decreases |s|
  {
    if s != [] && s[0] == c then LStrip(s[1..], c) else s
  }

  /** `s.rstrip(c)` */
  function RStrip(s: string, c: char): (r: string)
    ensures r == [] || r[|r| - 1] != c
    ensures |r| <= |s| && r == s[..|r|]
    ensures forall i :: |r| <= i < |s| ==> s[i] == c
    decreases |s|
  {
    if s != [] && s[|s| - 1] == c then RStrip(s[..|s| - 1], c) else s
  }

  /** The index of the first `c` in `s`, or `|s|` when there is none. */
  function FirstIndexOf(s: string, c: char): (k: nat)
    ensures k <= |s| && (k < |s| ==> s[k] == c)
    ensures forall i :: 0 <= i < k ==> s[i] != c
    decreases |s|
  {
    if s == [] || s[0] == c then 0 else 1 + FirstIndexOf(s[1..], c)
  }

  /** `s.split(c)`: the pieces between the occurrences of `c`; never empty. */
  function Split(s: string, c: char): (r: seq<string>)
    ensures |r| >= 1
    decreases |s|
  {
    var k := FirstIndexOf(s, c);
    if k == |s| then [s] else [s[..k]] + Split(s[k + 1..], c)
  }

  /** `c.join(pieces)` */
  function JoinWith(pieces: seq<string>, c: char): string
    decreases |pieces|
  {
    if pieces == [] then []
    else if |pieces| == 1 then pieces[0]
    else pieces[0] + [c] + JoinWith(pieces[1..], c)
  }

  /** No piece of a split holds the character split on. */
  lemma {:induction false} SplitPiecesLackSeparator(s: string, c: char)
    ensures forall i :: 0 <= i < |Split(s, c)| ==> c !in Split(s, c)[i]
    decreases |s|
  {
    var k := FirstIndexOf(s, c);
    if k < |s| {
      SplitAtFirst(s, c);
      SplitPiecesLackSeparator(s[k + 1..], c);
    }
  }

  /** A join starts with the first piece and ends with the last one. */
  lemma {:induction false} JoinWithEnds(pieces: seq<string>, c: char)
    requires pieces != []
    ensures StartsWith(JoinWith(pieces, c), pieces[0])
    ensures EndsWith(JoinWith(pieces, c), pieces[|pieces| - 1])
    decreases |pieces|
  {
    if |pieces| > 1 {
      JoinWithEnds(pieces[1..], c);
      var r := JoinWith(pieces, c);
      var tail := JoinWith(pieces[1..], c);
      assert r == pieces[0] + [c] + tail;
      assert r[..|pieces[0]|] == pieces[0];
      assert r[|r| - |tail|..] == tail;
    }
  }

  /** Splitting and joining again on the same character gives back the original string. */
  lemma {:induction false} JoinSplit(s: string, c: char)
    ensures JoinWith(Split(s, c), c) == s
    decreases |s|
  {
    var k := FirstIndexOf(s, c);
    if k < |s| {
      var rest := Split(s[k + 1..], c);
      calc {
        JoinWith(Split(s, c), c);
        { SplitAtFirst(s, c); }
        JoinWith([s[..k]] + rest, c);
        { JoinCons(s[..k], rest, c); }
        s[..k] + [c] + JoinWith(rest, c);
        { JoinSplit(s[k + 1..], c); }
        s[..k] + [c] + s[k + 1..];
        { assert s == s[..k] + [c] + s[k + 1..]; }
        s;
      }
    }
  }

  /** A separator found in `s` ends its first piece. */
  lemma SplitAtFirst(s: string, c: char)
    requires FirstIndexOf(s, c) < |s|
    ensures Split(s, c) == [s[..FirstIndexOf(s, c)]] + Split(s[FirstIndexOf(s, c) + 1..], c)
  {
  }

  lemma JoinCons(piece: string, rest: seq<string>, c: char)
    requires |rest| >= 1
    ensures JoinWith([piece] + rest, c) == piece + [c] + JoinWith(rest, c)
  {
    assert ([piece] + rest)[1..] == rest;
  }

  /** The first piece of a split is the text before the first `c`. */
  lemma SplitHead(s: string, c: char)
    ensures Split(s, c)[0] == s[..FirstIndexOf(s, c)]
    ensures StartsWith(s, Split(s, c)[0]) && c !in Split(s, c)[0]
    ensures |Split(s, c)[0]| < |s| ==> s[|Split(s, c)[0]|] == c
  {
  }
}
