/** Sequence helpers: list comprehensions with a condition, and order-preserving sub-lists. */
module Seqs {

  /** `[x for x in s if keep(x)]` */
  function Filter<T>(s: seq<T>, keep: T -> bool): (r: seq<T>)
    ensures |r| <= |s|
    ensures forall i :: 0 <= i < |r| ==> keep(r[i])
  {
    if s == [] then []
    else if keep(s[0]) then [s[0]] + Filter(s[1..], keep)
    else Filter(s[1..], keep)
  }

  /** `r` is obtained from `s` by deleting elements, keeping the order of the rest. */
  predicate IsSubsequence<T(==)>(r: seq<T>, s: seq<T>)
    decreases |s|
  {
    if s == [] then r == []
    else IsSubsequence(r, s[1..]) || (r != [] && r[0] == s[0] && IsSubsequence(r[1..], s[1..]))
  }

  lemma {:induction false} SubsequenceReflexive<T>(s: seq<T>)
    ensures IsSubsequence(s, s)
    decreases |s|
  {
    if s != [] {
      SubsequenceReflexive(s[1..]);
    }
  }

  /** A sub-list of a suffix of `s` is a sub-list of `s`. */
  lemma {:induction false} SubsequenceOfSuffix<T>(r: seq<T>, s: seq<T>, k: nat)
    requires k <= |s|
    requires IsSubsequence(r, s[k..])
    ensures IsSubsequence(r, s)
    decreases k
  {
    if k > 0 {
      assert s[k - 1..][1..] == s[k..];
      SubsequenceOfSuffix(r, s, k - 1);
    }
  }

  lemma {:induction false} SubsequenceTransitive<T>(a: seq<T>, b: seq<T>, c: seq<T>)
    requires IsSubsequence(a, b) && IsSubsequence(b, c)
    ensures IsSubsequence(a, c)
    decreases |c|
  {
    if c != [] {
      if IsSubsequence(b, c[1..]) {
        SubsequenceTransitive(a, b, c[1..]);
      } else if IsSubsequence(a, b[1..]) {
        SubsequenceTransitive(a, b[1..], c[1..]);
      } else {
        SubsequenceTransitive(a[1..], b[1..], c[1..]);
      }
    }
  }

  lemma {:induction false} FilterIsSubsequence<T>(s: seq<T>, keep: T -> bool)
    ensures IsSubsequence(Filter(s, keep), s)
    decreases |s|
  {
    if s != [] {
      FilterIsSubsequence(s[1..], keep);
      if keep(s[0]) {
        assert Filter(s, keep)[1..] == Filter(s[1..], keep);
      }
    }
  }

  /** An element survives the filter exactly when it is in the input and satisfies the condition. */
  lemma {:induction false} FilterMembership<T>(s: seq<T>, keep: T -> bool, x: T)
    ensures x in Filter(s, keep) <==> x in s && keep(x)
    decreases |s|
  {
    if s != [] {
      FilterMembership(s[1..], keep, x);
      assert x in s <==> x == s[0] || x in s[1..];
    }
  }

  lemma FilterMembershipAll<T>(s: seq<T>, keep: T -> bool)
    ensures forall x :: x in Filter(s, keep) <==> x in s && keep(x)
  {
    forall x ensures x in Filter(s, keep) <==> x in s && keep(x) {
      FilterMembership(s, keep, x);
    }
  }

  /** The first survivor of a filter is the first element of the input that satisfies the condition. */
  lemma {:induction false} FilterHead<T>(s: seq<T>, keep: T -> bool)
    ensures Filter(s, keep) == [] <==> forall j :: 0 <= j < |s| ==> !keep(s[j])
    ensures Filter(s, keep) != [] ==>
      exists k :: 0 <= k < |s| && s[k] == Filter(s, keep)[0] && keep(s[k]) &&
        forall j :: 0 <= j < k ==> !keep(s[j])
    decreases |s|
  {
    if s != [] && !keep(s[0]) {
      FilterHead(s[1..], keep);
      if Filter(s, keep) != [] {
        var k :| 0 <= k < |s[1..]| && s[1..][k] == Filter(s[1..], keep)[0] && keep(s[1..][k]) &&
          forall j :: 0 <= j < k ==> !keep(s[1..][j]);
        assert s[k + 1] == Filter(s, keep)[0];
        assert forall j :: 0 <= j < k + 1 ==> !keep(s[j]) by {
          forall j | 0 <= j < k + 1 ensures !keep(s[j]) {
            if j > 0 { assert s[j] == s[1..][j - 1]; }
          }
        }
      } else {
        forall j | 0 <= j < |s| ensures !keep(s[j]) {
          if j > 0 { assert s[j] == s[1..][j - 1]; }
        }
      }
    }
  }

  /** Filtering by `p` and then by `q` is filtering once by a condition `both` that holds
      where both hold. */
  lemma {:induction false} FilterTwice<T>(s: seq<T>, p: T -> bool, q: T -> bool, both: T -> bool)
    requires forall i :: 0 <= i < |s| ==> both(s[i]) == (p(s[i]) && q(s[i]))
    ensures Filter(Filter(s, p), q) == Filter(s, both)
    decreases |s|
  {
    if s != [] {
      FilterTwice(s[1..], p, q, both);
      if p(s[0]) {
        assert Filter(s, p)[1..] == Filter(s[1..], p);
      }
    }
  }

  /** Filtering depends only on what the condition says about the elements of `s`. */
  lemma {:induction false} FilterSameOn<T>(s: seq<T>, p: T -> bool, q: T -> bool)
    requires forall i :: 0 <= i < |s| ==> p(s[i]) == q(s[i])
    ensures Filter(s, p) == Filter(s, q)
    decreases |s|
  {
    if s != [] {
      FilterSameOn(s[1..], p, q);
    }
  }

  /** `s[i]` is the only element of `s` that satisfies the condition. */
  predicate OnlyKept<T>(s: seq<T>, keep: T -> bool, i: int) {
    0 <= i < |s| && keep(s[i]) && forall j :: 0 <= j < |s| && j != i ==> !keep(s[j])
  }

  lemma {:induction false} FilterOfOnlyKept<T>(s: seq<T>, keep: T -> bool, i: int)
    requires OnlyKept(s, keep, i)
    ensures Filter(s, keep) == [s[i]]
    decreases |s|
  {
    var rest := s[1..];
    if i == 0 {
      FilterHead(rest, keep);
      forall j | 0 <= j < |rest| ensures !keep(rest[j]) {
        assert rest[j] == s[j + 1];
      }
    } else {
      assert !keep(s[0]);
      forall j | 0 <= j < |rest| && j != i - 1 ensures !keep(rest[j]) {
        assert rest[j] == s[j + 1];
      }
      FilterOfOnlyKept(rest, keep, i - 1);
    }
  }

  lemma {:induction false} SingleSurvivorIsOnlyKept<T>(s: seq<T>, keep: T -> bool)
    requires |Filter(s, keep)| == 1
    ensures exists i :: OnlyKept(s, keep, i) && s[i] == Filter(s, keep)[0]
    decreases |s|
  {
    var rest := s[1..];
    if keep(s[0]) {
      FilterHead(rest, keep);
      forall j | 0 <= j < |s| && j != 0 ensures !keep(s[j]) {
        assert s[j] == rest[j - 1];
      }
      assert OnlyKept(s, keep, 0);
    } else {
      SingleSurvivorIsOnlyKept(rest, keep);
      var i :| OnlyKept(rest, keep, i) && rest[i] == Filter(rest, keep)[0];
      forall j | 0 <= j < |s| && j != i + 1 ensures !keep(s[j]) {
        if j > 0 { assert s[j] == rest[j - 1]; }
      }
      assert OnlyKept(s, keep, i + 1);
    }
  }

  /** Exactly one element survives the filter exactly when exactly one element of the
      input satisfies the condition, and that element is the survivor. */
  lemma FilterUnique<T>(s: seq<T>, keep: T -> bool)
    ensures |Filter(s, keep)| == 1 <==> exists i :: OnlyKept(s, keep, i)
    ensures forall i :: OnlyKept(s, keep, i) ==> Filter(s, keep) == [s[i]]
  {
    forall i | OnlyKept(s, keep, i) ensures Filter(s, keep) == [s[i]] {
      FilterOfOnlyKept(s, keep, i);
    }
    if |Filter(s, keep)| == 1 {
      SingleSurvivorIsOnlyKept(s, keep);
    }
  }
}
