/**
 * `uksort($params, 'strcasecmp')`: ordering an array by its keys, compared
 * case-insensitively. The in-place method is the sort the client runs; the
 * functional insertion sort is the reference it is proved against.
 */
module KeySort {
  import opened PhpString
  import opened ParamList

  /** The key of a does not come after the key of b under strcasecmp. */
  predicate KeyLe(a: Pair, b: Pair) {
    CaseCompare(a.0, b.0) <= 0
  }

  predicate SortedByKey(s: Params) {
    forall i, j :: 0 <= i < j < |s| ==> KeyLe(s[i], s[j])
  }

  /** Entries whose keys are equal up to ASCII case are the same entry, so
      the case-insensitive order leaves no ties to break. */
  predicate CaseDistinct(s: Params) {
    forall p, q :: p in s && q in s && CaseCompare(p.0, q.0) == 0 ==> p == q
  }

  lemma KeyLeTotal(a: Pair, b: Pair)
    ensures KeyLe(a, b) || KeyLe(b, a)
  {
    CaseCompareFlip(a.0, b.0);
  }

  /** Inserts x into a sorted list just after the last entry that does not
      come after it, so x follows every entry whose key equals its own up to
      case: ties keep the order in which they arrive. */
  function InsertAfter(x: Pair, s: Params): (r: Params)
    ensures SortedByKey(s) ==> SortedByKey(r)
    ensures multiset(r) == multiset(s) + multiset{x}
    decreases |s|
  {
    if s == [] || KeyLe(s[|s| - 1], x) then
      AppendSorted(x, s);
      s + [x]
    else
      var rest := InsertAfter(x, s[..|s| - 1]);
      InsertAhead(x, s, rest);
      rest + [s[|s| - 1]]
  }

  lemma AppendSorted(x: Pair, s: Params)
    requires s == [] || KeyLe(s[|s| - 1], x)
    ensures SortedByKey(s) ==> SortedByKey(s + [x])
  {
    if !SortedByKey(s) { return; }
    forall i | 0 <= i < |s| ensures KeyLe(s[i], x) {
      if i < |s| - 1 { CaseCompareTransitive(s[i].0, s[|s| - 1].0, x.0); }
    }
    var r := s + [x];
    forall i, j | 0 <= i < j < |r| ensures KeyLe(r[i], r[j]) {
      assert r[i] == s[i];
      if j < |s| { assert r[j] == s[j]; }
    }
  }

  lemma InsertAhead(x: Pair, s: Params, rest: Params)
    requires s != [] && !KeyLe(s[|s| - 1], x)
    requires SortedByKey(s[..|s| - 1]) ==> SortedByKey(rest)
    requires multiset(rest) == multiset(s[..|s| - 1]) + multiset{x}
    ensures SortedByKey(s) ==> SortedByKey(rest + [s[|s| - 1]])
    ensures multiset(rest + [s[|s| - 1]]) == multiset(s) + multiset{x}
  {
    var last := s[|s| - 1];
    assert s == s[..|s| - 1] + [last];
    if !SortedByKey(s) { return; }
    KeyLeTotal(last, x);
    forall i | 0 <= i < |rest| ensures KeyLe(rest[i], last) {
      assert rest[i] in multiset(rest);
      if rest[i] != x {
        assert rest[i] in s[..|s| - 1];
      }
    }
    var r := rest + [last];
    forall i, j | 0 <= i < j < |r| ensures KeyLe(r[i], r[j]) {
      assert r[i] == rest[i];
      if j < |rest| { assert r[j] == rest[j]; }
    }
  }

  /** The reference sort: insertion sort over a sequence, taking the entries
      from first to last, so entries with equal keys keep their input order. */
  function KeySorted(s: Params): (r: Params)
    ensures SortedByKey(r)
    ensures multiset(r) == multiset(s)
  {
    if s == [] then []
    else
      assert s == s[..|s| - 1] + [s[|s| - 1]];
      InsertAfter(s[|s| - 1], KeySorted(s[..|s| - 1]))
  }

  /** When no two keys agree up to case, there is only one way to sort by key:
      any two sorted arrangements of the same entries are equal. */
  lemma {:induction false} SortedUnique(s: Params, t: Params)
    requires SortedByKey(s) && SortedByKey(t)
    requires multiset(s) == multiset(t)
    requires CaseDistinct(s)
    ensures s == t
  {
    if s != [] {
      assert |t| == |multiset(t)| == |s|;
      var x, y := s[0], t[0];
      assert x in multiset(t) && y in multiset(s);
      var m :| 0 <= m < |s| && s[m] == y;
      var k :| 0 <= k < |t| && t[k] == x;
      assert KeyLe(x, y) by {
        if m > 0 { assert KeyLe(s[0], s[m]); }
      }
      assert KeyLe(y, x) by {
        if k > 0 { assert KeyLe(t[0], t[k]); }
      }
      CaseCompareFlip(x.0, y.0);
      assert x == y;
      TailPermutation(s, t);
      assert CaseDistinct(s[1..]) by {
        forall p, q | p in s[1..] && q in s[1..] && CaseCompare(p.0, q.0) == 0 ensures p == q {
          assert p in s && q in s;
        }
      }
      SortedUnique(s[1..], t[1..]);
    }
  }

  lemma TailPermutation(s: Params, t: Params)
    requires s != [] && t != [] && s[0] == t[0]
    requires multiset(s) == multiset(t)
    ensures multiset(s[1..]) == multiset(t[1..])
  {
    assert s == [s[0]] + s[1..] && t == [t[0]] + t[1..];
    calc {
      multiset(s[1..]);
      multiset(s) - multiset{s[0]};
      multiset(t) - multiset{t[0]};
      multiset(t[1..]);
    }
  }

  lemma CaseDistinctPermutation(s: Params, t: Params)
    requires multiset(s) == multiset(t) && CaseDistinct(s)
    ensures CaseDistinct(t)
  {
    forall p, q | p in t && q in t && CaseCompare(p.0, q.0) == 0 ensures p == q {
      assert p in multiset(s) && q in multiset(s);
    }
  }

  /** Where InsertAfter puts x: right after the first j entries, when the
      j-th entry does not come after x and every later one does. */
  lemma {:induction false} InsertAfterAt(x: Pair, s: Params, j: int)
    requires 0 <= j <= |s|
    requires j == 0 || KeyLe(s[j - 1], x)
    requires forall m :: j <= m < |s| ==> !KeyLe(s[m], x)
    ensures InsertAfter(x, s) == s[..j] + [x] + s[j..]
    decreases |s|
  {
    if j == |s| {
      InsertAfterEnd(x, s);
      assert s[..j] == s && s[j..] == [];
    } else {
      var init := s[..|s| - 1];
      DropLast(s, j);
      InsertAfterLast(x, s);
      InsertAfterAt(x, init, j);
      Regroup(init[..j], x, init[j..], s[|s| - 1]);
    }
  }

  lemma InsertAfterEnd(x: Pair, s: Params)
    requires s == [] || KeyLe(s[|s| - 1], x)
    ensures InsertAfter(x, s) == s + [x]
  {
  }

  lemma InsertAfterLast(x: Pair, s: Params)
    requires s != [] && !KeyLe(s[|s| - 1], x)
    ensures InsertAfter(x, s) == InsertAfter(x, s[..|s| - 1]) + [s[|s| - 1]]
  {
  }

  lemma Regroup<T>(p: seq<T>, x: T, q: seq<T>, y: T)
    ensures p + [x] + q + [y] == p + [x] + (q + [y])
  {
  }

  lemma DropLast<T>(s: seq<T>, j: int)
    requires 0 <= j < |s|
    ensures s[..|s| - 1][..j] == s[..j]
    ensures s[j..] == s[..|s| - 1][j..] + [s[|s| - 1]]
    ensures forall m :: j <= m < |s| - 1 ==> s[..|s| - 1][m] == s[m]
  {
  }

  lemma SameFrom<T>(u: seq<T>, v: seq<T>, k: int)
    requires 0 <= k <= |u| == |v|
    requires forall m :: k <= m < |u| ==> u[m] == v[m]
    ensures u[k..] == v[k..]
  {
  }

  /** u is s with x put in at position j. */
  lemma Spliced<T>(u: seq<T>, s: seq<T>, x: T, j: int)
    requires 0 <= j <= |s| && |u| == |s| + 1 && u[j] == x
    requires forall m :: 0 <= m < j ==> u[m] == s[m]
    requires forall m :: j < m < |u| ==> u[m] == s[m - 1]
    ensures u == s[..j] + [x] + s[j..]
  {
  }

  /** The loop of an insertion step: moves a[i] down, by adjacent swaps, past
      the entries before it that come strictly after it, and returns where it
      stops. Only a[j..i + 1] moves, one place to the right. */
  method SiftDown(a: array<Pair>, i: int) returns (j: int)
    requires 0 <= i < a.Length
    modifies a
    ensures 0 <= j <= i && a[j] == old(a[i])
    ensures forall m :: 0 <= m < j ==> a[m] == old(a[m])
    ensures forall m :: j < m <= i ==> a[m] == old(a[m - 1])
    ensures forall m :: i < m < a.Length ==> a[m] == old(a[m])
    ensures j == 0 || KeyLe(old(a[j - 1]), old(a[i]))
    ensures forall m :: j <= m < i ==> !KeyLe(old(a[m]), old(a[i]))
  {
    j := i;
    while j > 0 && !KeyLe(a[j - 1], a[j])
      invariant 0 <= j <= i && a[j] == old(a[i])
      invariant forall m :: 0 <= m < j ==> a[m] == old(a[m])
      invariant forall m :: j < m <= i ==> a[m] == old(a[m - 1])
      invariant forall m :: i < m < a.Length ==> a[m] == old(a[m])
      invariant forall m :: j <= m < i ==> !KeyLe(old(a[m]), old(a[i]))
    {
      a[j - 1], a[j] := a[j], a[j - 1];
      j := j - 1;
    }
  }

  /** One step of the in-place sort: a[i] joins a[..i] the way the reference
      sort inserts an entry, and the rest of the array stays as it was. */
  method InsertInPlace(a: array<Pair>, i: int)
    requires 0 <= i < a.Length
    modifies a
    ensures a[..i + 1] == InsertAfter(old(a[i]), old(a[..i]))
    ensures a[i + 1..] == old(a[i + 1..])
  {
    ghost var x, s := a[i], a[..i];
    var j := SiftDown(a, i);
    InsertAfterAt(x, s, j);
    Spliced(a[..i + 1], s, x, j);
    SameFrom(a[..], old(a[..]), i + 1);
  }

  /** The in-place sort run by uksort, as an insertion sort: it yields exactly
      the reference sort, entries with keys equal up to case in input order. */
  method SortByKey(a: array<Pair>)
    modifies a
    ensures a[..] == KeySorted(old(a[..]))
    ensures SortedByKey(a[..])
    ensures multiset(a[..]) == multiset(old(a[..]))
  {
    ghost var s := a[..];
    var i := 0;
    while i < a.Length
      invariant 0 <= i <= a.Length
      invariant a[..i] == KeySorted(s[..i])
      invariant a[i..] == s[i..]
    {
      ghost var before := a[..];
      SuffixStep(before, s, i);
      KeySortedStep(s, i);
      InsertInPlace(a, i);
      i := i + 1;
    }
    assert a[..] == a[..a.Length] && s == s[..a.Length];
  }

  /** The reference sort of one more entry inserts that entry into the sort
      of the ones before it. */
  lemma KeySortedStep(s: Params, i: int)
    requires 0 <= i < |s|
    ensures KeySorted(s[..i + 1]) == InsertAfter(s[i], KeySorted(s[..i]))
  {
    var t := s[..i + 1];
    assert t[..|t| - 1] == s[..i] && t[|t| - 1] == s[i];
  }

  lemma SuffixStep<T>(u: seq<T>, v: seq<T>, i: int)
    requires 0 <= i < |u| == |v| && u[i..] == v[i..]
    ensures u[i] == v[i] && u[i + 1..] == v[i + 1..]
  {
    assert u[i] == u[i..][0] && v[i] == v[i..][0];
    assert u[i + 1..] == u[i..][1..] && v[i + 1..] == v[i..][1..];
  }
}
