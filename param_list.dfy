/**
 * A PHP associative array of request parameters: an ordered list of
 * (key, value) pairs with distinct keys. Values are the strings PHP produces
 * when it joins or encodes them.
 */
module ParamList {
  import opened Wrappers

  type Pair = (string, string)
  type Params = seq<Pair>

  function Keys(ps: Params): seq<string> {
    seq(|ps|, i requires 0 <= i < |ps| => ps[i].0)
  }

  function Values(ps: Params): seq<string> {
    seq(|ps|, i requires 0 <= i < |ps| => ps[i].1)
  }

  /** No key occurs twice, as in every PHP array. */
  predicate DistinctKeys(ps: Params) {
    forall i, j :: 0 <= i < j < |ps| ==> ps[i].0 != ps[j].0
  }

  /** The position of the first entry with key k, or -1 when there is none. */
  function KeyIndex(ps: Params, k: string): (i: int)
    ensures -1 <= i < |ps|
    ensures i >= 0 ==> ps[i].0 == k
    ensures i < 0 <==> k !in Keys(ps)
  {
    if ps == [] then -1
    else if ps[0].0 == k then
      assert Keys(ps)[0] == k;
      0
    else
      var j := KeyIndex(ps[1..], k);
      assert Keys(ps) == [ps[0].0] + Keys(ps[1..]);
      if j < 0 then -1 else j + 1
  }

  /**
   * The assignment `$params[k] = v`: an existing entry for k keeps its place
   * and takes the new value; otherwise the entry is appended at the end.
   */
  function Put(ps: Params, k: string, v: string): (r: Params)
    ensures k in Keys(ps) ==> |r| == |ps| && Keys(r) == Keys(ps)
    ensures k !in Keys(ps) ==> r == ps + [(k, v)]
    ensures DistinctKeys(ps) ==> DistinctKeys(r)
    ensures DistinctKeys(ps) ==> forall p :: p in r <==> p == (k, v) || (p in ps && p.0 != k)
  {
    var i := KeyIndex(ps, k);
    if i < 0 then
      assert forall j :: 0 <= j < |ps| ==> ps[j].0 != k by {
        forall j | 0 <= j < |ps| ensures ps[j].0 != k {
          assert Keys(ps)[j] == ps[j].0;
        }
      }
      assert forall p :: p in ps + [(k, v)] <==> p == (k, v) || (p in ps && p.0 != k);
      ps + [(k, v)]
    else
      var r := ps[i := (k, v)];
      assert Keys(r) == Keys(ps);
      assert DistinctKeys(ps) ==> forall p :: p in r <==> p == (k, v) || (p in ps && p.0 != k) by {
        if DistinctKeys(ps) {
          forall p ensures p in r <==> p == (k, v) || (p in ps && p.0 != k) {
            if p in ps && p.0 != k {
              var j :| 0 <= j < |ps| && ps[j] == p;
              assert r[j] == p;
            }
            if p in r && p != (k, v) {
              var j :| 0 <= j < |r| && r[j] == p;
              assert j != i && ps[j] == p;
            }
          }
        }
      }
      r
  }

  /** `$params[k]`: the value stored under k, if any. */
  function Lookup(ps: Params, k: string): Option<string> {
    if ps == [] then None
    else if ps[0].0 == k then Some(ps[0].1)
    else Lookup(ps[1..], k)
  }

  /** In an array with distinct keys, looking up the key of an entry finds
      that entry's value. */
  lemma {:induction false} LookupFinds(ps: Params, p: Pair)
    requires DistinctKeys(ps) && p in ps
    ensures Lookup(ps, p.0) == Some(p.1)
  {
    if ps[0] != p {
      assert p in ps[1..];
      assert ps[0].0 != p.0 by {
        var j :| 0 <= j < |ps| && ps[j] == p;
      }
      LookupFinds(ps[1..], p);
    }
  }

  lemma {:induction false} AtMostOnce(s: Params, x: Pair)
    requires DistinctKeys(s)
    ensures multiset(s)[x] <= 1
  {
    if s != [] {
      AtMostOnce(s[1..], x);
      assert s == [s[0]] + s[1..];
      if s[0] == x {
        assert x !in s[1..] by {
          forall j | 0 <= j < |s[1..]| ensures s[1..][j] != x {
            assert s[1..][j] == s[j + 1];
          }
        }
      }
    }
  }

  /** Reordering an array cannot make two of its keys equal. */
  lemma PermutationKeepsDistinct(s: Params, t: Params)
    requires multiset(s) == multiset(t) && DistinctKeys(s)
    ensures DistinctKeys(t)
  {
    forall i, j | 0 <= i < j < |t| ensures t[i].0 != t[j].0 {
      if t[i].0 == t[j].0 {
        assert t[i] in multiset(s) && t[j] in multiset(s);
        var a :| 0 <= a < |s| && s[a] == t[i];
        var b :| 0 <= b < |s| && s[b] == t[j];
        if a == b {
          var x := t[i];
          assert t == t[..j] + [t[j]] + t[j + 1..];
          assert x in t[..j];
          assert multiset(t)[x] >= 2;
          AtMostOnce(s, x);
          assert false;
        }
      }
    }
  }
}
