/**
 * The request signer (`Mettl::signParameters`): adds the public key and the
 * timestamp, sorts the parameters by key case-insensitively, signs the verb,
 * the URL and the sorted values, and adds the signature as `asgn`.
 * HMAC-SHA1 with base64 is not modelled: it is the parameter `sign`, and the
 * clock is the parameter `now`.
 */
module Signing {
  import opened PhpString
  import opened PercentEncoding
  import opened ParamList
  import opened KeySort

  /** The `public_key` and `private_key` entries of the client's credentials. */
  datatype Credentials = Credentials(publicKey: string, privateKey: string)

  /** base64(HMAC-SHA1(key, message)), given as (key, message) -> signature. */
  type Signer = (string, string) -> string

  /** The keys the signer writes itself. */
  predicate AuthKey(k: string) {
    k == "ak" || k == "ts" || k == "asgn"
  }

  /** The parameters with `ak` and `ts` set, as strings: each is added at the
      end, or replaces the value of an existing entry in its place. */
  function WithAuthFields(params: Params, creds: Credentials, now: nat): Params {
    Put(Put(params, "ak", PercentEncode(creds.publicKey)), "ts", PercentEncode(IntToDecimal(now)))
  }

  /** The upper-cased verb, the URL, a newline, then the values (never the
      keys) of the sorted parameters, one per line. */
  function StringToSign(verb: string, url: string, sorted: Params): string {
    Upper(verb) + url + "\n" + Join('\n', Values(sorted))
  }

  /** The signed parameters, with the reference sort standing for uksort.
      For distinct caller keys they hold the caller's entries with keys other
      than `ak`, `ts` and `asgn`, and those three fields, each once. */
  function Signed(verb: string, url: string, params: Params, creds: Credentials, now: nat, sign: Signer): (r: Params)
    ensures "asgn" in Keys(r)
    ensures DistinctKeys(params) ==> DistinctKeys(r)
    ensures DistinctKeys(params) ==> forall p: Pair :: !AuthKey(p.0) ==> (p in r <==> p in params)
    ensures DistinctKeys(params) ==>
      ("ak", PercentEncode(creds.publicKey)) in r && ("ts", IntToDecimal(now)) in r
  {
    var sorted := KeySorted(WithAuthFields(params, creds, now));
    var signature := sign(creds.privateKey, StringToSign(verb, url, sorted));
    var r := Put(sorted, "asgn", signature);
    PutHolds(sorted, "asgn", signature);
    if DistinctKeys(params) then
      SortedEntries(params, creds, now, sorted);
      SignedEntries(params, creds, now, sorted, signature);
      r
    else r
  }

  lemma PutHolds(ps: Params, k: string, v: string)
    ensures k in Keys(Put(ps, k, v))
  {
    var r := Put(ps, k, v);
    if k in Keys(ps) {
      var i :| 0 <= i < |ps| && Keys(ps)[i] == k;
      assert Keys(r)[i] == k;
    } else {
      assert Keys(r)[|ps|] == k;
    }
  }

  lemma KeysHeld(s: Params, k: string)
    ensures k in Keys(s) <==> exists p :: p in s && p.0 == k
  {
    if exists p :: p in s && p.0 == k {
      var p :| p in s && p.0 == k;
      var i :| 0 <= i < |s| && s[i] == p;
      assert Keys(s)[i] == k;
    }
  }

  /**
   * signParameters. `sorted` is the parameter array after uksort, just before
   * the signature is added. Every entry the caller passed survives with its
   * value, except `ak`, `ts` and `asgn`, which end up holding the encoded
   * public key, the encoded timestamp and the signature of the sorted array.
   */
  method SignParameters(verb: string, url: string, params: Params, creds: Credentials, now: nat, sign: Signer)
    returns (signed: Params, ghost sorted: Params)
    requires DistinctKeys(params)
    ensures SortedByKey(sorted)
    ensures multiset(sorted) == multiset(WithAuthFields(params, creds, now))
    ensures sorted == KeySorted(WithAuthFields(params, creds, now))
    ensures signed == Put(sorted, "asgn", sign(creds.privateKey, StringToSign(verb, url, sorted)))
    ensures DistinctKeys(signed)
    ensures forall p: Pair :: !AuthKey(p.0) ==> (p in signed <==> p in params)
    ensures ("ak", PercentEncode(creds.publicKey)) in signed
    ensures ("ts", IntToDecimal(now)) in signed
    ensures ("asgn", sign(creds.privateKey, StringToSign(verb, url, sorted))) in signed
    ensures "asgn" !in Keys(params) ==>
      signed == sorted + [("asgn", sign(creds.privateKey, StringToSign(verb, url, sorted)))]
    ensures signed == Signed(verb, url, params, creds, now, sign)
  {
    var ps := Put(params, "ak", PercentEncode(creds.publicKey));
    ps := Put(ps, "ts", PercentEncode(IntToDecimal(now)));
    var a := new Pair[|ps|](i requires 0 <= i < |ps| => ps[i]);
    assert a[..] == ps;
    SortByKey(a);
    sorted := a[..];
    var items := Join('\n', Values(a[..]));
    var str := Upper(verb) + url + "\n" + items;
    var signature := sign(creds.privateKey, str);
    signed := Put(a[..], "asgn", signature);
    SortedEntries(params, creds, now, sorted);
    SignedEntries(params, creds, now, sorted, signature);
  }

  /** What the entries of the array with `ak` and `ts` set are. */
  lemma AuthFieldsEntries(params: Params, creds: Credentials, now: nat)
    requires DistinctKeys(params)
    ensures DistinctKeys(WithAuthFields(params, creds, now))
    ensures forall p: Pair :: p in WithAuthFields(params, creds, now) <==>
      p == ("ak", PercentEncode(creds.publicKey)) || p == ("ts", IntToDecimal(now))
      || (p in params && p.0 != "ak" && p.0 != "ts")
  {
    DecimalUnchanged(now);
  }

  /** When the caller's keys are distinct and none is one the signer writes,
      the signed array keeps them all and has exactly three more entries. */
  lemma SignedAddsThree(verb: string, url: string, params: Params, creds: Credentials, now: nat, sign: Signer)
    requires DistinctKeys(params)
    requires forall p :: p in params ==> !AuthKey(p.0)
    ensures var signed := Signed(verb, url, params, creds, now, sign);
      DistinctKeys(signed) && |signed| == |params| + 3
      && (forall p :: p in params ==> p in signed)
  {
    var withAk := Put(params, "ak", PercentEncode(creds.publicKey));
    var ws := WithAuthFields(params, creds, now);
    var sorted := KeySorted(ws);
    var signature := sign(creds.privateKey, StringToSign(verb, url, sorted));
    KeysHeld(params, "ak");
    KeysHeld(params, "ts");
    KeysHeld(params, "asgn");
    KeysHeld(withAk, "ts");
    assert |ws| == |params| + 2;
    assert |sorted| == |ws| by {
      assert |multiset(sorted)| == |multiset(ws)|;
    }
    SortedEntries(params, creds, now, sorted);
    SignedEntries(params, creds, now, sorted, signature);
  }

  /** The entries after sorting and adding the signature. */
  lemma SignedEntries(params: Params, creds: Credentials, now: nat, sorted: Params, signature: string)
    requires DistinctKeys(sorted)
    requires forall p: Pair :: p in sorted <==>
      p == ("ak", PercentEncode(creds.publicKey)) || p == ("ts", IntToDecimal(now))
      || (p in params && p.0 != "ak" && p.0 != "ts")
    ensures DistinctKeys(Put(sorted, "asgn", signature))
    ensures forall p: Pair :: !AuthKey(p.0) ==> (p in Put(sorted, "asgn", signature) <==> p in params)
    ensures ("ak", PercentEncode(creds.publicKey)) in Put(sorted, "asgn", signature)
    ensures ("ts", IntToDecimal(now)) in Put(sorted, "asgn", signature)
    ensures ("asgn", signature) in Put(sorted, "asgn", signature)
    ensures "asgn" !in Keys(params) ==> Put(sorted, "asgn", signature) == sorted + [("asgn", signature)]
  {
    var r := Put(sorted, "asgn", signature);
    forall p: Pair | !AuthKey(p.0) ensures p in r <==> p in params {
      assert p in r <==> p in sorted;
    }
    assert ("ak", PercentEncode(creds.publicKey)) in sorted;
    assert ("ts", IntToDecimal(now)) in sorted;
    if "asgn" !in Keys(params) {
      KeysHeld(params, "asgn");
      KeysHeld(sorted, "asgn");
    }
  }

  /** Sorting keeps exactly the entries it was given. */
  lemma SortedEntries(params: Params, creds: Credentials, now: nat, sorted: Params)
    requires DistinctKeys(params)
    requires multiset(sorted) == multiset(WithAuthFields(params, creds, now))
    ensures DistinctKeys(sorted)
    ensures forall p: Pair :: p in sorted <==>
      p == ("ak", PercentEncode(creds.publicKey)) || p == ("ts", IntToDecimal(now))
      || (p in params && p.0 != "ak" && p.0 != "ts")
  {
    var ps := WithAuthFields(params, creds, now);
    AuthFieldsEntries(params, creds, now);
    PermutationKeepsDistinct(ps, sorted);
    forall p ensures p in sorted <==> p in ps {
      assert p in sorted <==> p in multiset(sorted);
      assert p in ps <==> p in multiset(ps);
    }
  }

  /** With no parameters of its own, a request still signs the encoded public
      key and the timestamp, in that order ("ak" sorts before "ts"). */
  lemma EmptyParamsStringToSign(verb: string, url: string, creds: Credentials, now: nat, sorted: Params)
    requires SortedByKey(sorted)
    requires multiset(sorted) == multiset(WithAuthFields([], creds, now))
    ensures StringToSign(verb, url, sorted)
         == Upper(verb) + url + "\n" + PercentEncode(creds.publicKey) + "\n" + IntToDecimal(now)
  {
    EmptyParamsSorted(creds, now, sorted);
    var vs := [PercentEncode(creds.publicKey), IntToDecimal(now)];
    assert Values(sorted) == vs;
    assert Join('\n', vs) == vs[0] + "\n" + vs[1];
  }

  lemma EmptyParamsSorted(creds: Credentials, now: nat, sorted: Params)
    requires SortedByKey(sorted)
    requires multiset(sorted) == multiset(WithAuthFields([], creds, now))
    ensures sorted == [("ak", PercentEncode(creds.publicKey)), ("ts", IntToDecimal(now))]
  {
    var expected := [("ak", PercentEncode(creds.publicKey)), ("ts", IntToDecimal(now))];
    EmptyAuthFields(creds, now);
    AkBeforeTs();
    assert SortedByKey(expected);
    assert CaseDistinct(sorted) by {
      forall p, q | p in sorted && q in sorted && CaseCompare(p.0, q.0) == 0 ensures p == q {
        assert p in multiset(expected) && q in multiset(expected);
      }
    }
    SortedUnique(sorted, expected);
  }

  lemma EmptyAuthFields(creds: Credentials, now: nat)
    ensures WithAuthFields([], creds, now) == [("ak", PercentEncode(creds.publicKey)), ("ts", IntToDecimal(now))]
  {
    DecimalUnchanged(now);
    assert Keys([("ak", PercentEncode(creds.publicKey))]) == ["ak"];
  }

  lemma AkBeforeTs()
    ensures CaseCompare("ak", "ts") == -1 && CaseCompare("ts", "ak") == 1
  {
    assert Lower("ak")[0] == 'a' && Lower("ts")[0] == 't';
  }

  /** The sort is by key compared case-insensitively: "a" comes before "B",
      whatever order the caller gave them in. */
  lemma CaseInsensitiveOrder(sorted: Params)
    requires SortedByKey(sorted)
    requires multiset(sorted) == multiset([("B", "x"), ("a", "y")])
    ensures sorted == [("a", "y"), ("B", "x")]
  {
    var expected := [("a", "y"), ("B", "x")];
    assert CaseCompare("a", "B") == -1 && CaseCompare("B", "a") == 1;
    assert SortedByKey(expected);
    assert multiset(expected) == multiset([("B", "x"), ("a", "y")]);
    assert CaseDistinct(sorted) by {
      forall p, q | p in sorted && q in sorted && CaseCompare(p.0, q.0) == 0 ensures p == q {
        assert p in multiset(expected) && q in multiset(expected);
      }
    }
    SortedUnique(sorted, expected);
  }

  /** The string to sign carries exactly the values of the sorted parameters,
      in order: splitting what follows the verb and URL at the newlines gives
      them back, as long as no value contains a newline. */
  lemma StringToSignCarriesValues(verb: string, url: string, sorted: Params)
    requires |sorted| >= 1
    requires forall p :: p in sorted ==> '\n' !in p.1
    ensures var prefix := Upper(verb) + url + "\n";
      StringToSign(verb, url, sorted)[..|prefix|] == prefix
      && Split('\n', StringToSign(verb, url, sorted)[|prefix|..]) == Values(sorted)
  {
    var vs := Values(sorted);
    forall i | 0 <= i < |vs| ensures '\n' !in vs[i] {
      assert sorted[i] in sorted;
    }
    SplitJoin('\n', vs);
    var prefix := Upper(verb) + url + "\n";
    assert StringToSign(verb, url, sorted)[|prefix|..] == Join('\n', vs);
  }
}
