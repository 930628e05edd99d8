/**
 * The part of `Mettl::request` that decides what is sent: whether the encoded
 * query goes after "?" in the URL or into the body, and which explicit method
 * cURL is told to use. The transfer itself is not modelled.
 */
module Requests {
  import opened Wrappers
  import opened PhpString

  /** The cURL options `request` sets: CURLOPT_URL, CURLOPT_POST (given the
      parameter count), CURLOPT_POSTFIELDS and CURLOPT_CUSTOMREQUEST. */
  datatype Request = Request(
    url: string,
    postCount: Option<nat>,
    postFields: Option<string>,
    customRequest: Option<string>)

  predicate IsVerb(verb: string, name: string) {
    Lower(verb) == name
  }

  /**
   * The request for a method (compared in lower case), a URL and the query
   * built from `paramCount` parameters. The query is appended after "?" only
   * for get and delete and only when it is truthy; post and put send it as
   * the body; put and delete name their method explicitly.
   */
  function BuildRequest(verb: string, url: string, query: string, paramCount: nat): (r: Request)
    ensures r.url != url <==> Truthy(query) && (IsVerb(verb, "get") || IsVerb(verb, "delete"))
    ensures r.url != url ==> r.url == url + "?" + query
    ensures r.postFields.Some? <==> IsVerb(verb, "post") || IsVerb(verb, "put")
    ensures r.postFields.Some? ==> r.postFields.value == query && r.url == url
    ensures r.postCount.Some? <==> IsVerb(verb, "post")
    ensures r.customRequest.Some? <==> IsVerb(verb, "put") || IsVerb(verb, "delete")
  {
    var m := Lower(verb);
    var target := if Truthy(query) && (m == "get" || m == "delete") then url + "?" + query else url;
    assert |url + "?" + query| > |url|;
    if m == "post" then Request(target, Some(paramCount), Some(query), None)
    else if m == "put" then Request(target, None, Some(query), Some("PUT"))
    else if m == "delete" then Request(target, None, None, Some("DELETE"))
    else Request(target, None, None, None)
  }

  /** The HTTP method libcurl uses for these options: the custom method if one
      is set, POST if there is a body or the POST option is on, GET otherwise.
      This is libcurl's behaviour, taken as given. */
  function EffectiveMethod(r: Request): (m: string)
    ensures r.customRequest.Some? ==> m == r.customRequest.value
    ensures r.customRequest.None? ==> (m == "POST" || m == "GET")
    ensures r.customRequest.None? ==>
      (m == "POST" <==> r.postFields.Some? || (r.postCount.Some? && r.postCount.value > 0))
  {
    if r.customRequest.Some? then r.customRequest.value
    else if r.postFields.Some? || (r.postCount.Some? && r.postCount.value > 0) then "POST"
    else "GET"
  }

  /** For each of the four verbs the request goes out with the method that
      was signed, the upper-cased verb. */
  lemma SentMethodIsSignedVerb(verb: string, url: string, query: string, paramCount: nat)
    requires IsVerb(verb, "get") || IsVerb(verb, "post") || IsVerb(verb, "put") || IsVerb(verb, "delete")
    ensures EffectiveMethod(BuildRequest(verb, url, query, paramCount)) == Upper(verb)
  {
    UpperOfLower(verb);
    var r := BuildRequest(verb, url, query, paramCount);
    if IsVerb(verb, "get") {
      UpperGet();
      assert r.customRequest == None && r.postFields == None && r.postCount == None;
    } else if IsVerb(verb, "post") {
      UpperPost();
      assert r.postFields.Some?;
    } else if IsVerb(verb, "put") {
      UpperPut();
      assert r.customRequest == Some("PUT");
    } else {
      UpperDelete();
      assert r.customRequest == Some("DELETE");
    }
  }

  lemma UpperGet() ensures Upper("get") == "GET" { UpperWord("get"); }
  lemma UpperPost() ensures Upper("post") == "POST" { UpperWord("post"); }
  lemma UpperPut() ensures Upper("put") == "PUT" { UpperWord("put"); }
  lemma UpperDelete() ensures Upper("delete") == "DELETE" { UpperWord("delete"); }

  /** strtoupper of a word of lower-case ASCII letters, letter by letter. */
  lemma {:induction false} UpperWord(w: string)
    requires forall i :: 0 <= i < |w| ==> 'a' <= w[i] <= 'z'
    ensures |Upper(w)| == |w|
    ensures forall i :: 0 <= i < |w| ==> Upper(w)[i] == (w[i] as int - 32) as char
  {
    if w != [] {
      UpperWord(w[1..]);
    }
  }

  /** For the four verbs a truthy query reaches the server exactly once:
      in the URL for get and delete, as the body for post and put. */
  lemma QuerySentOnce(verb: string, url: string, query: string, paramCount: nat)
    requires Truthy(query)
    requires IsVerb(verb, "get") || IsVerb(verb, "post") || IsVerb(verb, "put") || IsVerb(verb, "delete")
    ensures var r := BuildRequest(verb, url, query, paramCount);
      (r.url == url + "?" + query && r.postFields == None) != (r.url == url && r.postFields == Some(query))
  {
    assert url + "?" + query != url by {
      assert |url + "?" + query| > |url|;
    }
  }

  /** Any other verb sends a plain GET to the bare URL: none of the
      parameters, the signature included, reaches the server. */
  lemma OtherVerbDropsParameters(verb: string, url: string, query: string, paramCount: nat)
    requires !(IsVerb(verb, "get") || IsVerb(verb, "post") || IsVerb(verb, "put") || IsVerb(verb, "delete"))
    ensures var r := BuildRequest(verb, url, query, paramCount);
      r.url == url && r.postFields == None && EffectiveMethod(r) == "GET"
  {
  }
}
