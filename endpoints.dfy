/**
 * The eleven endpoint methods of the client. Each is a fixed recipe: a verb,
 * a URL made by substituting its arguments verbatim into a path template, and
 * a parameter array; the recipe is then signed, sent, and its response
 * decoded unless it is falsy.
 */
module Endpoints {
  import opened Wrappers
  import opened PhpString
  import opened PercentEncoding
  import opened ParamList
  import opened KeySort
  import opened Signing
  import opened Requests

  const BaseUrl: string := "http://api.mettl.com/v1"

  /** One call of an endpoint method with its arguments; list endpoints carry
      the same defaults as the PHP signatures. `sc` and `rd` hold the JSON
      text json_encode produced for the schedule and registration details. */
  datatype Endpoint =
    | GetAssessments(limit: int := 20, offset: int := 0, sort: string := "createdAt", sortOrder: string := "desc")
    | GetAssessment(assessmentId: string)
    | GetAssessmentSchedules(assessmentId: string)
    | AddAssessmentSchedule(assessmentId: string, sc: string)
    | GetSchedules(limit: int := 20, offset: int := 0, sort: string := "createdAt", sortOrder: string := "desc")
    | GetSchedule(accessKey: string)
    | GetScheduleCandidates(accessKey: string, limit: int := 20, offset: int := 0,
                            sort: string := "testStartTime", sortOrder: string := "desc")
    | AddScheduleCandidate(accessKey: string, rd: string)
    | GetScheduleCandidate(accessKey: string, candidateEmailId: string)
    | DeleteScheduleCandidate(accessKey: string, candidateEmailId: string)
    | GetCandidate(candidateEmailId: string)

  /** A verb, a URL and the parameters before signing. */
  datatype Call = Call(verb: string, url: string, params: Params)

  /** The parameter array of a list endpoint, limit and offset written in
      decimal as PHP converts integers to strings. */
  function ListParams(limit: int, offset: int, sort: string, sortOrder: string): (ps: Params)
    ensures DistinctKeys(ps) && forall p :: p in ps ==> RecipeKey(p.0)
  {
    [("limit", IntToDecimal(limit)), ("offset", IntToDecimal(offset)), ("sort", sort), ("sort_order", sortOrder)]
  }

  /** A URL of the API: the base URL followed by the rest of a template. */
  function Url(rest: string): (u: string)
    requires |rest| > 0
    ensures |u| > |BaseUrl| && u[..|BaseUrl|] == BaseUrl && u[|BaseUrl|..] == rest
  {
    BaseUrl + rest
  }

  /** Keys the endpoint methods use, all in lower case. */
  predicate RecipeKey(k: string) {
    k == "limit" || k == "offset" || k == "sort" || k == "sort_order" || k == "sc" || k == "rd"
  }

  /**
   * The recipe of each endpoint method. Every URL lies under the API's base
   * URL, every verb is one the request rule handles, and the parameters have
   * distinct lower-case keys none of which the signer writes itself.
   */
  function Recipe(e: Endpoint): (c: Call)
    ensures c.verb == "get" || c.verb == "post" || c.verb == "delete"
    ensures |c.url| > |BaseUrl| && c.url[..|BaseUrl|] == BaseUrl
    ensures DistinctKeys(c.params)
    ensures forall p :: p in c.params ==> RecipeKey(p.0)
  {
    match e
    case GetAssessments(limit, offset, sort, sortOrder) =>
      Call("get", Url("/assessments"), ListParams(limit, offset, sort, sortOrder))
    case GetAssessment(id) =>
      Call("get", Url("/assessments/" + id), [])
    case GetAssessmentSchedules(id) =>
      Call("get", Url("/assessments/" + id + "/schedules"), [])
    case AddAssessmentSchedule(id, sc) =>
      Call("post", Url("/assessments/" + id + "/schedules"), [("sc", sc)])
    case GetSchedules(limit, offset, sort, sortOrder) =>
      Call("get", Url("/schedules"), ListParams(limit, offset, sort, sortOrder))
    case GetSchedule(key) =>
      Call("get", Url("/schedules/" + key), [])
    case GetScheduleCandidates(key, limit, offset, sort, sortOrder) =>
      Call("get", Url("/schedules/" + key + "/candidates"), ListParams(limit, offset, sort, sortOrder))
    case AddScheduleCandidate(key, rd) =>
      Call("post", Url("/schedules/" + key + "/candidates"), [("rd", rd)])
    case GetScheduleCandidate(key, email) =>
      Call("get", Url("/schedules/" + key + "/candidates/" + email), [])
    case DeleteScheduleCandidate(key, email) =>
      Call("delete", Url("/schedules/" + key + "/candidates/" + email), [])
    case GetCandidate(email) =>
      Call("get", Url("/candidates/" + email), [])
  }

  /** The defaults of the list endpoints, as the parameter array sends them:
      20 items from offset 0, newest first by creation time, or by test start
      time for the candidates of a schedule. */
  lemma ListDefaults(key: string)
    ensures Recipe(GetAssessments()).params == Recipe(GetSchedules()).params
      == [("limit", "20"), ("offset", "0"), ("sort", "createdAt"), ("sort_order", "desc")]
    ensures Recipe(GetScheduleCandidates(key)).params
      == [("limit", "20"), ("offset", "0"), ("sort", "testStartTime"), ("sort_order", "desc")]
  {
    assert DigitChar(2) == '2' && DigitChar(0) == '0';
    assert IntToDecimal(20) == NatToDecimal(20) == NatToDecimal(2) + [DigitChar(0)] == "20";
    assert IntToDecimal(0) == "0";
  }

  /** What the endpoint method returns: false for a falsy response ("" after a
      failed transfer, or "0"), otherwise json_decode of the body, which is not
      modelled and is represented by the body itself. */
  datatype Outcome = False | Decoded(body: string)

  function Decode(response: string): (o: Outcome)
    ensures o == False <==> response == "" || response == "0"
    ensures o != False ==> o == Decoded(response)
  {
    if Truthy(response) then Decoded(response) else False
  }

  /** The list arguments read back from the parameters. */
  function ListArgs(ps: Params): Option<(int, int, string, string)> {
    match (Lookup(ps, "limit"), Lookup(ps, "offset"), Lookup(ps, "sort"), Lookup(ps, "sort_order"))
    case (Some(l), Some(o), Some(sort), Some(order)) =>
      (match (ParseInt(l), ParseInt(o))
       case (Some(limit), Some(offset)) => Some((limit, offset, sort, order))
       case _ => None)
    case _ => None
  }

  /** The API's route table, keyed by verb and the path segments after the
      base URL: the endpoint a server would take a call to be. */
  function ResolvePath(verb: string, path: seq<string>, ps: Params): Option<Endpoint> {
    if |path| == 1 then ResolveCollection(verb, path[0], ps)
    else if |path| == 2 then ResolveItem(verb, path[0], path[1], ps)
    else if |path| == 3 then ResolveNested(verb, path[0], path[1], path[2], ps)
    else if |path| == 4 then ResolveMember(verb, path[0], path[1], path[2], path[3], ps)
    else None
  }

  /** The list arguments, when the parameters are exactly those four. */
  function OnlyListArgs(ps: Params): Option<(int, int, string, string)> {
    if |ps| == 4 then ListArgs(ps) else None
  }

  /** The single parameter of a post, when the parameters are exactly it. */
  function OnlyParam(ps: Params, k: string): Option<string> {
    if |ps| == 1 && ps[0].0 == k then Some(ps[0].1) else None
  }

  /** `/assessments` and `/schedules`: the two top-level lists. */
  function ResolveCollection(verb: string, collection: string, ps: Params): Option<Endpoint> {
    if verb == "get" && (collection == "assessments" || collection == "schedules") then
      match OnlyListArgs(ps)
      case Some((limit, offset, sort, order)) =>
        if collection == "assessments" then Some(GetAssessments(limit, offset, sort, order))
        else Some(GetSchedules(limit, offset, sort, order))
      case None => None
    else None
  }

  /** `/assessments/{id}`, `/schedules/{key}` and `/candidates/{email}`,
      which take no parameters. */
  function ResolveItem(verb: string, collection: string, id: string, ps: Params): Option<Endpoint> {
    if verb != "get" || ps != [] then None
    else if collection == "assessments" then Some(GetAssessment(id))
    else if collection == "schedules" then Some(GetSchedule(id))
    else if collection == "candidates" then Some(GetCandidate(id))
    else None
  }

  /** `/assessments/{id}/schedules` and `/schedules/{key}/candidates`. */
  function ResolveNested(verb: string, outer: string, id: string, inner: string, ps: Params): Option<Endpoint> {
    if outer == "assessments" && inner == "schedules" then
      if verb == "get" && ps == [] then Some(GetAssessmentSchedules(id))
      else if verb == "post" && OnlyParam(ps, "sc").Some? then Some(AddAssessmentSchedule(id, OnlyParam(ps, "sc").value))
      else None
    else if outer == "schedules" && inner == "candidates" then
      if verb == "get" then
        match OnlyListArgs(ps)
        case Some((limit, offset, sort, order)) => Some(GetScheduleCandidates(id, limit, offset, sort, order))
        case None => None
      else if verb == "post" && OnlyParam(ps, "rd").Some? then Some(AddScheduleCandidate(id, OnlyParam(ps, "rd").value))
      else None
    else None
  }

  /** `/schedules/{key}/candidates/{email}`, which takes no parameters. */
  function ResolveMember(verb: string, outer: string, key: string, inner: string, email: string, ps: Params): Option<Endpoint> {
    if outer == "schedules" && inner == "candidates" && ps == [] then
      if verb == "get" then Some(GetScheduleCandidate(key, email))
      else if verb == "delete" then Some(DeleteScheduleCandidate(key, email))
      else None
    else None
  }

  /** The path segments of a URL under the base URL. */
  function Route(url: string): Option<seq<string>> {
    if |url| < |BaseUrl| || url[..|BaseUrl|] != BaseUrl then None
    else
      var segments := Split('/', url[|BaseUrl|..]);
      if segments[0] != "" || |segments| < 2 then None
      else Some(segments[1..])
  }

  function Resolve(c: Call): Option<Endpoint> {
    match Route(c.url)
    case None => None
    case Some(path) => ResolvePath(c.verb, path, c.params)
  }

  /** No argument an endpoint substitutes into its URL contains "/". */
  predicate PlainPathArgs(e: Endpoint) {
    match e
    case GetAssessments(_, _, _, _) => true
    case GetAssessment(id) => '/' !in id
    case GetAssessmentSchedules(id) => '/' !in id
    case AddAssessmentSchedule(id, _) => '/' !in id
    case GetSchedules(_, _, _, _) => true
    case GetSchedule(key) => '/' !in key
    case GetScheduleCandidates(key, _, _, _, _) => '/' !in key
    case AddScheduleCandidate(key, _) => '/' !in key
    case GetScheduleCandidate(key, email) => '/' !in key && '/' !in email
    case DeleteScheduleCandidate(key, email) => '/' !in key && '/' !in email
    case GetCandidate(email) => '/' !in email
  }

  /** The segments of a path, each preceded by "/". */
  function SlashPath(segs: seq<string>): string {
    if segs == [] then "" else "/" + segs[0] + SlashPath(segs[1..])
  }

  lemma SlashCons(x: string, rest: seq<string>)
    ensures SlashPath([x] + rest) == "/" + x + SlashPath(rest)
  {
    assert ([x] + rest)[1..] == rest;
  }

  /** A path is the join of its segments after an empty first one. */
  lemma {:induction false} SlashPathIsJoin(segs: seq<string>)
    requires |segs| >= 1
    ensures Join('/', [""] + segs) == SlashPath(segs)
  {
    assert ([""] + segs)[1..] == segs;
    if |segs| > 1 {
      SlashPathIsJoin(segs[1..]);
      assert ([""] + segs[1..])[1..] == segs[1..];
    }
  }

  lemma SlashPath2(a: string, b: string)
    ensures SlashPath([a, b]) == "/" + a + "/" + b
  {
    SlashCons(a, [b]);
    SlashCons(b, []);
    assert [a, b] == [a] + [b] && [b] == [b] + [];
  }

  lemma SlashPath3(a: string, b: string, c: string)
    ensures SlashPath([a, b, c]) == "/" + a + "/" + b + "/" + c
  {
    SlashCons(a, [b, c]);
    SlashPath2(b, c);
    assert [a, b, c] == [a] + [b, c];
  }

  lemma SlashPath4(a: string, b: string, c: string, d: string)
    ensures SlashPath([a, b, c, d]) == "/" + a + "/" + b + "/" + c + "/" + d
  {
    SlashCons(a, [b, c, d]);
    SlashPath3(b, c, d);
    assert [a, b, c, d] == [a] + [b, c, d];
  }

  /** Splitting a path at "/" gives an empty first piece, then its segments. */
  lemma SplitSlashPath(path: seq<string>)
    requires |path| >= 1 && forall i :: 0 <= i < |path| ==> '/' !in path[i]
    ensures Split('/', SlashPath(path)) == [""] + path
  {
    var segs := [""] + path;
    forall i | 0 <= i < |segs| ensures '/' !in segs[i] {
      if i > 0 { assert segs[i] == path[i - 1]; }
    }
    SlashPathIsJoin(path);
    SplitJoin('/', segs);
  }

  /** A URL that is the base URL followed by a path of segments without "/"
      routes to exactly those segments. */
  lemma PathOf(url: string, path: seq<string>)
    requires |url| >= |BaseUrl| && url[..|BaseUrl|] == BaseUrl
    requires url[|BaseUrl|..] == SlashPath(path)
    requires |path| >= 1 && forall i :: 0 <= i < |path| ==> '/' !in path[i]
    ensures Route(url) == Some(path)
  {
    SplitSlashPath(path);
    var segments := Split('/', url[|BaseUrl|..]);
    assert segments == [""] + path;
    assert segments[0] == "" && |segments| >= 2;
    assert segments[1..] == path;
  }

  /** The base URL followed by a path routes to its segments. */
  lemma RouteUnder(url: string, rest: string, path: seq<string>)
    requires |rest| > 0 && url == Url(rest) && rest == SlashPath(path)
    requires |path| >= 1 && forall i :: 0 <= i < |path| ==> '/' !in path[i]
    ensures Route(url) == Some(path)
  {
    PathOf(url, path);
  }

  /** `/{a}`, with `seg` the template text. */
  lemma Route1(url: string, seg: string, a: string)
    requires seg == "/" + a && url == Url(seg) && '/' !in a
    ensures Route(url) == Some([a])
  {
    SlashCons(a, []);
    RouteUnder(url, seg, [a]);
  }

  /** `/{a}/{id}`, with `pre` the template text before the argument. */
  lemma Route2(url: string, pre: string, a: string, id: string)
    requires pre == "/" + a + "/" && url == Url(pre + id) && '/' !in a && '/' !in id
    ensures Route(url) == Some([a, id])
  {
    SlashPath2(a, id);
    RouteUnder(url, pre + id, [a, id]);
  }

  /** `/{a}/{id}/{c}`, with `pre` and `post` the template text around the argument. */
  lemma Route3(url: string, pre: string, a: string, id: string, post: string, c: string)
    requires pre == "/" + a + "/" && post == "/" + c && url == Url(pre + id + post)
    requires '/' !in a && '/' !in id && '/' !in c
    ensures Route(url) == Some([a, id, c])
  {
    SlashPath3(a, id, c);
    RouteUnder(url, pre + id + post, [a, id, c]);
  }

  /** `/{a}/{key}/{c}/{email}`, with `pre` and `mid` the template text before
      each argument. */
  lemma Route4(url: string, pre: string, a: string, key: string, mid: string, c: string, email: string)
    requires pre == "/" + a + "/" && mid == "/" + c + "/" && url == Url(pre + key + mid + email)
    requires '/' !in a && '/' !in key && '/' !in c && '/' !in email
    ensures Route(url) == Some([a, key, c, email])
  {
    SlashPath4(a, key, c, email);
    RouteUnder(url, pre + key + mid + email, [a, key, c, email]);
  }

  lemma ListArgsOf(limit: int, offset: int, sort: string, order: string)
    ensures OnlyListArgs(ListParams(limit, offset, sort, order)) == Some((limit, offset, sort, order))
  {
    var ps := ListParams(limit, offset, sort, order);
    IntToDecimalRoundTrip(limit);
    IntToDecimalRoundTrip(offset);
    assert Lookup(ps, "limit") == Some(IntToDecimal(limit));
    assert Lookup(ps, "offset") == Some(IntToDecimal(offset)) by {
      assert ps[1..][0] == ("offset", IntToDecimal(offset));
    }
    assert ps[1..][1..] == [("sort", sort), ("sort_order", order)];
    assert Lookup(ps, "sort") == Lookup(ps[1..], "sort") == Lookup(ps[1..][1..], "sort") == Some(sort);
    assert Lookup(ps[1..][1..], "sort_order") == Lookup([("sort_order", order)], "sort_order");
    assert Lookup(ps, "sort_order") == Lookup(ps[1..][1..], "sort_order") == Some(order);
  }

  /**
   * The URL and parameters of a call name the endpoint and arguments it was
   * made from, as long as no path argument contains "/": the arguments are
   * substituted verbatim, so nothing else keeps them apart.
   */
  lemma RecipeResolves(e: Endpoint)
    requires PlainPathArgs(e)
    ensures Resolve(Recipe(e)) == Some(e)
  {
    match e
    case GetAssessments(limit, offset, sort, order) =>
      AssessmentsResolve(limit, offset, sort, order);
    case GetSchedules(limit, offset, sort, order) =>
      SchedulesResolve(limit, offset, sort, order);
    case GetAssessment(id) =>
      GetAssessmentResolves(id);
    case GetSchedule(key) =>
      GetScheduleResolves(key);
    case GetCandidate(email) =>
      GetCandidateResolves(email);
    case GetAssessmentSchedules(id) =>
      AssessmentSchedulesResolve(id);
    case AddAssessmentSchedule(id, sc) =>
      AddAssessmentScheduleResolves(id, sc);
    case GetScheduleCandidates(key, limit, offset, sort, order) =>
      ScheduleCandidatesResolve(key, limit, offset, sort, order);
    case AddScheduleCandidate(key, rd) =>
      AddScheduleCandidateResolves(key, rd);
    case GetScheduleCandidate(key, email) =>
      ScheduleCandidateResolves(key, email, false);
    case DeleteScheduleCandidate(key, email) =>
      ScheduleCandidateResolves(key, email, true);
  }

  lemma AssessmentsResolve(limit: int, offset: int, sort: string, order: string)
    ensures Resolve(Recipe(GetAssessments(limit, offset, sort, order))) == Some(GetAssessments(limit, offset, sort, order))
  {
    var c := Recipe(GetAssessments(limit, offset, sort, order));
    ListArgsOf(limit, offset, sort, order);
    Route1(c.url, "/assessments", "assessments");
    assert ResolvePath(c.verb, ["assessments"], c.params) == ResolveCollection("get", "assessments", c.params);
  }

  lemma SchedulesResolve(limit: int, offset: int, sort: string, order: string)
    ensures Resolve(Recipe(GetSchedules(limit, offset, sort, order))) == Some(GetSchedules(limit, offset, sort, order))
  {
    var c := Recipe(GetSchedules(limit, offset, sort, order));
    ListArgsOf(limit, offset, sort, order);
    Route1(c.url, "/schedules", "schedules");
    assert ResolvePath(c.verb, ["schedules"], c.params) == ResolveCollection("get", "schedules", c.params);
  }

  lemma GetAssessmentResolves(id: string)
    requires '/' !in id
    ensures Resolve(Recipe(GetAssessment(id))) == Some(GetAssessment(id))
  {
    Route2(Recipe(GetAssessment(id)).url, "/assessments/", "assessments", id);
  }

  lemma GetScheduleResolves(key: string)
    requires '/' !in key
    ensures Resolve(Recipe(GetSchedule(key))) == Some(GetSchedule(key))
  {
    Route2(Recipe(GetSchedule(key)).url, "/schedules/", "schedules", key);
  }

  lemma GetCandidateResolves(email: string)
    requires '/' !in email
    ensures Resolve(Recipe(GetCandidate(email))) == Some(GetCandidate(email))
  {
    Route2(Recipe(GetCandidate(email)).url, "/candidates/", "candidates", email);
  }

  lemma AssessmentSchedulesResolve(id: string)
    requires '/' !in id
    ensures Resolve(Recipe(GetAssessmentSchedules(id))) == Some(GetAssessmentSchedules(id))
  {
    Route3(Recipe(GetAssessmentSchedules(id)).url, "/assessments/", "assessments", id, "/schedules", "schedules");
  }

  lemma AddAssessmentScheduleResolves(id: string, sc: string)
    requires '/' !in id
    ensures Resolve(Recipe(AddAssessmentSchedule(id, sc))) == Some(AddAssessmentSchedule(id, sc))
  {
    var c := Recipe(AddAssessmentSchedule(id, sc));
    Route3(c.url, "/assessments/", "assessments", id, "/schedules", "schedules");
    assert OnlyParam(c.params, "sc") == Some(sc);
  }

  lemma ScheduleCandidatesResolve(key: string, limit: int, offset: int, sort: string, order: string)
    requires '/' !in key
    ensures Resolve(Recipe(GetScheduleCandidates(key, limit, offset, sort, order)))
      == Some(GetScheduleCandidates(key, limit, offset, sort, order))
  {
    var c := Recipe(GetScheduleCandidates(key, limit, offset, sort, order));
    Route3(c.url, "/schedules/", "schedules", key, "/candidates", "candidates");
    ListArgsOf(limit, offset, sort, order);
    assert c.params == ListParams(limit, offset, sort, order);
    assert ResolvePath(c.verb, ["schedules", key, "candidates"], c.params)
        == ResolveNested("get", "schedules", key, "candidates", c.params);
  }

  lemma AddScheduleCandidateResolves(key: string, rd: string)
    requires '/' !in key
    ensures Resolve(Recipe(AddScheduleCandidate(key, rd))) == Some(AddScheduleCandidate(key, rd))
  {
    var c := Recipe(AddScheduleCandidate(key, rd));
    Route3(c.url, "/schedules/", "schedules", key, "/candidates", "candidates");
    assert OnlyParam(c.params, "rd") == Some(rd);
  }

  lemma ScheduleCandidateResolves(key: string, email: string, delete: bool)
    requires '/' !in key && '/' !in email
    ensures var e := if delete then DeleteScheduleCandidate(key, email) else GetScheduleCandidate(key, email);
      Resolve(Recipe(e)) == Some(e)
  {
    var e := if delete then DeleteScheduleCandidate(key, email) else GetScheduleCandidate(key, email);
    Route4(Recipe(e).url, "/schedules/", "schedules", key, "/candidates/", "candidates", email);
  }

  /** With a "/" in an argument two endpoints can make the same call: asking
      for the assessment "x/schedules" lists the schedules of assessment x. */
  lemma SlashInArgumentCollides(id: string)
    ensures Recipe(GetAssessment(id + "/schedules")) == Recipe(GetAssessmentSchedules(id))
    ensures GetAssessment(id + "/schedules") != GetAssessmentSchedules(id)
  {
    assert "/assessments/" + (id + "/schedules") == "/assessments/" + id + "/schedules";
  }

  /** A key the signed parameters of an endpoint can hold before `asgn`. */
  lemma LowerCaseKey(k: string)
    requires RecipeKey(k) || k == "ak" || k == "ts"
    ensures Lower(k) == k
  {
    LowerOfNoUpper(k);
  }

  /** No two keys of an endpoint's parameters differ only in case, so the
      order uksort gives them does not depend on how it breaks ties. */
  lemma RecipeCaseDistinct(e: Endpoint, creds: Credentials, now: nat)
    ensures CaseDistinct(WithAuthFields(Recipe(e).params, creds, now))
  {
    var ps := WithAuthFields(Recipe(e).params, creds, now);
    AuthFieldsEntries(Recipe(e).params, creds, now);
    forall p, q | p in ps && q in ps && CaseCompare(p.0, q.0) == 0 ensures p == q {
      LowerCaseKey(p.0);
      LowerCaseKey(q.0);
      LookupFinds(ps, p);
      LookupFinds(ps, q);
    }
  }

  /** Every arrangement of an endpoint's parameters sorted by key is the one
      the stable sort gives: the signature would be the same under a sort
      that does not keep ties in input order, as before PHP 8.0. */
  lemma RecipeSortUnique(e: Endpoint, creds: Credentials, now: nat, sorted: Params)
    requires SortedByKey(sorted)
    requires multiset(sorted) == multiset(WithAuthFields(Recipe(e).params, creds, now))
    ensures sorted == KeySorted(WithAuthFields(Recipe(e).params, creds, now))
  {
    var ws := WithAuthFields(Recipe(e).params, creds, now);
    RecipeCaseDistinct(e, creds, now);
    CaseDistinctPermutation(ws, sorted);
    SortedUnique(sorted, KeySorted(ws));
  }

  /** http_build_query, which is not modelled. */
  type QueryBuilder = Params -> string

  /** The transfer: sends the request and gives back the body, "" when cURL
      fails (utf8_encode of false). */
  type Transport = Request -> string

  /** The request an endpoint call sends. */
  function SentRequest(e: Endpoint, creds: Credentials, now: nat, sign: Signer, buildQuery: QueryBuilder): Request {
    var c := Recipe(e);
    var signed := Signed(c.verb, c.url, c.params, creds, now, sign);
    BuildRequest(c.verb, c.url, buildQuery(signed), |signed|)
  }

  /**
   * One endpoint method: build the recipe, sign it, send it, and decode the
   * response unless it is falsy.
   */
  method Invoke(e: Endpoint, creds: Credentials, now: nat, sign: Signer, buildQuery: QueryBuilder, transport: Transport)
    returns (req: Request, result: Outcome)
    ensures req == SentRequest(e, creds, now, sign, buildQuery)
    ensures result == Decode(transport(req))
  {
    var c := Recipe(e);
    var signed;
    ghost var sorted;
    signed, sorted := SignParameters(c.verb, c.url, c.params, creds, now, sign);
    req := BuildRequest(c.verb, c.url, buildQuery(signed), |signed|);
    var response := transport(req);
    result := False;
    if Truthy(response) {
      result := Decoded(response);
    }
  }

  /** Signing an endpoint's parameters keeps every one of them and adds
      exactly three entries: `ak`, `ts` and `asgn`. */
  lemma SignedRecipe(e: Endpoint, creds: Credentials, now: nat, sign: Signer)
    ensures var c := Recipe(e);
      var signed := Signed(c.verb, c.url, c.params, creds, now, sign);
      DistinctKeys(signed) && |signed| == |c.params| + 3
      && (forall p :: p in c.params ==> p in signed)
  {
    var c := Recipe(e);
    SignedAddsThree(c.verb, c.url, c.params, creds, now, sign);
  }

  /**
   * What goes out for an endpoint: the method cURL uses is the recipe's verb
   * in upper case; a post sends the query as its body to the plain URL with
   * the parameter count set to the recipe's parameters plus three; get and
   * delete append the query to the URL when it is truthy and send no body.
   */
  lemma SentRequestShape(e: Endpoint, creds: Credentials, now: nat, sign: Signer, buildQuery: QueryBuilder)
    ensures var c := Recipe(e);
      var r := SentRequest(e, creds, now, sign, buildQuery);
      var q := buildQuery(Signed(c.verb, c.url, c.params, creds, now, sign));
      EffectiveMethod(r) == Upper(c.verb)
      && (c.verb == "post" ==> r.url == c.url && r.postFields == Some(q) && r.postCount == Some(|c.params| + 3))
      && (c.verb != "post" ==> r.postFields.None? && r.postCount.None?
                               && r.url == if Truthy(q) then c.url + "?" + q else c.url)
  {
    var c := Recipe(e);
    var signed := Signed(c.verb, c.url, c.params, creds, now, sign);
    SignedRecipe(e, creds, now, sign);
    VerbRequest(c.verb, c.url, buildQuery(signed), |c.params| + 3);
  }

  /** The request rule for the three verbs the endpoints use. */
  lemma VerbRequest(verb: string, url: string, q: string, n: nat)
    requires verb == "get" || verb == "post" || verb == "delete"
    ensures var r := BuildRequest(verb, url, q, n);
      EffectiveMethod(r) == Upper(verb)
      && (verb == "post" ==> r.url == url && r.postFields == Some(q) && r.postCount == Some(n))
      && (verb != "post" ==> r.postFields.None? && r.postCount.None?
                             && r.url == if Truthy(q) then url + "?" + q else url)
  {
    if verb == "get" {
      LowerOfNoUpper("get");
    } else if verb == "post" {
      LowerOfNoUpper("post");
    } else {
      LowerOfNoUpper("delete");
    }
    SentMethodIsSignedVerb(verb, url, q, n);
  }
}
