/**
 * The exhaustive REST route table and its matcher.
 *
 * The code scans the table and lets the first match decide. The table is proved consistent: any
 * two routes of one method that match the same path carry the same grant, so the verdict has an
 * order-free reading and no reordering of the table can change it.
 */
module RestRoutes {
  import opened Policies

  /** A route pattern is kept split at its slashes; the empty pattern has no segments. */
  datatype Route = Route(verb: string, pattern: seq<string>, grant: string)

  const ROUTES_1: seq<Route> := [
    Route("GET", [], ""), Route("GET", ["readme"], ""), Route("GET", ["actions", "workflows"], ""),
    Route("GET", ["actions", "workflows", ":"], ""), Route("GET", ["actions", "workflows", ":", "runs"], ""),
    Route("GET", ["actions", "runs"], "")
  ]

  const ROUTES_2: seq<Route> := [
    Route("GET", ["actions", "runs", ":"], ""), Route("GET", ["actions", "runs", ":", "jobs"], ""),
    Route("GET", ["actions", "runs", ":", "logs"], ""), Route("GET", ["actions", "runs", ":", "attempts", ":"], ""),
    Route("GET", ["actions", "runs", ":", "attempts", ":", "jobs"], ""),
    Route("GET", ["actions", "runs", ":", "attempts", ":", "logs"], "")
  ]

  const ROUTES_3: seq<Route> := [
    Route("GET", ["actions", "jobs", ":"], ""), Route("GET", ["actions", "jobs", ":", "logs"], ""),
    Route("GET", ["actions", "artifacts"], ""), Route("GET", ["actions", "artifacts", ":"], ""),
    Route("GET", ["actions", "artifacts", ":", "zip"], ""), Route("GET", ["actions", "runs", ":", "artifacts"], "")
  ]

  const ROUTES_4: seq<Route> := [
    Route("GET", ["actions", "caches"], ""), Route("GET", ["check-runs", ":"], ""),
    Route("GET", ["check-runs", ":", "annotations"], ""), Route("GET", ["check-suites", ":"], ""),
    Route("GET", ["commits"], ""), Route("GET", ["commits", ":"], "")
  ]

  const ROUTES_5: seq<Route> := [
    Route("GET", ["commits", ":", "comments"], ""), Route("GET", ["commits", ":", "pulls"], ""),
    Route("GET", ["commits", ":", "branches-where-head"], ""), Route("GET", ["commits", ":", "check-runs"], ""),
    Route("GET", ["commits", ":", "check-suites"], ""), Route("GET", ["commits", ":", "status"], "")
  ]

  const ROUTES_6: seq<Route> := [
    Route("GET", ["commits", ":", "statuses"], ""), Route("GET", ["contents", "**"], ""),
    Route("GET", ["deployments"], ""), Route("GET", ["deployments", ":"], ""),
    Route("GET", ["deployments", ":", "statuses"], ""), Route("GET", ["git", "blobs", ":"], "")
  ]

  const ROUTES_7: seq<Route> := [
    Route("GET", ["git", "commits", ":"], ""), Route("GET", ["git", "trees", ":"], ""),
    Route("GET", ["git", "tags", ":"], ""), Route("GET", ["git", "ref", "**"], ""),
    Route("GET", ["git", "refs"], ""), Route("GET", ["git", "matching-refs", "**"], "")
  ]

  const ROUTES_8: seq<Route> := [
    Route("GET", ["issues"], ""), Route("GET", ["issues", "events"], ""), Route("GET", ["issues", ":"], ""),
    Route("GET", ["issues", ":", "comments"], ""), Route("GET", ["issues", ":", "events"], ""),
    Route("GET", ["issues", ":", "timeline"], "")
  ]

  const ROUTES_9: seq<Route> := [
    Route("GET", ["issues", ":", "labels"], ""), Route("GET", ["issues", ":", "assignees"], ""),
    Route("GET", ["issues", "comments", ":"], ""), Route("GET", ["issues", "events", ":"], ""),
    Route("GET", ["labels"], ""), Route("GET", ["labels", ":"], "")
  ]

  const ROUTES_10: seq<Route> := [
    Route("GET", ["milestones"], ""), Route("GET", ["milestones", ":"], ""),
    Route("GET", ["milestones", ":", "labels"], ""), Route("GET", ["pulls"], ""), Route("GET", ["pulls", ":"], ""),
    Route("GET", ["pulls", ":", "commits"], "")
  ]

  const ROUTES_11: seq<Route> := [
    Route("GET", ["pulls", ":", "files"], ""), Route("GET", ["pulls", ":", "comments"], ""),
    Route("GET", ["pulls", ":", "reviews"], ""), Route("GET", ["pulls", ":", "reviews", ":"], ""),
    Route("GET", ["pulls", ":", "requested_reviewers"], ""), Route("GET", ["pulls", ":", "merge"], "")
  ]

  const ROUTES_12: seq<Route> := [
    Route("GET", ["pulls", "comments", ":"], ""), Route("GET", ["releases"], ""),
    Route("GET", ["releases", "latest"], ""), Route("GET", ["releases", "tags", ":"], ""),
    Route("GET", ["releases", ":"], ""), Route("GET", ["releases", ":", "assets"], "")
  ]

  const ROUTES_13: seq<Route> := [
    Route("GET", ["releases", "assets", ":"], ""), Route("GET", ["statuses", ":"], ""),
    Route("GET", ["traffic", "clones"], ""), Route("GET", ["traffic", "views"], ""),
    Route("GET", ["traffic", "popular", "paths"], ""), Route("GET", ["traffic", "popular", "referrers"], "")
  ]

  const ROUTES_14: seq<Route> := [
    Route("POST", ["issues"], ""), Route("PATCH", ["issues", ":"], ""),
    Route("POST", ["issues", ":", "comments"], ""), Route("PATCH", ["issues", "comments", ":"], ""),
    Route("DELETE", ["issues", "comments", ":"], ""), Route("POST", ["issues", ":", "labels"], "")
  ]

  const ROUTES_15: seq<Route> := [
    Route("PUT", ["issues", ":", "labels"], ""), Route("DELETE", ["issues", ":", "labels"], ""),
    Route("DELETE", ["issues", ":", "labels", ":"], ""), Route("POST", ["issues", ":", "assignees"], ""),
    Route("DELETE", ["issues", ":", "assignees"], ""), Route("PUT", ["issues", ":", "lock"], "")
  ]

  const ROUTES_16: seq<Route> := [
    Route("DELETE", ["issues", ":", "lock"], ""), Route("POST", ["issues", ":", "reactions"], ""),
    Route("DELETE", ["issues", ":", "reactions", ":"], ""),
    Route("POST", ["issues", "comments", ":", "reactions"], ""),
    Route("DELETE", ["issues", "comments", ":", "reactions", ":"], ""), Route("POST", ["labels"], "")
  ]

  const ROUTES_17: seq<Route> := [
    Route("PATCH", ["labels", ":"], ""), Route("DELETE", ["labels", ":"], ""), Route("POST", ["milestones"], ""),
    Route("PATCH", ["milestones", ":"], ""), Route("DELETE", ["milestones", ":"], ""), Route("POST", ["pulls"], "")
  ]

  const ROUTES_18: seq<Route> := [
    Route("PATCH", ["pulls", ":"], ""), Route("PUT", ["pulls", ":", "merge"], PULLS_MERGE),
    Route("POST", ["pulls", ":", "comments"], ""), Route("POST", ["pulls", ":", "comments", ":", "replies"], ""),
    Route("PATCH", ["pulls", "comments", ":"], ""), Route("DELETE", ["pulls", "comments", ":"], "")
  ]

  const ROUTES_19: seq<Route> := [
    Route("POST", ["pulls", ":", "reviews"], ""), Route("DELETE", ["pulls", ":", "reviews", ":"], ""),
    Route("POST", ["pulls", ":", "reviews", ":", "events"], ""),
    Route("PUT", ["pulls", ":", "reviews", ":", "dismissals"], PULLS_REVIEW_DISMISS),
    Route("POST", ["pulls", ":", "requested_reviewers"], ""),
    Route("DELETE", ["pulls", ":", "requested_reviewers"], "")
  ]

  const ROUTES_20: seq<Route> := [
    Route("POST", ["pulls", "comments", ":", "reactions"], ""),
    Route("DELETE", ["pulls", "comments", ":", "reactions", ":"], ""),
    Route("POST", ["actions", "workflows", ":", "dispatches"], ACTIONS_WRITE),
    Route("PUT", ["actions", "workflows", ":", "enable"], ACTIONS_WRITE),
    Route("PUT", ["actions", "workflows", ":", "disable"], ACTIONS_WRITE),
    Route("POST", ["actions", "runs", ":", "rerun"], ACTIONS_WRITE)
  ]

  const ROUTES_21: seq<Route> := [
    Route("POST", ["actions", "runs", ":", "rerun-failed-jobs"], ACTIONS_WRITE),
    Route("POST", ["actions", "runs", ":", "cancel"], ACTIONS_WRITE),
    Route("POST", ["actions", "runs", ":", "force-cancel"], ACTIONS_WRITE),
    Route("POST", ["actions", "jobs", ":", "rerun"], ACTIONS_WRITE),
    Route("DELETE", ["actions", "runs", ":"], ACTIONS_WRITE),
    Route("DELETE", ["actions", "runs", ":", "logs"], ACTIONS_WRITE)
  ]

  const ROUTES_22: seq<Route> := [
    Route("DELETE", ["actions", "artifacts", ":"], ACTIONS_WRITE),
    Route("DELETE", ["actions", "caches"], ACTIONS_WRITE),
    Route("DELETE", ["actions", "caches", ":"], ACTIONS_WRITE), Route("POST", ["check-runs"], CHECKS_WRITE),
    Route("PATCH", ["check-runs", ":"], CHECKS_WRITE), Route("POST", ["check-suites"], CHECKS_WRITE)
  ]

  const ROUTES_23: seq<Route> := [
    Route("POST", ["check-suites", ":", "rerequest"], CHECKS_WRITE),
    Route("PUT", ["contents", "**"], CONTENTS_WRITE), Route("DELETE", ["contents", "**"], CONTENTS_WRITE),
    Route("POST", ["git", "blobs"], CONTENTS_WRITE), Route("POST", ["git", "commits"], CONTENTS_WRITE),
    Route("POST", ["git", "trees"], CONTENTS_WRITE)
  ]

  const ROUTES_24: seq<Route> := [
    Route("POST", ["git", "tags"], CONTENTS_WRITE), Route("POST", ["git", "refs"], CONTENTS_WRITE),
    Route("PATCH", ["git", "refs", "**"], CONTENTS_WRITE), Route("POST", ["deployments"], DEPLOYMENTS_WRITE),
    Route("POST", ["deployments", ":", "statuses"], DEPLOYMENTS_WRITE), Route("POST", ["releases"], RELEASES_WRITE)
  ]

  const ROUTES_25: seq<Route> := [
    Route("POST", ["releases", "generate-notes"], RELEASES_WRITE), Route("PATCH", ["releases", ":"], RELEASES_WRITE),
    Route("DELETE", ["releases", ":"], RELEASES_WRITE), Route("DELETE", ["releases", "assets", ":"], RELEASES_WRITE),
    Route("POST", ["statuses", ":"], CHECKS_WRITE)
  ]

  const REST_ROUTES: seq<Route> :=
    ROUTES_1 + ROUTES_2 + ROUTES_3 + ROUTES_4 + ROUTES_5 + ROUTES_6 + ROUTES_7 + ROUTES_8 + ROUTES_9 +
    ROUTES_10 + ROUTES_11 + ROUTES_12 + ROUTES_13 + ROUTES_14 + ROUTES_15 + ROUTES_16 + ROUTES_17 + ROUTES_18 +
    ROUTES_19 + ROUTES_20 + ROUTES_21 + ROUTES_22 + ROUTES_23 + ROUTES_24 + ROUTES_25

  // ---------------------------------------------------------------- the matcher

  predicate SegmentsMatch(pattern: seq<string>, path: seq<string>)
    requires |pattern| <= |path|
  {
    forall k :: 0 <= k < |pattern| ==> pattern[k] == ":" || pattern[k] == path[k]
  }

  /** ":" stands for one segment; a final "**" for any suffix, the empty one included; a "**"
      anywhere else matches nothing. */
  predicate Matches(pattern: seq<string>, path: seq<string>) {
    if pattern != [] && pattern[|pattern| - 1] == "**" then
      var stem := pattern[..|pattern| - 1];
      "**" !in stem && |stem| <= |path| && SegmentsMatch(stem, path)
    else
      "**" !in pattern && |pattern| == |path| && SegmentsMatch(pattern, path)
  }

  method MatchRestPath(pattern: seq<string>, path: seq<string>) returns (matched: bool)
    ensures matched == Matches(pattern, path)
  {
    if pattern == [] { return |path| == 0; }
    for index := 0 to |pattern|
      invariant index <= |path| && "**" !in pattern[..index] && SegmentsMatch(pattern[..index], path)
    {
      assert pattern[..index + 1] == pattern[..index] + [pattern[index]];
      if pattern[index] == "**" {
        if index != |pattern| - 1 { assert pattern[..|pattern| - 1][index] == "**"; }
        return index == |pattern| - 1;
      }
      if index >= |path| || (pattern[index] != ":" && pattern[index] != path[index]) {
        if pattern[|pattern| - 1] == "**" && index < |path| {
          assert pattern[..|pattern| - 1][index] == pattern[index];
        }
        return false;
      }
    }
    assert pattern[..|pattern|] == pattern;
    return |pattern| == |path|;
  }

  predicate ContainsSegment(path: seq<string>, denied: set<string>) {
    exists k :: 0 <= k < |path| && path[k] in denied
  }

  predicate HardDenied(path: seq<string>) {
    if path == [] then false
    else if path[0] == "actions" then |path| > 1 && (path[1] == "secrets" || path[1] == "variables")
    else if path[0] in {"collaborators", "environments", "hooks", "invitations", "keys", "rulesets", "secret-scanning",
                        "security-advisories", "teams", "vulnerability-alerts"} then true
    else if path[0] == "issues" then
      ContainsSegment(path, {"transfer", "sub_issues", "sub-issues", "dependencies", "blocked_by", "blocked-by"})
    else if path[0] == "pulls" then ContainsSegment(path, {"update-branch"})
    else false
  }

  function Effective(verb: string): string {
    if verb == "HEAD" then "GET" else verb
  }

  predicate Hits(route: Route, verb: string, path: seq<string>) {
    route.verb == verb && Matches(route.pattern, path)
  }

  predicate Grants(route: Route, verb: string, policy: Policy) {
    && (verb == "DELETE" ==> policy.Allows(OBJECTS_DELETE))
    && (route.grant == "" || policy.Allows(route.grant))
  }

  /** What the code computes: the first route that matches decides. */
  predicate FirstMatch(routes: seq<Route>, verb: string, path: seq<string>, policy: Policy) {
    if routes == [] then false
    else if Hits(routes[0], verb, path) then Grants(routes[0], verb, policy)
    else FirstMatch(routes[1..], verb, path, policy)
  }

  method ScanRoutes(routes: seq<Route>, verb: string, path: seq<string>, policy: Policy) returns (allowed: bool)
    ensures allowed == FirstMatch(routes, verb, path, policy)
  {
    for i := 0 to |routes|
      invariant FirstMatch(routes, verb, path, policy) == FirstMatch(routes[i..], verb, path, policy)
    {
      var route := routes[i];
      assert routes[i..][0] == route && routes[i..][1..] == routes[i + 1..];
      var matched := MatchRestPath(route.pattern, path);
      if route.verb != verb || !matched { continue; }
      if verb == "DELETE" && !policy.Allows(OBJECTS_DELETE) { return false; }
      return route.grant == "" || policy.Allows(route.grant);
    }
    return false;
  }

  method AuthorizeRest(requestVerb: string, path: seq<string>, policy: Policy) returns (allowed: bool)
    ensures allowed == RestAllowed(requestVerb, path, policy)
  {
    if HardDenied(path) { return false; }
    allowed := ScanRoutes(REST_ROUTES, Effective(requestVerb), path, policy);
  }

  predicate RestAllowed(verb: string, path: seq<string>, policy: Policy) {
    !HardDenied(path) && FirstMatch(REST_ROUTES, Effective(verb), path, policy)
  }

  // ---------------------------------------------------------------- the table is consistent

  /** The grant that a method and path call for, read off the path itself. */
  function GrantFor(verb: string, path: seq<string>): string {
    if verb == "GET" || path == [] then ""
    else if path[0] == "actions" then ACTIONS_WRITE
    else if path[0] == "check-runs" || path[0] == "check-suites" || path[0] == "statuses" then CHECKS_WRITE
    else if path[0] == "contents" || path[0] == "git" then CONTENTS_WRITE
    else if path[0] == "deployments" then DEPLOYMENTS_WRITE
    else if path[0] == "releases" then RELEASES_WRITE
    else if path[0] == "pulls" && verb == "PUT" then
      if |path| == 3 then PULLS_MERGE else PULLS_REVIEW_DISMISS
    else ""
  }

  /** "**" stands at the end or nowhere. */
  predicate WildAtEnd(pattern: seq<string>) {
    forall i :: 0 <= i < |pattern| - 1 ==> pattern[i] != "**"
  }

  /** A route whose grant follows from the shape that its paths share. */
  predicate Regular(route: Route) {
    && WildAtEnd(route.pattern)
    && route.grant == GrantFor(route.verb, route.pattern)
    && (route.verb != "GET" ==>
          route.pattern != [] && route.pattern[0] != ":" && route.pattern[0] != "**")
    && (route.verb == "PUT" && route.pattern[0] == "pulls" ==> route.pattern[|route.pattern| - 1] != "**")
  }

  lemma RegularRouteGrant(route: Route, path: seq<string>)
    requires Regular(route) && Matches(route.pattern, path)
    ensures route.grant == GrantFor(route.verb, path)
  {
    if route.verb != "GET" {
      if route.pattern[|route.pattern| - 1] == "**" {
        assert route.pattern[..|route.pattern| - 1][0] == route.pattern[0];
      }
      assert path[0] == route.pattern[0];
    }
  }

  lemma Regular1()
    ensures forall r :: r in ROUTES_1 ==> Regular(r)
  {
  }

  lemma Regular2()
    ensures forall r :: r in ROUTES_2 ==> Regular(r)
  {
  }

  lemma Regular3()
    ensures forall r :: r in ROUTES_3 ==> Regular(r)
  {
  }

  lemma Regular4()
    ensures forall r :: r in ROUTES_4 ==> Regular(r)
  {
  }

  lemma Regular5()
    ensures forall r :: r in ROUTES_5 ==> Regular(r)
  {
  }

  lemma Regular6()
    ensures forall r :: r in ROUTES_6 ==> Regular(r)
  {
  }

  lemma Regular7()
    ensures forall r :: r in ROUTES_7 ==> Regular(r)
  {
  }

  lemma Regular8()
    ensures forall r :: r in ROUTES_8 ==> Regular(r)
  {
  }

  lemma Regular9()
    ensures forall r :: r in ROUTES_9 ==> Regular(r)
  {
  }

  lemma Regular10()
    ensures forall r :: r in ROUTES_10 ==> Regular(r)
  {
  }

  lemma Regular11()
    ensures forall r :: r in ROUTES_11 ==> Regular(r)
  {
  }

  lemma Regular12()
    ensures forall r :: r in ROUTES_12 ==> Regular(r)
  {
  }

  lemma Regular13()
    ensures forall r :: r in ROUTES_13 ==> Regular(r)
  {
  }

  lemma Regular14()
    ensures forall r :: r in ROUTES_14 ==> Regular(r)
  {
  }

  lemma Regular15()
    ensures forall r :: r in ROUTES_15 ==> Regular(r)
  {
  }

  lemma Regular16()
    ensures forall r :: r in ROUTES_16 ==> Regular(r)
  {
  }

  lemma Regular17()
    ensures forall r :: r in ROUTES_17 ==> Regular(r)
  {
  }

  lemma Regular18()
    ensures forall r :: r in ROUTES_18 ==> Regular(r)
  {
  }

  lemma Regular19()
    ensures forall r :: r in ROUTES_19 ==> Regular(r)
  {
  }

  lemma Regular20()
    ensures forall r :: r in ROUTES_20 ==> Regular(r)
  {
  }

  lemma Regular21()
    ensures forall r :: r in ROUTES_21 ==> Regular(r)
  {
  }

  lemma Regular22()
    ensures forall r :: r in ROUTES_22 ==> Regular(r)
  {
  }

  lemma Regular23()
    ensures forall r :: r in ROUTES_23 ==> Regular(r)
  {
  }

  lemma Regular24()
    ensures forall r :: r in ROUTES_24 ==> Regular(r)
  {
  }

  lemma Regular25()
    ensures forall r :: r in ROUTES_25 ==> Regular(r)
  {
  }

  lemma EveryRouteIsRegular(route: Route)
    requires route in REST_ROUTES
    ensures Regular(route)
  {
    Regular1(); Regular2(); Regular3(); Regular4(); Regular5(); Regular6(); Regular7(); Regular8(); Regular9();
    Regular10(); Regular11(); Regular12(); Regular13(); Regular14(); Regular15(); Regular16(); Regular17(); Regular18();
    Regular19(); Regular20(); Regular21(); Regular22(); Regular23(); Regular24(); Regular25();
  }

  // ---------------------------------------------------------------- the order of the table does not matter

  lemma {:induction false} FirstMatchIsAnyMatch(routes: seq<Route>, verb: string, path: seq<string>, policy: Policy)
    requires forall r :: r in routes ==> Regular(r)
    ensures FirstMatch(routes, verb, path, policy)
       <==> exists r :: r in routes && Hits(r, verb, path) && Grants(r, verb, policy)
    ensures (exists r :: r in routes && Hits(r, verb, path)) ==>
      (FirstMatch(routes, verb, path, policy) <==>
        && (verb == "DELETE" ==> policy.Allows(OBJECTS_DELETE))
        && (GrantFor(verb, path) == "" || policy.Allows(GrantFor(verb, path))))
  {
    if routes != [] {
      if Hits(routes[0], verb, path) {
        RegularRouteGrant(routes[0], path);
        forall r | r in routes && Hits(r, verb, path)
          ensures r.grant == routes[0].grant
        {
          RegularRouteGrant(r, path);
        }
      } else {
        FirstMatchIsAnyMatch(routes[1..], verb, path, policy);
        assert forall r :: r in routes <==> r == routes[0] || r in routes[1..];
      }
    }
  }

  /** Two routes of one method that match one path call for the same grant. */
  lemma OverlappingRoutesAgree(a: Route, b: Route, path: seq<string>)
    requires a in REST_ROUTES && b in REST_ROUTES && a.verb == b.verb
    requires Matches(a.pattern, path) && Matches(b.pattern, path)
    ensures a.grant == b.grant
  {
    EveryRouteIsRegular(a);
    EveryRouteIsRegular(b);
    RegularRouteGrant(a, path);
    RegularRouteGrant(b, path);
  }

  /** Any reordering of the table, repetitions included, gives every request the same verdict. */
  lemma ReorderingKeepsVerdicts(routes: seq<Route>, verb: string, path: seq<string>, policy: Policy)
    requires forall r :: r in routes <==> r in REST_ROUTES
    ensures FirstMatch(routes, verb, path, policy) == FirstMatch(REST_ROUTES, verb, path, policy)
  {
    forall r | r in routes
      ensures Regular(r)
    {
      EveryRouteIsRegular(r);
    }
    FirstMatchIsAnyMatch(routes, verb, path, policy);
    FirstMatchIsAnyMatch(REST_ROUTES, verb, path, policy);
  }

  /** Some route of the table is for the verb and matches the path. */
  ghost predicate Covered(routes: seq<Route>, verb: string, path: seq<string>) {
    exists r :: r in routes && Hits(r, verb, path)
  }

  lemma MatchReadsOffThePath(routes: seq<Route>, verb: string, path: seq<string>, policy: Policy)
    requires forall r :: r in routes ==> Regular(r)
    ensures FirstMatch(routes, verb, path, policy) <==>
      && Covered(routes, verb, path)
      && (verb == "DELETE" ==> policy.Allows(OBJECTS_DELETE))
      && (GrantFor(verb, path) == "" || policy.Allows(GrantFor(verb, path)))
  {
    FirstMatchIsAnyMatch(routes, verb, path, policy);
  }

  lemma TableIsRegular()
    ensures forall r :: r in REST_ROUTES ==> Regular(r)
  {
    forall r | r in REST_ROUTES
      ensures Regular(r)
    {
      EveryRouteIsRegular(r);
    }
  }

  /** The verdict without the scan: some route covers the request, and its grants are held. */
  lemma VerdictReadsOffThePath(verb: string, path: seq<string>, policy: Policy)
    ensures RestAllowed(verb, path, policy) <==>
      && !HardDenied(path) && Covered(REST_ROUTES, Effective(verb), path)
      && (Effective(verb) == "DELETE" ==> policy.Allows(OBJECTS_DELETE))
      && (GrantFor(Effective(verb), path) == "" || policy.Allows(GrantFor(Effective(verb), path)))
  {
    TableIsRegular();
    MatchReadsOffThePath(REST_ROUTES, Effective(verb), path, policy);
  }
}
