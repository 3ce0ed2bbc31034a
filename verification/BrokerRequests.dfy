/**
 * What the gates in front of the upstream say together: how requests that are not Git's are classified, over
 * the strings of their paths, and which Git and LFS requests are open to which policies.
 */
module BrokerRequests {
  import opened Policies
  import opened GitRefs
  import opened Strings
  import opened RequestClasses
  import opened RestRoutes
  import opened RestBodies
  import opened PolicyChanges
  import opened ReceivePack

  /** A REST path that looks like the end of a push. */
  predicate LooksLikePush(path: string) {
    Contains(path, ".git/") && HasSuffix(path, "/git-receive-pack")
  }

  /** A REST request is a mutation if and only if its method is neither GET nor HEAD, or its path looks like
      the end of a push. */
  lemma RestClass(verb: string, path: string, body: LfsBody)
    requires "/api/v3/" <= path
    ensures IsMutation(verb, FactsOf(path), body) <==> (verb != "GET" && verb != "HEAD") || LooksLikePush(path)
  {
  }

  /** Outside REST and Git every request is a read. */
  lemma OtherClass(verb: string, path: string, body: LfsBody)
    requires !("/api/v3/" <= path) && !Contains(path, ".git/")
    ensures !IsMutation(verb, FactsOf(path), body)
  {
  }

  lemma NoDotNoGit(path: string)
    requires '.' !in path
    ensures !Contains(path, ".git/")
  {
    forall i | 0 <= i <= |path|
      ensures !(".git/" <= path[i..])
    {
      PartAt(path, i, ".git/", 0);
    }
  }

  /** GraphQL and context requests are reads, whatever their method. */
  lemma QueriesAreReads(verb: string, path: string, body: LfsBody)
    requires path == "/api/graphql" || path == "/_pgh/v1/context"
    ensures !IsMutation(verb, FactsOf(path), body)
  {
    NoDotNoGit(path);
    assert path[5] == 'g' || path[1] == '_';
    OtherClass(verb, path, body);
  }

  /** The path of a REST request on a repository. */
  function RestPath(owner: string, name: string, path: seq<string>): string {
    "/api/v3/" + Join(["repos", owner, name] + path, "/")
  }

  /** A REST request that the routes let through is a mutation exactly when its route is one for writing,
      paths that look like the end of a push aside. */
  lemma AllowedRestClass(
      verb: string, owner: string, name: string, path: seq<string>, policy: Policy, body: LfsBody)
    returns (route: Route)
    requires RestAllowed(verb, path, policy)
    ensures route in REST_ROUTES && Matches(route.pattern, path)
    ensures route.verb == verb || (verb == "HEAD" && route.verb == "GET")
    ensures !LooksLikePush(RestPath(owner, name, path)) ==>
              (IsMutation(verb, FactsOf(RestPath(owner, name, path)), body) <==> route.verb != "GET")
    ensures route.verb != "GET" ==> IsMutation(verb, FactsOf(RestPath(owner, name, path)), body)
  {
    VerdictReadsOffThePath(verb, path, policy);
    route :| route in REST_ROUTES && Hits(route, Effective(verb), path);
    RestClass(verb, RestPath(owner, name, path), body);
  }

  lemma PushEnd(front: string, suffix: string)
    requires suffix == "/git-receive-pack"
    ensures LooksLikePush(front + ".git" + suffix)
  {
    var path := front + ".git" + suffix;
    assert path[|front|..] == ".git" + suffix && (".git" + suffix)[..5] == ".git/";
    assert path[|path| - |suffix|..] == suffix;
  }

  /** A look at a file below "x.git", with the name of the push service, counts as a mutation. */
  lemma ReadThatLooksLikePush(front: string, path: string, body: LfsBody)
    requires "/api/v3/" <= front && path == front + ".git" + "/git-receive-pack"
    ensures IsMutation("GET", FactsOf(path), body)
  {
    PushEnd(front, "/git-receive-pack");
    RestClass("GET", path, body);
  }

  // ---------------------------------------------------------------- which REST requests are let through

  /** The path that a pattern stands for once its ":" segments are filled in and its "**" is replaced. */
  function Filled(pattern: seq<string>, segments: seq<string>, tail: seq<string>): seq<string>
    requires |segments| >= |pattern|
  {
    if pattern == [] then []
    else if pattern == ["**"] then tail
    else [if pattern[0] == ":" then segments[0] else pattern[0]] + Filled(pattern[1..], segments[1..], tail)
  }

  ghost predicate IsInstance(pattern: seq<string>, path: seq<string>) {
    exists segments, tail :: |segments| >= |pattern| && path == Filled(pattern, segments, tail)
  }

  lemma MatchTail(pattern: seq<string>, path: seq<string>)
    requires pattern != [] && pattern != ["**"] && WildAtEnd(pattern)
    ensures WildAtEnd(pattern[1..])
    ensures Matches(pattern, path) <==>
            path != [] && (pattern[0] == ":" || pattern[0] == path[0]) && Matches(pattern[1..], path[1..])
  {
    var rest := pattern[1..];
    assert forall i :: 0 <= i < |rest| ==> rest[i] == pattern[i + 1];
    if |pattern| > 1 {
      assert pattern[0] != "**" && rest[|rest| - 1] == pattern[|pattern| - 1];
      if pattern[|pattern| - 1] == "**" {
        StemTail(pattern, path);
      } else {
        assert "**" !in pattern && "**" !in rest;
        SegmentsTail(pattern, path);
      }
    } else {
      assert pattern == [pattern[0]] && rest == [];
      SegmentsTail(pattern, path);
    }
  }

  lemma SegmentsTail(pattern: seq<string>, path: seq<string>)
    requires pattern != []
    ensures |pattern| <= |path| && SegmentsMatch(pattern, path) <==>
            && |pattern| <= |path| && (pattern[0] == ":" || pattern[0] == path[0])
            && SegmentsMatch(pattern[1..], path[1..])
  {
    if |pattern| <= |path| && SegmentsMatch(pattern[1..], path[1..]) && (pattern[0] == ":" || pattern[0] == path[0]) {
      forall k | 0 <= k < |pattern|
        ensures pattern[k] == ":" || pattern[k] == path[k]
      {
        if k > 0 { assert pattern[1..][k - 1] == ":" || pattern[1..][k - 1] == path[1..][k - 1]; }
      }
    }
  }

  lemma StemTail(pattern: seq<string>, path: seq<string>)
    requires |pattern| > 1 && WildAtEnd(pattern) && pattern[|pattern| - 1] == "**"
    ensures Matches(pattern, path) <==>
            path != [] && (pattern[0] == ":" || pattern[0] == path[0]) && Matches(pattern[1..], path[1..])
  {
    var stem, rest := pattern[..|pattern| - 1], pattern[1..];
    assert rest[..|rest| - 1] == stem[1..] && rest[|rest| - 1] == "**";
    assert "**" !in stem && "**" !in stem[1..];
    SegmentsTail(stem, path);
  }

  /** A pattern matches exactly the paths it stands for. */
  lemma {:induction false} MatchesInstances(pattern: seq<string>, path: seq<string>)
    requires WildAtEnd(pattern)
    ensures Matches(pattern, path) <==> IsInstance(pattern, path)
    decreases |pattern|
  {
    if pattern == [] {
      assert Matches(pattern, path) <==> path == [];
      if path == [] { assert path == Filled(pattern, [], []); }
    } else if pattern == ["**"] {
      assert pattern[..|pattern| - 1] == [];
      assert path == Filled(pattern, [""], path);
    } else {
      MatchTail(pattern, path);
      if path != [] { MatchesInstances(pattern[1..], path[1..]); }
      InstanceTail(pattern, path);
    }
  }

  lemma InstanceTail(pattern: seq<string>, path: seq<string>)
    requires pattern != [] && pattern != ["**"]
    ensures IsInstance(pattern, path) <==>
            path != [] && (pattern[0] == ":" || pattern[0] == path[0]) && IsInstance(pattern[1..], path[1..])
  {
    if IsInstance(pattern, path) {
      var segments, tail :| |segments| >= |pattern| && path == Filled(pattern, segments, tail);
      assert path[1..] == Filled(pattern[1..], segments[1..], tail);
    }
    if path != [] && (pattern[0] == ":" || pattern[0] == path[0]) && IsInstance(pattern[1..], path[1..]) {
      var segments, tail :| |segments| >= |pattern[1..]| && path[1..] == Filled(pattern[1..], segments, tail);
      var more := [path[0]] + segments;
      assert more[1..] == segments && path == [path[0]] + path[1..];
      assert path == Filled(pattern, more, tail);
    }
  }

  /** What no capability may reach, on any route: administration, secrets, and moves between repositories. */
  predicate OutOfReach(path: seq<string>) {
    && path != []
    && (|| path[0] in {"collaborators", "environments", "hooks", "invitations", "keys", "rulesets", "secret-scanning",
                       "security-advisories", "teams", "vulnerability-alerts"}
        || (path[0] == "actions" && |path| >= 2 && path[1] in {"secrets", "variables"})
        || (path[0] == "pulls" && "update-branch" in path)
        || (path[0] == "issues" && (exists s :: s in path && s in MOVES)))
  }

  const MOVES := {"transfer", "sub_issues", "sub-issues", "dependencies", "blocked_by", "blocked-by"}

  lemma SomeSegment(path: seq<string>, denied: set<string>)
    ensures ContainsSegment(path, denied) <==> exists s :: s in path && s in denied
  {
    if s :| s in path && s in denied {
      var k :| 0 <= k < |path| && path[k] == s;
      assert path[k] in denied;
    }
  }

  lemma OutOfReachIsDenied(path: seq<string>)
    ensures HardDenied(path) <==> OutOfReach(path)
  {
    SomeSegment(path, MOVES);
    SomeSegment(path, {"update-branch"});
  }

  /** A route of the table for the request, all of whose grants the policy holds. */
  ghost predicate Opens(route: Route, verb: string, path: seq<string>, policy: Policy) {
    && route.verb == (if verb == "HEAD" then "GET" else verb) && IsInstance(route.pattern, path)
    && (route.grant == "" || policy.Allows(route.grant))
    && (verb == "DELETE" ==> policy.Allows(OBJECTS_DELETE))
  }

  lemma TablePasses(routes: seq<Route>, verb: string, path: seq<string>, policy: Policy)
    requires forall route :: route in routes ==> Regular(route)
    ensures FirstMatch(routes, Effective(verb), path, policy) <==>
            exists route :: route in routes && Opens(route, verb, path, policy)
  {
    FirstMatchIsAnyMatch(routes, Effective(verb), path, policy);
    forall route | route in routes
      ensures Hits(route, Effective(verb), path) && Grants(route, Effective(verb), policy) <==>
              Opens(route, verb, path, policy)
    {
      MatchesInstances(route.pattern, path);
    }
  }

  /** A REST request is let through exactly when its path is within reach and an instance of a route for its
      method, HEAD being decided as GET, and the policy holds the route's grant and, to delete, the grant for
      that too. */
  lemma RestPasses(verb: string, path: seq<string>, policy: Policy)
    ensures RestAllowed(verb, path, policy) <==>
            !OutOfReach(path) && exists route :: route in REST_ROUTES && Opens(route, verb, path, policy)
  {
    OutOfReachIsDenied(path);
    TableIsRegular();
    TablePasses(REST_ROUTES, verb, path, policy);
  }

  // ---------------------------------------------------------------- Git and LFS

  /** Some ref may be updated under the policy, in a repository with some default branch. */
  ghost predicate SomePushIsOpen(policy: GitPolicy) {
    exists command, branch :: Permitted(command, branch, policy)
  }

  lemma CanPushSomething(policy: GitPolicy)
    ensures GitCanPush(policy) <==> SomePushIsOpen(policy)
  {
    var tag, head := RefCommand("1", "refs/tags/v1"), RefCommand("1", "refs/heads/main");
    assert '1' in "1" && "refs/tags/" <= tag.ref && "refs/heads/" <= head.ref;
    assert "refs/heads/" + "trunk" != "refs/heads/main";
    TagsAreNoBranches(tag.ref);
    TagsAreNoBranches(head.ref);
    if policy.tags { assert Permitted(tag, "trunk", policy); }
    if policy.push == PUSH_NON_DEFAULT || policy.push == PUSH_ALL { assert Permitted(head, "trunk", policy); }
  }

  /** Downloads and looks at locks are open to every policy; uploads and changes of locks to those under which
      some ref may be pushed. */
  ghost predicate LfsIsOpen(verb: string, remainder: string, body: LfsBody, policy: GitPolicy) {
    || (verb == "POST" && remainder == "info/lfs/objects/batch" && body == Batch("download"))
    || (verb == "GET" && remainder == "info/lfs/locks")
    || (SomePushIsOpen(policy) && verb == "POST"
        && ((remainder == "info/lfs/objects/batch" && body == Batch("upload"))
            || remainder == "info/lfs/locks" || remainder == "info/lfs/locks/verify"))
  }

  /** No other LFS request is open to any policy. */
  lemma LfsPasses(verb: string, remainder: string, body: LfsBody, policy: GitPolicy)
    ensures AuthorizeLfs(verb, remainder, body, policy) <==> LfsIsOpen(verb, remainder, body, policy)
  {
    CanPushSomething(policy);
  }

  /** Fetching is open to every policy, the push service is shown exactly where some push is open, a push goes
      through exactly when its commands do, and an LFS request exactly when it is open. */
  lemma GitPasses(verb: string, remainder: string, service: string, body: LfsBody, push: bool, policy: GitPolicy)
    ensures GitForwards(verb, remainder, service, body, push, policy) <==>
            || (verb == "GET" && remainder == "info/refs" && service == "git-upload-pack")
            || (verb == "GET" && remainder == "info/refs" && service == "git-receive-pack" && SomePushIsOpen(policy))
            || (verb == "POST" && remainder == "git-upload-pack")
            || (verb == "POST" && remainder == "git-receive-pack" && push)
            || LfsIsOpen(verb, remainder, body, policy)
  {
    CanPushSomething(policy);
    LfsPasses(verb, remainder, body, policy);
    assert "info/refs"[5] == 'r' && "git-upload-pack"[0] == 'g' && "git-receive-pack"[0] == 'g';
    assert "info/lfs/" <= "info/lfs/objects/batch" && "info/lfs/" <= "info/lfs/locks";
    assert "info/lfs/" <= "info/lfs/locks/verify";
  }

  /** The authority that policy changes are measured by is that of these gates. */
  lemma AuthorityIsOpenness(policy: Policy, operation: Operation)
    ensures Permits(policy, operation) <==>
            match operation
            case RestCall(verb, path, body, defaultBranch) =>
              && !OutOfReach(path) && (exists route :: route in REST_ROUTES && Opens(route, verb, path, policy))
              && AuthorizeRestBody(verb, path, body, defaultBranch, policy.git) == Passed
            case RefUpdate(command, defaultBranch) => Permitted(command, defaultBranch, policy.git)
            case PushAdvertisement => SomePushIsOpen(policy.git)
            case LfsCall(verb, remainder, body) => LfsIsOpen(verb, remainder, body, policy.git)
  {
    match operation
    case RestCall(verb, path, _, _) => RestPasses(verb, path, policy);
    case RefUpdate(command, defaultBranch) => AuthorizedIsPermitted(command, defaultBranch, policy.git);
    case PushAdvertisement => CanPushSomething(policy.git);
    case LfsCall(verb, remainder, body) => LfsPasses(verb, remainder, body, policy.git);
  }
}
