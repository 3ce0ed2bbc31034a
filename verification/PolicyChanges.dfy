/**
 * Classifying a policy replacement. The comparison looks only at the grant keys, the push tier and
 * the tag switch; it is proved to describe effective authority exactly, where effective authority is
 * every operation that the REST, REST body, Git and LFS authorizers let through.
 */
module PolicyChanges {
  import opened Wrappers
  import opened Policies
  import opened GitRefs
  import opened RestRoutes
  import opened RestBodies

  datatype Direction = Unchanged | Broadened | Narrowed | Mixed

  datatype InvalidPolicy = InvalidBefore | InvalidAfter

  function PushAuthority(mode: string): nat
    requires mode in {PUSH_NONE, PUSH_NON_DEFAULT, PUSH_ALL}
  {
    if mode == PUSH_NONE then 0 else if mode == PUSH_NON_DEFAULT then 1 else 2
  }

  /** Some control of `after` exceeds the same control of `before`. */
  ghost predicate Gains(before: Policy, after: Policy)
    requires ValidPolicy(before) && ValidPolicy(after)
  {
    || (exists grant :: grant in after.grants && !before.Allows(grant))
    || PushAuthority(after.git.push) > PushAuthority(before.git.push)
    || (after.git.tags && !before.git.tags)
  }

  ghost function DirectionOf(gained: bool, lost: bool): Direction {
    if gained && lost then Mixed else if gained then Broadened else if lost then Narrowed else Unchanged
  }

  ghost function Classified(before: Policy, after: Policy): Result<Direction, InvalidPolicy> {
    if !ValidPolicy(before) then Err(InvalidBefore)
    else if !ValidPolicy(after) then Err(InvalidAfter)
    else Ok(DirectionOf(Gains(before, after), Gains(after, before)))
  }

  method SomeGrantMissing(from: map<string, bool>, policy: Policy) returns (missing: bool)
    ensures missing <==> exists grant :: grant in from && !policy.Allows(grant)
  {
    missing := false;
    var pending := from.Keys;
    while pending != {}
      invariant pending <= from.Keys
      invariant missing <==> exists grant :: grant in from.Keys - pending && !policy.Allows(grant)
      decreases pending
    {
      var grant :| grant in pending;
      if !policy.Allows(grant) { missing := true; }
      pending := pending - {grant};
    }
  }

  method ClassifyPolicyChange(before: Policy, after: Policy) returns (r: Result<Direction, InvalidPolicy>)
    ensures r == Classified(before, after)
    ensures r == Err(InvalidBefore) <==> !ValidPolicy(before)
    ensures r == Err(InvalidAfter) <==> ValidPolicy(before) && !ValidPolicy(after)
  {
    if !ValidPolicy(before) { return Err(InvalidBefore); }
    if !ValidPolicy(after) { return Err(InvalidAfter); }
    var lost := SomeGrantMissing(before.grants, after);
    var gained := SomeGrantMissing(after.grants, before);
    var beforePush := PushAuthority(before.git.push);
    var afterPush := PushAuthority(after.git.push);
    if afterPush > beforePush { gained := true; }
    else if afterPush < beforePush { lost := true; }
    if after.git.tags && !before.git.tags { gained := true; }
    else if before.git.tags && !after.git.tags { lost := true; }
    if gained && lost { return Ok(Mixed); }
    if gained { return Ok(Broadened); }
    if lost { return Ok(Narrowed); }
    return Ok(Unchanged);
  }

  // ---------------------------------------------------------------- effective authority

  datatype Operation =
    | RestCall(verb: string, path: seq<string>, body: Body, defaultBranch: string)
    | RefUpdate(command: RefCommand, defaultBranch: string)
    | PushAdvertisement
    | LfsCall(verb: string, remainder: string, lfsBody: LfsBody)

  /** What the server does: a REST request needs its route and its body to pass. */
  predicate Permits(policy: Policy, operation: Operation) {
    match operation
    case RestCall(verb, path, body, defaultBranch) =>
      RestAllowed(verb, path, policy) && AuthorizeRestBody(verb, path, body, defaultBranch, policy.git) == Passed
    case RefUpdate(command, defaultBranch) => AuthorizeGitRef(command, defaultBranch, policy.git)
    case PushAdvertisement => GitCanPush(policy.git)
    case LfsCall(verb, remainder, body) => AuthorizeLfs(verb, remainder, body, policy.git)
  }

  /** Everything the smaller policy permits, the larger one permits too. */
  ghost predicate NoMoreThan(smaller: Policy, larger: Policy) {
    forall operation :: Permits(smaller, operation) ==> Permits(larger, operation)
  }

  lemma RestBodyIsMonotone(
      verb: string, path: seq<string>, body: Body, defaultBranch: string, smaller: GitPolicy, larger: GitPolicy)
    requires forall command, branch ::
               AuthorizeGitRef(command, branch, smaller) ==> AuthorizeGitRef(command, branch, larger)
    requires smaller.tags ==> larger.tags
    requires AuthorizeRestBody(verb, path, body, defaultBranch, smaller) == Passed
    ensures AuthorizeRestBody(verb, path, body, defaultBranch, larger) == Passed
  {
    assert forall ref :: AuthorizeRestRef(ref, defaultBranch, smaller) ==> AuthorizeRestRef(ref, defaultBranch, larger);
  }

  lemma RefsAreMonotone(before: Policy, after: Policy)
    requires ValidPolicy(before) && ValidPolicy(after) && !Gains(before, after)
    ensures forall command, branch ::
              AuthorizeGitRef(command, branch, after.git) ==> AuthorizeGitRef(command, branch, before.git)
  {
  }

  lemma PermittedBefore(before: Policy, after: Policy, operation: Operation)
    requires ValidPolicy(before) && ValidPolicy(after) && !Gains(before, after) && Permits(after, operation)
    ensures Permits(before, operation)
  {
    match operation
    case RestCall(verb, path, body, defaultBranch) =>
      RefsAreMonotone(before, after);
      VerdictReadsOffThePath(verb, path, before);
      VerdictReadsOffThePath(verb, path, after);
      RestBodyIsMonotone(verb, path, body, defaultBranch, after.git, before.git);
    case RefUpdate(_, _) => RefsAreMonotone(before, after);
    case _ =>
  }

  lemma NoGainPermitsNoMore(before: Policy, after: Policy)
    requires ValidPolicy(before) && ValidPolicy(after) && !Gains(before, after)
    ensures NoMoreThan(after, before)
  {
    forall operation | Permits(after, operation)
      ensures Permits(before, operation)
    {
      PermittedBefore(before, after, operation);
    }
  }

  // ---------------------------------------------------------------- each control decides some operation

  function ProbeFor(grant: string): (string, seq<string>) {
    if grant == ACTIONS_WRITE then ("POST", ["actions", "jobs", "1", "rerun"])
    else if grant == CHECKS_WRITE then ("POST", ["check-runs"])
    else if grant == CONTENTS_WRITE then ("POST", ["git", "blobs"])
    else if grant == DEPLOYMENTS_WRITE then ("POST", ["deployments", "1", "statuses"])
    else if grant == OBJECTS_DELETE then ("DELETE", ["labels", "bug"])
    else if grant == PULLS_MERGE then ("PUT", ["pulls", "1", "merge"])
    else if grant == PULLS_REVIEW_DISMISS then ("PUT", ["pulls", "1", "reviews", "2", "dismissals"])
    else ("POST", ["releases", "generate-notes"])
  }

  function ProbeRoute(grant: string): Route {
    if grant == ACTIONS_WRITE then Route("POST", ["actions", "jobs", ":", "rerun"], ACTIONS_WRITE)
    else if grant == CHECKS_WRITE then Route("POST", ["check-runs"], CHECKS_WRITE)
    else if grant == CONTENTS_WRITE then Route("POST", ["git", "blobs"], CONTENTS_WRITE)
    else if grant == DEPLOYMENTS_WRITE then Route("POST", ["deployments", ":", "statuses"], DEPLOYMENTS_WRITE)
    else if grant == OBJECTS_DELETE then Route("DELETE", ["labels", ":"], "")
    else if grant == PULLS_MERGE then Route("PUT", ["pulls", ":", "merge"], PULLS_MERGE)
    else if grant == PULLS_REVIEW_DISMISS then
      Route("PUT", ["pulls", ":", "reviews", ":", "dismissals"], PULLS_REVIEW_DISMISS)
    else Route("POST", ["releases", "generate-notes"], RELEASES_WRITE)
  }

  lemma ProbeRouteIsInTable(grant: string)
    requires IsKnownGrant(grant)
    ensures ProbeRoute(grant) in REST_ROUTES
  {
    assert ProbeRoute(grant) in REST_ROUTES;
  }

  lemma ProbeRouteHits(grant: string)
    requires IsKnownGrant(grant)
    ensures Hits(ProbeRoute(grant), ProbeFor(grant).0, ProbeFor(grant).1) && !HardDenied(ProbeFor(grant).1)
  {
    if grant in {ACTIONS_WRITE, CHECKS_WRITE, CONTENTS_WRITE} {
      WriteProbesHit(grant);
    } else if grant in {PULLS_MERGE, PULLS_REVIEW_DISMISS} {
      PullProbesHit(grant);
    } else {
      OtherProbesHit(grant);
    }
  }

  lemma WriteProbesHit(grant: string)
    requires grant in {ACTIONS_WRITE, CHECKS_WRITE, CONTENTS_WRITE}
    ensures Hits(ProbeRoute(grant), ProbeFor(grant).0, ProbeFor(grant).1) && !HardDenied(ProbeFor(grant).1)
  {
  }

  lemma PullProbesHit(grant: string)
    requires grant in {PULLS_MERGE, PULLS_REVIEW_DISMISS}
    ensures Hits(ProbeRoute(grant), ProbeFor(grant).0, ProbeFor(grant).1) && !HardDenied(ProbeFor(grant).1)
  {
  }

  lemma OtherProbesHit(grant: string)
    requires grant in {DEPLOYMENTS_WRITE, OBJECTS_DELETE, RELEASES_WRITE}
    ensures Hits(ProbeRoute(grant), ProbeFor(grant).0, ProbeFor(grant).1) && !HardDenied(ProbeFor(grant).1)
  {
  }

  lemma ProbeCallsForGrant(grant: string)
    requires IsKnownGrant(grant)
    ensures var (verb, path) := ProbeFor(grant);
            && verb in {"POST", "PUT", "DELETE"}
            && (verb == "DELETE" <==> grant == OBJECTS_DELETE)
            && GrantFor(verb, path) == if grant == OBJECTS_DELETE then "" else grant
  {
  }

  lemma RouteNeedsGrant(route: Route, verb: string, path: seq<string>, grant: string, policy: Policy)
    requires route in REST_ROUTES && Hits(route, verb, path) && !HardDenied(path) && verb in {"POST", "PUT", "DELETE"}
    requires grant != "" && (verb == "DELETE" <==> grant == OBJECTS_DELETE)
    requires GrantFor(verb, path) == if grant == OBJECTS_DELETE then "" else grant
    ensures RestAllowed(verb, path, policy) <==> policy.Allows(grant)
  {
    VerdictReadsOffThePath(verb, path, policy);
  }

  /** The body check has nothing to say about the probes. */
  lemma ProbeBodyPasses(grant: string, body: Body, defaultBranch: string, policy: GitPolicy)
    requires IsKnownGrant(grant)
    ensures AuthorizeRestBody(ProbeFor(grant).0, ProbeFor(grant).1, body, defaultBranch, policy) == Passed
  {
  }

  function ProbeCall(grant: string, body: Body, defaultBranch: string): Operation {
    RestCall(ProbeFor(grant).0, ProbeFor(grant).1, body, defaultBranch)
  }

  /** Every known grant decides a request of its own, whatever its body: holding the grant is what
      permits the probe. */
  lemma ProbeNeedsItsGrant(grant: string, body: Body, defaultBranch: string, policy: Policy)
    requires IsKnownGrant(grant)
    ensures Permits(policy, ProbeCall(grant, body, defaultBranch)) <==> policy.Allows(grant)
  {
    ProbeRouteIsInTable(grant);
    ProbeRouteHits(grant);
    ProbeCallsForGrant(grant);
    RouteNeedsGrant(ProbeRoute(grant), ProbeFor(grant).0, ProbeFor(grant).1, grant, policy);
    ProbeBodyPasses(grant, body, defaultBranch, policy.git);
  }

  /** One tag update and one branch update, on and off the default branch, show the Git controls. */
  lemma GitControlsDecide(policy: GitPolicy)
    requires policy.push in {PUSH_NONE, PUSH_NON_DEFAULT, PUSH_ALL}
    ensures AuthorizeGitRef(RefCommand("1", "refs/tags/v1"), "main", policy) <==> policy.tags
    ensures AuthorizeGitRef(RefCommand("1", "refs/heads/main"), "main", policy) <==> PushAuthority(policy.push) == 2
    ensures AuthorizeGitRef(RefCommand("1", "refs/heads/main"), "trunk", policy) <==> PushAuthority(policy.push) >= 1
  {
    assert '1' in "1";
    assert "refs/tags/" <= "refs/tags/v1";
    assert "refs/tags/"[5] != "refs/heads/main"[5];
    assert "refs/heads/" <= "refs/heads/main" && "refs/heads/main"[|"refs/heads/"|..] == "main";
    assert "main" != "trunk";
  }

  lemma GainPermitsMore(before: Policy, after: Policy)
    requires ValidPolicy(before) && ValidPolicy(after) && Gains(before, after)
    ensures exists operation :: Permits(after, operation) && !Permits(before, operation)
  {
    if grant :| grant in after.grants && !before.Allows(grant) {
      ProbeNeedsItsGrant(grant, Absent, "main", before);
      ProbeNeedsItsGrant(grant, Absent, "main", after);
      var probe := ProbeCall(grant, Absent, "main");
      assert Permits(after, probe) && !Permits(before, probe);
    } else {
      GitControlsDecide(before.git);
      GitControlsDecide(after.git);
      var tag := RefUpdate(RefCommand("1", "refs/tags/v1"), "main");
      var onDefault := RefUpdate(RefCommand("1", "refs/heads/main"), "main");
      var offDefault := RefUpdate(RefCommand("1", "refs/heads/main"), "trunk");
      assert || (Permits(after, tag) && !Permits(before, tag))
             || (Permits(after, onDefault) && !Permits(before, onDefault))
             || (Permits(after, offDefault) && !Permits(before, offDefault));
    }
  }

  // ---------------------------------------------------------------- the classification is exact

  /** No authority is gained exactly under "unchanged" or "narrowed", none is lost exactly under
      "unchanged" or "broadened". */
  lemma ClassificationIsExact(before: Policy, after: Policy)
    requires ValidPolicy(before) && ValidPolicy(after)
    ensures NoMoreThan(after, before) <==> Classified(before, after) in {Ok(Unchanged), Ok(Narrowed)}
    ensures NoMoreThan(before, after) <==> Classified(before, after) in {Ok(Unchanged), Ok(Broadened)}
  {
    if Gains(before, after) { GainPermitsMore(before, after); } else { NoGainPermitsNoMore(before, after); }
    if Gains(after, before) { GainPermitsMore(after, before); } else { NoGainPermitsNoMore(after, before); }
  }

  /** Swapping the two policies swaps "broadened" and "narrowed" and keeps the other two. */
  lemma SwappedClassification(before: Policy, after: Policy)
    requires ValidPolicy(before) && ValidPolicy(after)
    ensures Classified(after, before) == Ok(
              match Classified(before, after).value
              case Broadened => Narrowed
              case Narrowed => Broadened
              case same => same)
  {
  }

  /** "Unchanged" means the same controls, and so the same policy. */
  lemma UnchangedMeansEqual(before: Policy, after: Policy)
    requires ValidPolicy(before) && ValidPolicy(after)
    ensures Classified(before, after) == Ok(Unchanged) <==> before == after
  {
    if Classified(before, after) == Ok(Unchanged) {
      assert before.grants.Keys == after.grants.Keys;
      assert before.grants == after.grants;
    }
  }
}
