/**
 * The endpoints that name a ref, one by one: which requests get through is said by the rule for pushes,
 * applied to the ref that the body or the path names.
 */
module RestWrites {
  import opened Wrappers
  import opened Policies
  import opened GitRefs
  import opened Strings
  import opened RestBodies
  import opened RestRoutes
  import opened ReceivePack

  // ---------------------------------------------------------------- the rule for pushes

  /** A ref named without "refs/" is a branch. */
  function FullName(ref: string): string {
    if "refs/" <= ref then ref else "refs/heads/" + ref
  }

  predicate IsBranchName(branch: string) {
    branch != "" && forall c :: c in branch ==> c != ':' && c != '\0' && c != '\r' && c != '\n'
  }

  /** A push may update the ref, and a branch among refs has a proper name. */
  predicate Pushable(ref: string, defaultBranch: string, policy: GitPolicy) {
    && Permitted(RefCommand("1", FullName(ref)), defaultBranch, policy)
    && ("refs/heads/" <= FullName(ref) ==> IsBranchName(FullName(ref)[|"refs/heads/"|..]))
  }

  lemma RefPrefixes(ref: string)
    ensures "refs/tags/" <= ref ==> "refs/" <= ref
    ensures "refs/heads/" <= ref ==> "refs/" <= ref && ref == "refs/heads/" + ref[|"refs/heads/"|..]
    ensures !("refs/heads/" <= ref && "refs/tags/" <= ref)
  {
    var heads, tags, refs := "refs/heads/", "refs/tags/", "refs/";
    assert refs <= heads && refs <= tags;
    TagsAreNoBranches(ref);
  }

  lemma TrimmedName(ref: string)
    requires !("refs/" <= ref) || "refs/heads/" <= ref
    ensures "refs/heads/" <= FullName(ref) && !("refs/tags/" <= FullName(ref))
    ensures FullName(ref) == "refs/heads/" + TrimHeads(ref) && TrimHeads(ref) == FullName(ref)[|"refs/heads/"|..]
  {
    RefPrefixes(ref);
    RefPrefixes(FullName(ref));
    BranchOfRef(ref);
  }

  lemma Ones()
    ensures !AllZero(seq(40, _ => '1')) && !AllZero("1")
  {
    var oid := seq(40, _ => '1');
    assert oid[0] in oid && '1' in "1";
  }

  /** A ref named over REST is let through exactly as a push to it would be. */
  lemma RestRefIsPushable(ref: string, defaultBranch: string, policy: GitPolicy)
    ensures AuthorizeRestRef(ref, defaultBranch, policy) <==> Pushable(ref, defaultBranch, policy)
  {
    Ones();
    RefPrefixes(ref);
    if !("refs/" <= ref) || "refs/heads/" <= ref {
      TrimmedName(ref);
      AuthorizedIsPermitted(RefCommand(seq(40, _ => '1'), "refs/heads/" + TrimHeads(ref)), defaultBranch, policy);
    } else if "refs/tags/" <= ref {
      assert !("refs/heads/" <= FullName(ref));
      RefPrefixes("refs/heads/" + defaultBranch);
    }
  }

  // ---------------------------------------------------------------- what a body names

  /** The ref in a field; the default branch where the field is missing or null, and None where it is not a
      name. */
  function NamedRef(fields: map<string, JsonField>, field: string, defaultBranch: string): Option<string> {
    if field !in fields then Some(defaultBranch)
    else
      match fields[field]
      case JsonNull => if defaultBranch == "" then None else Some(defaultBranch)
      case JsonString(text) => if text == "" then None else Some(text)
      case JsonOther => None
  }

  /** The verdict on a body that must name a ref open to pushes. */
  function NamesPushable(body: Body, field: string, defaultBranch: string, policy: GitPolicy): BodyVerdict {
    if !body.Fields? || NamedRef(body.fields, field, defaultBranch).None? then InvalidBody
    else if Pushable(NamedRef(body.fields, field, defaultBranch).value, defaultBranch, policy) then Passed
    else RefDenied
  }

  lemma PlainNamesPushable(field: string, verb: string, path: seq<string>, body: Body, defaultBranch: string,
                           policy: GitPolicy)
    requires RefSourceOf(verb, path) == InBody(field)
    ensures AuthorizeRestBody(verb, path, body, defaultBranch, policy) ==
            NamesPushable(body, field, defaultBranch, policy)
  {
    if body.Fields? && NamedRef(body.fields, field, defaultBranch).Some? {
      RestRefIsPushable(NamedRef(body.fields, field, defaultBranch).value, defaultBranch, policy);
    }
  }

  /** A file is written to, or deleted from, the branch that the body names. */
  lemma ContentsNamePushable(verb: string, path: seq<string>, body: Body, defaultBranch: string, policy: GitPolicy)
    requires verb == "PUT" || verb == "DELETE"
    requires Matches(["contents", "**"], path)
    ensures AuthorizeRestBody(verb, path, body, defaultBranch, policy) ==
            NamesPushable(body, "branch", defaultBranch, policy)
  {
    MatchesAt(["contents", "**"], path);
    PlainNamesPushable("branch", verb, path, body, defaultBranch, policy);
  }

  /** What a match says of a path, segment by segment. */
  lemma MatchesAt(pattern: seq<string>, path: seq<string>)
    requires Matches(pattern, path) && pattern != []
    ensures |path| >= |pattern| - 1 && (pattern[|pattern| - 1] != "**" ==> |path| == |pattern|)
    ensures forall i :: 0 <= i < |pattern| - 1 && pattern[i] != ":" ==> path[i] == pattern[i]
    ensures pattern[|pattern| - 1] !in {"**", ":"} ==> path[|pattern| - 1] == pattern[|pattern| - 1]
  {
  }

  lemma DispatchesNamePushable(path: seq<string>, body: Body, defaultBranch: string, policy: GitPolicy)
    requires Matches(["actions", "workflows", ":", "dispatches", "**"], path)
    ensures AuthorizeRestBody("POST", path, body, defaultBranch, policy) ==
            NamesPushable(body, "ref", defaultBranch, policy)
  {
    MatchesAt(["actions", "workflows", ":", "dispatches", "**"], path);
    PlainNamesPushable("ref", "POST", path, body, defaultBranch, policy);
  }

  lemma DeploymentsNamePushable(body: Body, defaultBranch: string, policy: GitPolicy)
    ensures AuthorizeRestBody("POST", ["deployments"], body, defaultBranch, policy) ==
            NamesPushable(body, "ref", defaultBranch, policy)
  {
    PlainNamesPushable("ref", "POST", ["deployments"], body, defaultBranch, policy);
  }

  lemma NewRefsArePushable(body: Body, defaultBranch: string, policy: GitPolicy)
    ensures AuthorizeRestBody("POST", ["git", "refs"], body, defaultBranch, policy) ==
            NamesPushable(body, "ref", defaultBranch, policy)
  {
    PlainNamesPushable("ref", "POST", ["git", "refs"], body, defaultBranch, policy);
  }

  /** A ref is moved that the path names; the body does not matter. */
  lemma MovedRefsArePushable(name: seq<string>, body: Body, defaultBranch: string, policy: GitPolicy)
    requires name != []
    ensures AuthorizeRestBody("PATCH", ["git", "refs"] + name, body, defaultBranch, policy) ==
            if Pushable("refs/" + Join(name, "/"), defaultBranch, policy) then Passed else RefDenied
  {
    var path := ["git", "refs"] + name;
    assert path[2..] == name;
    RestRefIsPushable("refs/" + Join(name, "/"), defaultBranch, policy);
  }

  /** A release makes a tag at the ref that the body names. */
  lemma ReleasesNamePushable(body: Body, defaultBranch: string, policy: GitPolicy)
    ensures AuthorizeRestBody("POST", ["releases"], body, defaultBranch, policy) ==
            if body.Fields? && !policy.tags then RefDenied
            else NamesPushable(body, "target_commitish", defaultBranch, policy)
  {
    if body.Fields? && NamedRef(body.fields, "target_commitish", defaultBranch).Some? {
      RestRefIsPushable(NamedRef(body.fields, "target_commitish", defaultBranch).value, defaultBranch, policy);
    }
  }

  /** An edit of a release is held to the same when it touches its tag or its target. */
  lemma ReleaseEditsNamePushable(release: string, body: Body, defaultBranch: string, policy: GitPolicy)
    ensures AuthorizeRestBody("PATCH", ["releases", release], body, defaultBranch, policy) ==
            if body.Fields? && "tag_name" !in body.fields && "target_commitish" !in body.fields then Passed
            else if body.Fields? && !policy.tags then RefDenied
            else NamesPushable(body, "target_commitish", defaultBranch, policy)
  {
    if body.Fields? && NamedRef(body.fields, "target_commitish", defaultBranch).Some? {
      RestRefIsPushable(NamedRef(body.fields, "target_commitish", defaultBranch).value, defaultBranch, policy);
    }
  }

  /** A pull request must come from a branch of the repository itself, given by its short name. */
  lemma PullHeadsAreBranches(body: Body, defaultBranch: string, policy: GitPolicy)
    ensures AuthorizeRestBody("POST", ["pulls"], body, defaultBranch, policy) ==
            if !body.Fields? then InvalidBody
            else if "head_repo" in body.fields then RefDenied
            else if "head" !in body.fields || NamedRef(body.fields, "head", defaultBranch).None? then InvalidBody
            else
              var head := NamedRef(body.fields, "head", defaultBranch).value;
              if IsBranchName(head) && !("refs/" <= head) then Passed else RefDenied
  {
  }

  /** The requests that name a ref. */
  predicate NamesARef(verb: string, path: seq<string>) {
    || ((verb == "PUT" || verb == "DELETE") && Matches(["contents", "**"], path))
    || (verb == "POST" && Matches(["actions", "workflows", ":", "dispatches", "**"], path))
    || (verb == "POST" && path in {["deployments"], ["git", "refs"], ["releases"], ["pulls"]})
    || (verb == "PATCH" && Matches(["git", "refs", ":", "**"], path))
    || (verb == "PATCH" && Matches(["releases", ":"], path))
  }

  lemma StemMatches(stem: seq<string>, path: seq<string>)
    requires "**" !in stem && |stem| <= |path| && SegmentsMatch(stem, path)
    ensures Matches(stem + ["**"], path)
  {
    var pattern := stem + ["**"];
    assert pattern[..|pattern| - 1] == stem;
  }

  lemma CheckedPost(path: seq<string>)
    requires !RefSourceOf("POST", path).Unchecked?
    ensures Matches(["actions", "workflows", ":", "dispatches", "**"], path)
            || path in {["deployments"], ["git", "refs"], ["releases"], ["pulls"]}
  {
    if path[0] == "actions" {
      StemMatches(["actions", "workflows", ":", "dispatches"], path);
      assert ["actions", "workflows", ":", "dispatches"] + ["**"] == ["actions", "workflows", ":", "dispatches", "**"];
    } else if |path| == 1 {
      assert path == [path[0]];
    } else {
      assert path == [path[0], path[1]];
    }
  }

  lemma CheckedPatch(path: seq<string>)
    requires !RefSourceOf("PATCH", path).Unchecked?
    ensures Matches(["git", "refs", ":", "**"], path) || Matches(["releases", ":"], path)
  {
    if path[0] == "git" {
      StemMatches(["git", "refs", ":"], path);
      assert ["git", "refs", ":"] + ["**"] == ["git", "refs", ":", "**"];
    } else {
      assert SegmentsMatch(["releases", ":"], path);
    }
  }

  lemma CheckedContents(verb: string, path: seq<string>)
    requires verb != "POST" && verb != "PATCH" && !RefSourceOf(verb, path).Unchecked?
    ensures (verb == "PUT" || verb == "DELETE") && Matches(["contents", "**"], path)
  {
    StemMatches(["contents"], path);
    assert ["contents"] + ["**"] == ["contents", "**"];
  }

  /** No other request has its body looked at. */
  lemma OtherBodiesPass(verb: string, path: seq<string>, body: Body, defaultBranch: string, policy: GitPolicy)
    requires !NamesARef(verb, path)
    ensures AuthorizeRestBody(verb, path, body, defaultBranch, policy) == Passed
  {
    if !RefSourceOf(verb, path).Unchecked? {
      if verb == "POST" {
        CheckedPost(path);
      } else if verb == "PATCH" {
        CheckedPatch(path);
      } else {
        CheckedContents(verb, path);
      }
    }
  }
}
