/** Ref-level authority: which branch and tag updates a Git policy lets through. */
module GitRefs {
  import opened Policies

  datatype RefCommand = RefCommand(newOid: string, ref: string)

  /** Trimming every zero from the object name leaves nothing: the update is a deletion. */
  predicate AllZero(oid: string) {
    forall c :: c in oid ==> c == '0'
  }

  predicate AuthorizeGitRef(command: RefCommand, defaultBranch: string, policy: GitPolicy) {
    if AllZero(command.newOid) then false
    else if "refs/tags/" <= command.ref then policy.tags
    else if !("refs/heads/" <= command.ref) then false
    else
      var branch := command.ref[|"refs/heads/"|..];
      if policy.push == PUSH_ALL then true
      else if policy.push == PUSH_NON_DEFAULT then branch != defaultBranch
      else false
  }

  predicate GitCanPush(policy: GitPolicy) {
    policy.push == PUSH_NON_DEFAULT || policy.push == PUSH_ALL || policy.tags
  }

  predicate ContainsControl(ref: string) {
    exists c :: c in ref && c in {':', '\0', '\r', '\n'}
  }

  function TrimHeads(ref: string): string {
    if "refs/heads/" <= ref then ref[|"refs/heads/"|..] else ref
  }

  /** A ref named in a REST body, which may leave out the "refs/heads/" prefix. */
  predicate AuthorizeRestRef(ref: string, defaultBranch: string, policy: GitPolicy) {
    if "refs/tags/" <= ref then policy.tags
    else if "refs/" <= ref && !("refs/heads/" <= ref) then false
    else
      var branch := TrimHeads(ref);
      if branch == "" || ContainsControl(branch) then false
      else AuthorizeGitRef(RefCommand(seq(40, _ => '1'), "refs/heads/" + branch), defaultBranch, policy)
  }

  datatype LfsBody = Unreadable | NotJson | Batch(operation: string)

  predicate AuthorizeLfs(verb: string, remainder: string, body: LfsBody, policy: GitPolicy) {
    if remainder == "info/lfs/objects/batch" then
      && verb == "POST" && body.Batch?
      && (body.operation == "download" || (body.operation == "upload" && GitCanPush(policy)))
    else if remainder == "info/lfs/locks" && verb == "GET" then true
    else
      && (remainder == "info/lfs/locks" || remainder == "info/lfs/locks/verify")
      && verb == "POST" && GitCanPush(policy)
  }
}
