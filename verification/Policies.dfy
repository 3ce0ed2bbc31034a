/** Policy Profiles: what a capability carries, and which profiles are supported. */
module Policies {
  const ACTIONS_WRITE := "actions.write"
  const CHECKS_WRITE := "checks.write"
  const CONTENTS_WRITE := "contents.write"
  const DEPLOYMENTS_WRITE := "deployments.write"
  const OBJECTS_DELETE := "objects.delete"
  const PULLS_MERGE := "pulls.merge"
  const PULLS_REVIEW_DISMISS := "pulls.review.dismiss"
  const RELEASES_WRITE := "releases.write"

  const PUSH_NONE := "none"
  const PUSH_NON_DEFAULT := "non-default"
  const PUSH_ALL := "all"

  datatype GitPolicy = GitPolicy(push: string, tags: bool)

  datatype Policy = Policy(name: string, version: int, grants: map<string, bool>, git: GitPolicy) {
    predicate Allows(grant: string) {
      grant in grants && grants[grant]
    }
  }

  predicate IsKnownGrant(grant: string) {
    grant in {ACTIONS_WRITE, CHECKS_WRITE, CONTENTS_WRITE, DEPLOYMENTS_WRITE, OBJECTS_DELETE, PULLS_MERGE,
              PULLS_REVIEW_DISMISS, RELEASES_WRITE}
  }

  predicate ValidPolicy(policy: Policy) {
    && policy.name == "developer" && policy.version == 1
    && policy.git.push in {PUSH_NONE, PUSH_NON_DEFAULT, PUSH_ALL}
    && forall grant :: grant in policy.grants ==> policy.grants[grant] && IsKnownGrant(grant)
  }
}
