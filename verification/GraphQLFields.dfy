/** The reviewed field tables of the GraphQL gate. */
module GraphQLFields {
  import opened GraphQLSelections

  const REPOSITORY_FIELDS: set<string> := {
    "__typename", "activeLockReason", "additions", "assignees", "author", "authoredDate", "authors", "avatarUrl",
    "baseRefName", "baseRefOid", "body", "bodyHTML", "bodyText", "changedFiles", "closedAt", "color", "comments",
    "commit", "committedDate", "commits", "completedAt", "conclusion", "contexts", "createdAt", "defaultBranchRef",
    "deleteBranchOnMerge", "deletions", "description", "descriptionHTML", "detailsUrl", "dueOn", "edges",
    "endCursor", "fileCount", "filename", "files", "hasDiscussionsEnabled", "hasIssuesEnabled", "hasNextPage",
    "hasPreviousPage", "hasProjectsEnabled", "hasWikiEnabled", "headRefName", "headRefOid", "homepageUrl", "id",
    "immutable", "isArchived", "isBot", "isDisabled", "isDraft", "isEmpty", "isFork", "isLatest", "isPrerelease",
    "isPrivate", "issue", "issueOrPullRequest", "issues", "issueTemplates", "issueTypes", "label", "labels",
    "language", "languages", "licenseInfo", "locked", "login", "maintainerCanModify", "mergeable", "mergeCommit",
    "mergeCommitAllowed", "mergedAt", "mergeStateStatus", "message", "messageBody", "messageHeadline", "milestone",
    "milestones", "name", "nameWithOwner", "nodes", "number", "object", "oid", "owner", "pageInfo",
    "potentialMergeCommit", "primaryLanguage", "progressPercentage", "publishedAt", "pullRequest", "pullRequests",
    "pullRequestTemplates", "pushedAt", "rebaseMergeAllowed", "refs", "release", "releases", "requestedReviewer",
    "reviewDecision", "reviewRequests", "reviews", "size", "squashMergeAllowed", "sshUrl", "startCursor",
    "startedAt", "state", "stateReason", "status", "statusCheckRollup", "tag", "tagName", "target", "text",
    "title", "totalCount", "updatedAt", "url", "viewerCanAdminister", "viewerCanCreateProjects",
    "viewerCanSubscribe", "viewerPermission", "viewerSubscription", "visibility", "workflowName"
  }

  const IDENTITY_BOUNDARIES: set<string> := {
    "assignees", "author", "authors", "owner", "requestedReviewer", "reviewRequests"
  }

  const IDENTITY_FIELDS: set<string> := {
    "__typename", "avatarUrl", "edges", "endCursor", "hasNextPage", "hasPreviousPage", "id", "isBot", "isDisabled",
    "login", "name", "nodes", "pageInfo", "requestedReviewer", "startCursor", "totalCount", "url"
  }

  const TABLES := FieldTables(REPOSITORY_FIELDS, IDENTITY_BOUNDARIES, IDENTITY_FIELDS)
}
