# A verification model of the GitHub CLI's broker and of some of its algorithms

This project models, in Dafny 4.11, the parts of the repository that have the most to get wrong, and proves
what they are for. `dafny verify dfyconfig.toml` checks all of it.

The larger half is the Broker, the proxy in `internal/broker` that lets an agent act on one repository through
a revocable capability:

- the GraphQL selection checker against a check on the fully inlined query (`GraphQLSelections`,
  `GraphQLOperation`, with the tables in `GraphQLFields`);
- the REST route table, Git ref rules and REST bodies, and the classification of policy changes against all of
  them (`RestRoutes`, `RestBodies`, `RestWrites`, `GitRefs`, `Policies`, `PolicyChanges`);
- capabilities as rows under concurrent replacement, revocation and resolution (`CapabilityDatabase`,
  `CapabilityProtocol`, `CapabilityRequests`, `PolicyRepresentations`);
- the repository observation cache, alone and under concurrent resolutions (`RepositoryCache`,
  `RepositoryResolution`, `RepositoryOrigins`, `ResolutionAlone`);
- the receive-pack reader, the request handler with its limiter and audit record, and the credentials
  (`CommandReading`, `ReceivePack`, `ReceivedPushes`, `RequestHandling`, `RequestClasses`, `BrokerRequests`,
  `Credentials`).

The other half is smaller and independent: the device ID agreed by hard links (`DeviceId`), the multi-account
authentication state and the migration that establishes it (`AuthState`, `AccountChanges`, `Migration`), greedy
wrapping (`Wrapping`), URL paths (`SafeUrl`), the search-and-select field (`SelectField`), and search queries and their
paging (`SearchQueries`, `SearchTokens`, `SearchMeanings`, `SearchPaging`). `Ordering`, `Strings` and `Wrappers`
hold string order and sorting, notions about strings and lists, and the usual option and result types.

Code that changes state in place is modelled by classes and methods with loops, proved against specification
functions; what the source promises is proved about those functions, or as invariants of every run of a state
machine whose steps are the source's atomic steps. External effects are parameters: the outcome of an upstream
request, of a keyring or store call, of the rate budget, clock readings, drawn identifiers and nonces.

## Where the source says something else

- `docs/pgh/configuration.md:11` calls the cache setting the lifetime of an observation. An observation whose
  persisted copy is almost one lifetime old is cached for another, so the bound is twice the lifetime
  (`RepositoryResolution.ServedAlmostTwiceTheTtl`, `RepositoryResolution.EveryResolutionIsSound`). One lifetime
  is the bound exactly as long as no persisted observation is trusted later than it was validated
  (`RepositoryCache.RepositoryResolver.Resolve`, `RepositoryResolution.PromptAnswersAreYoung`,
  `RepositoryResolution.TrustedLateGoesStale`).
- The comment on `FormatSlice` says elements can be surrounded; a single element is not. A line length past
  the signed range is not a limit that large but a break after every value (`Wrapping.ExtremeLimits`).
- The active token and the token looked up by user can differ after a secure and then a plain login of one
  user (`AuthState.LookupsCanDisagree`); the condition under which they agree is exact
  (`AuthState.ActiveTokenIsStored`).
- A representation drops grants that are present but false, so it decodes to the same policy exactly when
  there are none (`PolicyRepresentations.DecodeRepresent`).
- A list with one empty component prints as the empty path, so a host prefix then gets no slash
  (`SafeUrl.PrefixJoin`), and it prints like the empty list (`SafeUrl.PathIsInjective`).
- Two overlapping first puts of one credential name leave a row that does not open
  (`Credentials.WrittenOpensIff`).
- The class of a REST request follows its method (`internal/broker/server.go:151-154`) with one exception: a path
  that contains ".git/" and ends in "/git-receive-pack" makes even a GET a mutation
  (`BrokerRequests.RestClass`, `BrokerRequests.ReadThatLooksLikePush`).
- A search that failed is not repeated when the same query is entered again: the query counts as answered
  (`SelectField.MultiSelectSearchField.EnterAgain`).
- A search value with a bracket but no blank or quote in it is printed bare (`pkg/search/query.go:279-284`), so
  the bracket counts as one of the query's own (`SearchMeanings.BracketBreaksLabel`); the exact condition is
  `SearchMeanings.MeansWantedIff`. The brackets around the keywords, meant to keep their operators from leaking
  (`pkg/search/query.go:158`), do so for keywords whose own brackets match (`SearchMeanings.AdvancedStringMeans`)
  and not for others (`SearchMeanings.UnbalancedKeywordsLeak`).

## Model

| member | source | states |
|---|---|---|
| `GraphQLSelections.SelectionChecker.ValidSelections` | internal/broker/graphql.go:250-291 | The recursive walk ends on every document, cyclic ones included, hands its `visiting` set back unchanged on every return, rejecting ones too, and computes the specification function `Accepts`. |
| `GraphQLSelections.CheckerAgreesWithInlining` | internal/broker/graphql.go:250-291 | The walk accepts a selection set if and only if its fragments can be inlined to a finite tree, every spread resolves, every field of the inlined tree is in the repository table and every field below an identity boundary is also in the identity table. |
| `GraphQLSelections.FiniteExpansionMeansValidSpreads` | internal/broker/graphql.go:268-285 | A fragment expansion is finite if and only if every spread reachable through fragments names a defined fragment and no such spread meets itself: sections 5.5.2.1 and 5.5.2.2 of the GraphQL specification (October 2021), restricted to reachable fragments. |
| `GraphQLSelections.InlinedIsUnique` | internal/broker/graphql.go:250-291 | The inlined tree the checker is compared with does not depend on how deep the inlining was allowed to go. |
| `GraphQLSelections.AcceptedIsAdmissible` | internal/broker/graphql.go:250-291 | Soundness from any set of fragments being visited: whatever is accepted has a finite inlining that conforms to both tables. |
| `GraphQLSelections.AdmissibleIsAccepted` | internal/broker/graphql.go:250-291 | Completeness from any set of fragments being visited whose own inlinings are deeper: a conforming finite inlining is never rejected by the cycle guard. |
| `GraphQLSelections.RepeatedSpreadIsInfinite` | internal/broker/graphql.go:268-285 | A chain of nested spreads in which a fragment occurs twice has no finite expansion. |
| `GraphQLSelections.AcyclicExpands` | internal/broker/graphql.go:268-285 | Selections whose reachable spreads are all defined and acyclic expand completely. |
| `GraphQLSelections.BodyNeverMeetsItself` | internal/broker/graphql.go:268-285 | No walk from the body of a fragment that can be inlined comes back to the fragment. |
| `GraphQLSelections.NestingIsBounded` | internal/broker/graphql.go:268-285 | There are at most two visiting keys per fragment, so nesting is bounded by twice the number of fragments. |
| `GraphQLSelections.KeyIsInjective` | internal/broker/graphql.go:273-276 | The visiting key, a fragment name with a suffix inside identity scope, stands for one name and one scope. |
| `GraphQLOperation.SchemaProbeIsOneQuery` | internal/broker/graphql.go:223-244 | The schema probe lets through exactly one query, the field names of the one registered type. |
| `GraphQLOperation.ValidOperation` | internal/broker/graphql.go:193-221 | An operation passes exactly if it is a query of its family's shape: declared variables, roots bound to them, and an accepted selection under each root. |
| `GraphQLOperation.BindTarget` | internal/broker/graphql.go:183-189 | The copy of the client's variables keeps every one but the two that name the repository, which are overwritten with the capability's. |
| `GraphQLOperation.AuthorizeGraphQL` | internal/broker/graphql.go:150-191 | A request is forwarded if and only if it is one registered query of its family's shape; then every root evaluates, whatever variables the client sent, to the capability's own repository and stays inside the reviewed fields, and all other client variables are passed on. A request that does not name one operation is a bad one, one of no family unknown, any other refusal the policy's. |
| `PolicyChanges.ClassifyPolicyChange` | internal/broker/policy_change.go:20-63 | The loops over grants and Git controls compute the classification that the lemmas below are about, and reject exactly when one of the policies is not supported. |
| `PolicyChanges.ClassificationIsExact` | internal/broker/policy_change.go:20-63 | Over all REST requests (route and body together), ref updates and LFS operations: the new policy permits no more than the old one if and only if the verdict is unchanged or narrowed, and no less if and only if it is unchanged or broadened. |
| `PolicyChanges.NoGainPermitsNoMore` | internal/broker/policy_change.go:20-63 | Without a gained control, every operation the new policy permits was permitted before: all four authorizers are monotone in the policy. |
| `PolicyChanges.GainPermitsMore` | internal/broker/policy_change.go:20-63 | Every gained control shows: there is an operation that is permitted now and was not before; for a REST grant it is a whole request, which passes the body check too. |
| `PolicyChanges.SwappedClassification` | internal/broker/policy_change.go:20-63 | Swapping the policies swaps broadened and narrowed and keeps the other two verdicts. |
| `PolicyChanges.UnchangedMeansEqual` | internal/broker/policy_change.go:20-63 | Unchanged is the verdict exactly for equal policies. |
| `PolicyChanges.ProbeNeedsItsGrant` | internal/broker/policy.go:34-85 | For every known grant there is a REST request that, whatever its body, passes route and body check exactly when the policy holds that grant. |
| `PolicyChanges.GitControlsDecide` | internal/broker/git.go:174-193 | One tag update and two branch updates tell every combination of push tier and tags apart. |
| `PolicyChanges.RestBodyIsMonotone` | internal/broker/policy.go:198-303 | A REST body that passes under one Git policy passes under every policy that authorizes at least the same refs. |
| `RestWrites.RestRefIsPushable` | internal/broker/policy.go:305-318 | A ref named over REST, with or without its prefix, is let through if and only if a push may update it and a branch among refs has a name without colon or control character. |
| `RestWrites.ContentsNamePushable` | internal/broker/policy.go:213-217 | Writing or deleting a file passes if and only if the body names, or leaves open for the default branch, a ref that may be pushed; an unreadable body or name is invalid, any other ref denied. |
| `RestWrites.DispatchesNamePushable` | internal/broker/policy.go:208-212 | The same for the ref of a workflow dispatch. |
| `RestWrites.DeploymentsNamePushable` | internal/broker/policy.go:218-222 | The same for the ref of a deployment. |
| `RestWrites.NewRefsArePushable` | internal/broker/policy.go:233-235 | The same for a ref to be created. |
| `RestWrites.MovedRefsArePushable` | internal/broker/policy.go:236-237 | A ref named by the path is moved if and only if it may be pushed, whatever the body. |
| `RestWrites.ReleasesNamePushable` | internal/broker/policy.go:223-226 | A release needs tags, and a target that may be pushed. |
| `RestWrites.ReleaseEditsNamePushable` | internal/broker/policy.go:227-229 | An edit of a release needs the same, unless it touches neither its tag nor its target. |
| `RestWrites.PullHeadsAreBranches` | internal/broker/policy.go:241-303 | A pull request passes if and only if its body gives a head, no head repository, and the head is a short branch name without colon or control character. |
| `RestWrites.OtherBodiesPass` | internal/broker/policy.go:198-254 | No other request has its body looked at. |
| `RestRoutes.MatchRestPath` | internal/broker/policy.go:166-180 | The matcher's loop agrees with the declarative reading: a segment matches itself, ":" matches any one segment, a final "**" any rest, the empty one included. |
| `RestRoutes.AuthorizeRest` | internal/broker/policy.go:119-136 | The first-match scan over the 149 routes, after the hard denials and with HEAD read as GET, computes the verdict that the lemmas below characterize. |
| `RestRoutes.FirstMatchIsAnyMatch` | internal/broker/policy.go:119-136 | On a table whose routes carry the grant that verb and path call for, the first match decides like any match. |
| `RestRoutes.OverlappingRoutesAgree` | internal/broker/policy.go:34-85 | Two routes of one method that match one path carry the same grant, for every path. |
| `RestRoutes.ReorderingKeepsVerdicts` | internal/broker/policy.go:119-136 | Every reordering of the route table, with repetitions, gives every request and policy the same verdict. |
| `RestRoutes.VerdictReadsOffThePath` | internal/broker/policy.go:119-136 | The verdict without a scan: not hard-denied, covered by some route, and holding the grants that verb and path alone call for. |
| `BrokerRequests.RestPasses` | internal/broker/policy.go:119-164 | A REST request is let through if and only if its path is outside administration, secrets and moves, and is an instance of a route for its method, HEAD being decided as GET, whose grant the policy holds, and the grant to delete where it deletes. |
| `BrokerRequests.MatchesInstances` | internal/broker/policy.go:166-181 | A pattern matches exactly the paths it stands for once each colon segment is filled in and a final double star is replaced by any segments, or none. |
| `RestRoutes.EveryRouteIsRegular` | internal/broker/policy.go:34-85 | Every route of the table carries exactly the grant that its verb and the words of its pattern call for. |
| `PolicyRepresentations.NewPolicyRepresentation` | internal/broker/capability_policy.go:27-36 | The loop over the grant map and the sort give a representation that does not depend on the order of the iteration. |
| `PolicyRepresentations.DecodePolicy` | internal/broker/capability_policy.go:39-45 | The loop rebuilds the decoded policy that the next two lemmas are about. |
| `PolicyRepresentations.DecodeRepresent` | internal/broker/capability_policy.go:27-45 | Decoding a representation gives back the policy if and only if none of its grants is present but switched off; every valid policy is such a one. |
| `PolicyRepresentations.RepresentIsInjective` | internal/broker/capability_policy.go:27-45 | Two valid policies with one representation and revision are the same policy. |
| `CapabilityDatabase.PostgresStore.CreateCapability` | internal/broker/postgres.go:127-167 | A capability is inserted, with revision 1 and its repository's observation, exactly when its identifier and selector are new and its credential exists; otherwise nothing is written. |
| `CapabilityDatabase.PostgresStore.RevokeCapability` | internal/broker/postgres.go:496-505 | Revoking succeeds exactly on a stored, unrevoked capability and changes its revocation time alone. |
| `CapabilityDatabase.PostgresStore.UpdateRepositoryObservation` | internal/broker/postgres.go:205-218 | An observation is replaced exactly when there is one for its credential and identity; otherwise nothing is written. |
| `CapabilityDatabase.PostgresStore.ReplaceCapabilityPolicy` | internal/broker/postgres.go:233-317 | One replacement: which request is refused, which changes nothing, and otherwise the new row and the one event appended; every other outcome leaves the tables as they were. |
| `CapabilityDatabase.PostgresStore.ListCapabilityPolicyEvents` | internal/broker/postgres.go:320-381 | The listing is the newest events first, cut at the given time and number, and fails exactly for a missing capability or a limit outside 1 to 1000. |
| `CapabilityDatabase.ReplacementExtendsChain` | internal/broker/postgres.go:250-315 | A committed replacement extends the capability's history as a gap-free chain that ends in the new policy. |
| `CapabilityDatabase.ChainIsOrdered` | internal/broker/postgres.go:320-381 | In a chain revisions count up by one and event times never decrease. |
| `CapabilityProtocol.EveryRunKeepsInv` | internal/broker/postgres.go:233-317 | In every interleaving of issuing, replacing, revoking, observing and resolving: keys and selectors stay consistent, a replacer inside its transaction holds its row's lock and works from the row as it still stands, and every history is a chain. |
| `CapabilityProtocol.RunOf` | internal/broker/postgres.go:233-317 | Runs are not restricted: every list of actions, in any order, is the list of some run, so the invariants hold of all interleavings. |
| `CapabilityProtocol.HistoryIsAChain` | internal/broker/postgres.go:233-317 | In every reachable state, for every capability: revision = 1 + number of events, each event starts where the one before it ended, the last one ends in the policy in force, none is "unchanged" or dated at or after expiry, and times never decrease. |
| `CapabilityProtocol.HistoryRemembersEveryPolicy` | internal/broker/postgres.go:233-317 | Every policy that was ever in force can be read back, by its revision, from any later history. |
| `CapabilityProtocol.RevocationIsFinal` | internal/broker/postgres.go:496-505 | Once revoked, a capability's row and history never change again. |
| `CapabilityProtocol.EventsFindUnrevoked` | internal/broker/postgres.go:250-315 | Every step of a run that adds an event to a history finds the capability unrevoked; the revocation time, which comes from another clock, says nothing about it. |
| `CapabilityProtocol.SessionLinearizes` | internal/broker/capability.go:229-286 | Every granted session takes effect at its final read: policy and revision are those stored there, the capability was unrevoked there and unexpired at the later clock reading, and its identifier, credential and repository are those of the first read. |
| `CapabilityProtocol.SessionIsCurrent` | internal/broker/capability.go:262-285 | A session is at least as new as every policy committed before its request began, and its policy is the one the history has for its revision. |
| `CapabilityProtocol.RevokedIsNeverGranted` | internal/broker/capability.go:271-274 | A request that begins after the revocation of a capability is never granted a session for it. |
| `CapabilityProtocol.RefreshTakesEveryAnswer` | internal/broker/capability.go:246-261 | Whatever a resolution of the first read's repository answers, in any run of concurrent resolutions, it carries the identity the session keeps. |
| `CapabilityRequests.SessionAnswersItsRequest` | internal/broker/capability.go:229-286 | Over the actions of a run: a granted session goes back to a request that presented selector and secret hash and to an earlier issue of that capability with the same selector, secret hash, credential, repository identity and expiry. The stored row has both at either read, is unrevoked and unexpired at either check, the credential opened, the session's repository is the one verified in between, and it was on record before the final read. |
| `CapabilityRequests.UndisturbedIsGranted` | internal/broker/capability.go:229-286 | A request that nobody disturbs is granted if and only if the tables hold an unrevoked, unexpired capability with that selector and secret hash, the credential opens and the repository is verified as the capability's. |
| `CapabilityRequests.BoundAsIssued` | internal/broker/postgres.go:127-168 | In every reachable state a capability has the selector, secret hash, credential, repository and expiry it was issued with, and its history still has the policy it was issued with at revision 1. |
| `CapabilityRequests.WasRevoked` | internal/broker/postgres.go:496-505 | A revocation time is that of an action that revoked this capability. |
| `CapabilityRequests.RevocationWorks` | internal/broker/postgres.go:496-505 | A revocation that meets no row lock takes effect at once; a second one changes nothing. |
| `CapabilityRequests.IssueWorks` | internal/broker/postgres.go:127-168 | An issue goes through if and only if its policy is supported, its identifier and selector are new and its credential is stored; then the row is exactly as asked for and the repository is on record, and otherwise nothing changes. |
| `CapabilityRequests.EventWasSubmitted` | internal/broker/postgres.go:233-317 | Every event of a history was submitted for this capability and committed, with exactly that reason, actor, profile, grants and Git policy, at the revision after the i-th. |
| `CapabilityRequests.UnhinderedIsWritten` | internal/broker/postgres.go:233-317 | A replacement that nobody hinders puts its policy in force, one revision on and dated by the database, if and only if it is complete, supported, different from the policy in force, and the capability is neither revoked nor expired; otherwise it changes nothing. |
| `CapabilityRequests.ReportsAreTrue` | internal/broker/postgres.go:233-317 | A replacement reports a change if and only if it has committed one. |
| `RepositoryCache.CacheKeyIsInjective` | internal/broker/repository.go:256-258 | The key "credential:identity" stands for one credential and one identity, whatever colons and digits the credential contains. |
| `RepositoryCache.Fetch` | internal/broker/repository.go:144-206 | The loop makes one or two round trips, following one redirect within the same HTTPS host and no second; it answers exactly what the final response tells: owner, name, default branch and etag of complete metadata, or after a 304 those of the observation at hand, validated now. |
| `RepositoryCache.NormalizeTtl` | internal/broker/repository.go:58-66 | A lifetime that is not positive becomes 30 seconds, one above five minutes becomes five minutes, and any other is kept. |
| `RepositoryCache.CachedIsOwn` | internal/broker/repository.go:241-254 | What is served for a credential and identity was observed through them and is younger than the horizon while it may be served. |
| `RepositoryCache.StoredOk` | internal/broker/repository.go:232-239 | Filing an observation keeps that true of the whole cache. |
| `RepositoryCache.ServedYoungIff` | internal/broker/repository.go:232-254 | After filing, every later hit serves the observation younger than one lifetime if and only if it was filed the moment it was validated. |
| `RepositoryCache.StoredPromptIff` | internal/broker/repository.go:232-239 | Filing keeps every entry of the cache within one lifetime if and only if the observation is not older than the filing. |
| `RepositoryCache.RepositoryResolver.ResolveCurrent` | internal/broker/repository.go:118-142 | The upstream path answers if and only if the endpoint is valid and the final response tells of the target's identity, then exactly what it tells, after at least one round trip, and files exactly that observation; a failure changes nothing. |
| `RepositoryCache.RepositoryResolver.Resolve` | internal/broker/repository.go:89-116 | An unexpired cached observation is served as it is, else one persisted within the lifetime, else what upstream tells, if it tells of the target. Every answer has the target's identity and was observed through the caller's credential or handed over as its persisted observation, less than twice the lifetime ago; a fresh one went upstream. While every entry was filed promptly the answer is younger than one lifetime, and that survives the call if and only if it does not fall back on a persisted observation older than the call. |
| `RepositoryResolution.EveryResolutionIsSound` | internal/broker/repository.go:89-141 | The same under every interleaving of concurrent resolutions with shared flights: identity, own credential, validated less than 2 lifetimes (and the modelled slack between clock reads) before the answer, and a round trip that began after the request when a fresh answer is required. |
| `RepositoryResolution.ServedAlmostTwiceTheTtl` | internal/broker/repository.go:97-116 | A run in which an observation is served 58 seconds after its validation with a lifetime of 30: one lifetime alone is not the bound. |
| `RepositoryResolution.PromptAnswersAreYoung` | internal/broker/repository.go:97-141 | In every interleaving in which no persisted observation was trusted late, every answer was validated less than one lifetime (and the slack) before it was decided. |
| `RepositoryResolution.TrustedLateGoesStale` | internal/broker/repository.go:97-104 | Conversely, every run in which one was trusted late goes on to an answer that old or older. |
| `RepositoryOrigins.EveryAnswerHasAnOrigin` | internal/broker/repository.go:89-206 | In every interleaving an answer has the identity its own call asked for, and owner, name, default branch and etag of complete metadata that upstream reported to a call of the same credential, or of an observation that such a call handed over. |
| `RepositoryOrigins.WasBegun` | internal/broker/repository.go:68-116 | Every process works on the credential, target and freshness of the action that began it, at the time it began. |
| `RepositoryOrigins.FailureHasCause` | internal/broker/repository.go:89-142 | A resolution fails only if its call, or that of the flight it joined, had no identity or credential, or upstream told nothing of the identity asked for. |
| `RepositoryOrigins.OneFlightAtATime` | internal/broker/repository.go:105-115 | Of the resolutions that may be answered from the cache, at most one at a time is on its way upstream for a credential and an identity. |
| `ResolutionAlone.ResolvesAlone` | internal/broker/repository.go:89-142 | A resolution that nobody disturbs ends in the concurrent machine as the sequential resolver does: from an unexpired entry, else the persisted observation, else what upstream tells of the target, else in failure; and leaves the same cache. |
| `ResolutionAlone.NamesAlone` | internal/broker/repository.go:68-87 | A resolution by name answers, alone, if and only if upstream tells complete metadata with the expected identity, and files exactly that. |
| `ResolutionAlone.WaiterReceives` | internal/broker/repository.go:105-115 | Whoever waits for a flight ends with its leader's answer, or fails with it. |
| `ReceivePack.ReadReceiveCommands` | internal/broker/git.go:125-164 | The bounded loop over a reader gives exactly the specified reading of the stream, and what it returns followed by what it left unread is the original stream. |
| `ReceivePack.ReceivingIsFaithful` | internal/broker/git.go:125-164 | On success prefix and rest are the whole stream, there are 1 to 255 commands, and each names a full object and a ref under "refs/" without white space. |
| `ReceivePack.ReceivingAgain` | internal/broker/git.go:125-164 | Reading the prefix again, with anything behind it, gives the same commands: the receiver of the forwarded bytes sees the commands that were checked. |
| `ReceivePack.PushRoundTrip` | internal/broker/git.go:125-164 | Shallow lines and then ref commands in the form of Git's gitprotocol-pack, with capabilities and newlines at will, read back as exactly their (new object, ref) pairs if there is a command and there are at most 255 lines, and are refused otherwise. |
| `ReceivePack.HexReadsBack` | internal/broker/git.go:134-137 | Every length that fits the digits reads back from its hexadecimal form. |
| `ReceivePack.ForwardedPushIsPermitted` | internal/broker/git.go:46-58 | A push is forwarded byte for byte, only under a policy that can push, and holds only permitted updates: no deletion, tags only under a policy with tags, branches only under a push tier, the default branch only if all branches are granted, nothing else. |
| `ReceivedPushes.PushIsHead` | internal/broker/git.go:125-172 | A stream is taken for a push if and only if it begins with pkt-lines of proper length and content, shallow ones first, at least one command, 255 at most, and a flush; exactly those bytes and commands are read, and the rest is left alone. |
| `ReceivedPushes.ForwardedIff` | internal/broker/git.go:46-58 | A push goes on, unchanged, if and only if it can be read and the policy permits all of its commands. |
| `ReceivePack.AuthorizedIsPermitted` | internal/broker/git.go:174-193 | The check of one update passes if and only if the policy permits the update as just said. |
| `CommandReading.ReceiveIsFaithful` | internal/broker/git.go:128-163 | For any way of taking one line off a stream that loses nothing, reading up to the end of the commands loses nothing. |
| `CommandReading.WrittenIsRead` | internal/broker/git.go:128-163 | For any encoding whose lines read back one by one, a list of lines reads back exactly if it has a command and it and its end fit the budget. |
| `RequestHandling.SlotsAreConserved` | internal/broker/ratelimit.go:70-122 | In every run of any number of requests the slots in use, per capability and for authentication, are those of the requests that hold one, and within the limits. |
| `RequestHandling.SlotsComeBack` | internal/broker/ratelimit.go:70-122 | When no request is under way, every slot is free. |
| `RequestHandling.EachSlotIsReturnedOnce` | internal/broker/server.go:82-118 | A request takes at most one slot of each kind and, once over, has returned exactly what it took. |
| `RequestHandling.NothingIsForwardedUnrecorded` | internal/broker/server.go:112-149 | In every run whatever is forwarded comes after its request took its slot and had its preflight emitted, and for a mutation also stored. |
| `RequestHandling.OneResultPerPreflight` | internal/broker/server.go:125-135 | A finished request recorded exactly one result if its preflight succeeded and none otherwise, however the audit store fails. |
| `RequestHandling.FollowFits` | internal/broker/server.go:54-149 | Whatever sequence of steps one request takes, its effects are those its phase allows. |
| `RequestHandling.Handler.AcquireAuthentication` | internal/broker/ratelimit.go:70-82 | A slot is taken without waiting exactly when there is room and the context is not cancelled. |
| `RequestHandling.Handler.Acquire` | internal/broker/ratelimit.go:85-107 | A slot and a budget token are taken, or neither: without the token the slot goes back at once; an empty capability is refused. |
| `RequestHandling.Handler.Preflight` | internal/broker/audit.go:78-96 | The preflight succeeds exactly when the event was emitted and, for a mutation, a store exists and recorded it. |
| `RequestHandling.Handler.ServeHTTP` | internal/broker/server.go:54-149 | One request from beginning to end is a run of the step machine, leaves every slot as it found it, and forwards exactly when it has a ticket, a slot, its budget and its preflight. Its effects, in their order, are written out: authentication slot taken and returned, the slot of the capability or of invalid tokens, preflight emitted and stored, the operation, one result, the slot returned. |
| `RequestClasses.ForwardedWritesAreMutations` | internal/broker/server.go:151-188 | A Git or LFS request that goes upstream is classified as a mutation if and only if it writes, whatever owner and repository are called. |
| `BrokerRequests.RestClass` | internal/broker/server.go:151-170 | For every path under the REST prefix a request is a mutation if and only if its method is neither GET nor HEAD, or the path contains .git/ and ends like a push. |
| `BrokerRequests.AllowedRestClass` | internal/broker/server.go:151-170 | A REST request that the routes let through is a mutation if its route is one for writing, and a read if it is one for GET, unless the path looks like the end of a push. |
| `BrokerRequests.ReadThatLooksLikePush` | internal/broker/server.go:155-158 | The exception: reading a file called git-receive-pack below a directory named x.git counts as a mutation. |
| `BrokerRequests.QueriesAreReads` | internal/broker/server.go:151-170 | GraphQL and context requests are reads, whatever their method. |
| `BrokerRequests.LfsPasses` | internal/broker/git.go:203-235 | LFS downloads and looks at locks are open to every policy, uploads, new locks and lock verification exactly to those under which some ref may be pushed, and nothing else to any. |
| `BrokerRequests.GitPasses` | internal/broker/git.go:30-77 | Fetching is open to every policy, the push service is shown exactly where some push is open, and a push goes through exactly when its commands do. |
| `BrokerRequests.AuthorityIsOpenness` | internal/broker/policy_change.go:20-63 | The authority that policy changes are classified by is what these gates let through, request by request. |
| `DeviceId.CallersAgree` | internal/telemetry/telemetry.go:38-88 | In every interleaving of any number of callers, all that return without error return the same ID, the content of the shared file. |
| `DeviceId.IdFileNeverChanges` | internal/telemetry/telemetry.go:55-88 | Once present, the shared file is the same complete file in every later state. |
| `DeviceId.ExactlyOneLink` | internal/telemetry/telemetry.go:75-87 | If the name started free it is taken exactly when one link has succeeded, never more than one does, and the file is a whole ID. |
| `DeviceId.FailureHasCause` | internal/telemetry/telemetry.go:38-88 | A caller fails only after one of its own system calls did. |
| `DeviceId.CanMoveOn` | internal/telemetry/telemetry.go:38-88 | A caller that has not ended always has a working move that brings it nearer to its answer: nobody waits for anybody. |
| `DeviceId.AloneItReads` | internal/telemetry/telemetry.go:38-53 | Left to itself where there is an ID, a caller returns that, trimmed, and changes nothing. |
| `DeviceId.AloneItWrites` | internal/telemetry/telemetry.go:42-88 | Left to itself where there is none, a caller puts its own ID there, whole, and returns it. |
| `DeviceId.MoveIsInTurn` | internal/telemetry/telemetry.go:38-88 | A caller comes to each stage only from the stage before it, by the system call that belongs there and what that call found. |
| `DeviceId.SpaceAroundGoes` | internal/telemetry/telemetry.go:40-43 | An ID is read without the white space around it. |
| `DeviceId.UuidNeedsNoTrimming` | internal/telemetry/telemetry.go:42-45 | A generated ID reads back from its file as itself, so the winner and the readers agree. |
| `AuthState.AuthConfig.ActivateUser` | internal/config/config.go:460-491 | Clearing the active slots and moving the user's token into them, with the state each failure leaves. |
| `AuthState.AuthConfig.Login` | internal/config/config.go:356-390 | Storing the token, in the keyring or else in the configuration, and activating the user; a non-empty token given is then the active one. |
| `AuthState.AuthConfig.SwitchUser` | internal/config/config.go:392-424 | Switching and, on a failed activation, putting the previous user and token back. |
| `AuthState.AuthConfig.Logout` | internal/config/config.go:428-458 | Removing the host or the user, and activating another listed user when the active one goes. |
| `AuthState.LoginKeeps` | internal/config/config.go:356-390 | After a login, whatever keyring calls failed, every active user is listed, every active slot agrees with that user's stored token, and the user given is active. |
| `AuthState.LoginActivatesItsToken` | internal/config/config.go:356-390 | After a login the active token is the one given; an empty one is masked exactly when it went to the configuration while the keyring holds another token of the user. |
| `AuthState.SwitchKeeps` | internal/config/config.go:392-424 | A successful switch keeps the state in order if and only if it names a listed user. |
| `AuthState.LogoutKeeps` | internal/config/config.go:428-458 | A logout of a listed user keeps the state in order, and removes the host exactly when that user was the only one. |
| `AccountChanges.LoginChanges` | internal/config/config.go:356-390 | A login succeeds exactly under stated conditions on keyring and write; then the user is active and listed last if new, the token is with its user in the keyring or else the configuration, other users' tokens, other hosts and other keyring entries are unchanged. |
| `AccountChanges.SwitchChanges` | internal/config/config.go:392-424 | A switch succeeds exactly if there is an active user, its token is from keyring or configuration, and the new user can be activated; then only the active user and the active slots change, to that user's own token. |
| `AccountChanges.TokenInUse` | internal/config/config.go:237-261 | The token in use is the environment's before the configuration's before the keyring's, and only the environment's is reported as such. |
| `AccountChanges.LogoutChanges` | internal/config/config.go:428-458 | Logging out one of several users takes exactly that user off the listing, order and tokens of the others kept. If another user was active, active user, token, protocol and keyring stay; if the user was, the first other takes over. Other hosts are unchanged. |
| `AccountChanges.LastLogoutChanges` | internal/config/config.go:433-438 | Logging out the last user removes the host and that user's keyring entries, and nothing else. |
| `AuthState.SequencesKeep` | internal/config/config.go:356-491 | So does any sequence of successful logins, switches and logouts naming listed users. |
| `AuthState.ActiveTokenIsStored` | internal/config/config.go:237-260 | In a state in order the active token is the active user's stored one, and the lookup by user agrees with it exactly when keyring and configuration do not hold two different ones. |
| `AuthState.LookupsCanDisagree` | internal/config/config.go:502-512 | Two logins, the first secure and the second not, after which the two lookups give different tokens. |
| `AuthState.FailedSwitchRestores` | internal/config/config.go:402-421 | A switch that fails for want of a token or in the keyring keeps the active user; the active token is kept unless it was in the active slot alone, the slot was cleared and the restoring write failed. |
| `AuthState.FailedSwitchUndoes` | internal/config/config.go:402-421 | With a working restore, the configuration is exactly as before and at most the keyring's active slot of a host with a plain token differs. |
| `AuthState.FailedSwitchKeeps` | internal/config/config.go:402-421 | Then the whole state is in order again. |
| `Migration.Config.MigrateHost` | internal/config/migration/multi_account.go:106-134 | One host: token, user, configuration and keyring, with the state each refusal leaves. |
| `Migration.Config.Do` | internal/config/migration/multi_account.go:86-137 | The loop over the listed hosts, stopping at the first refusal. |
| `Migration.Config.Migrate` | internal/config/config.go:182-209 | A version that is already current is left alone, another one is an error, and the file and version change only when every host went through. |
| `Migration.SucceedsIffEveryHost` | internal/config/migration/multi_account.go:86-137 | The migration succeeds if and only if every host's token can be read, has a user and, when it is in the keyring, can be copied there; no host's migration affects another's. |
| `Migration.MigrationEstablishesOrder` | internal/config/migration/multi_account.go:86-220 | Whatever the old configuration held, a successful migration leaves every host in order, as the later operations need it. |
| `Migration.MigrationKeepsTokens` | internal/config/migration/multi_account.go:139-160 | The hosts kept are exactly those with a token, and for each the new lookup and that of an older program both still find that token. |
| `Migration.MigrationNamesUsers` | internal/config/migration/multi_account.go:80-224 | The active user of a kept host is the one its configuration named, or else the one its token logs in as, and has the token in the store it came from; nobody else's token and no other setting changes. |
| `Migration.MigratableMeans` | internal/config/migration/multi_account.go:80-224 | A host goes through if and only if its token can be read, a token that exists has a named user or a login, and a keyring that holds it takes another entry. |
| `Migration.OrderDoesNotMatter` | internal/config/migration/multi_account.go:86-137 | The order in which the hosts are listed changes neither success nor outcome. |
| `Migration.RetryIsClean` | internal/config/migration/multi_account.go:106-134 | After a refusal, which may have copied some tokens into the keyring, the next attempt succeeds exactly when it would have without the refused one, and ends the same. |
| `Migration.MigratedStatesStayInOrder` | internal/config/config.go:356-491 | A migration and then any successful logins, switches and logouts keep every host in order. |
| `Wrapping.FormatSlice` | internal/text/text.go:97-151 | The text is the greedy layout of the surrounded, optionally sorted values; no value gives the bare indent and a single one is written as it is. |
| `Wrapping.Wrap` | internal/text/text.go:115-150 | The loop ends although it takes a value again after a break, and writes exactly the greedy layout. |
| `Wrapping.GreedyIsShortest` | internal/text/text.go:120-149 | No order-preserving layout that keeps every line of several values within the limit has fewer lines. |
| `Wrapping.RenderWeaves` | internal/text/text.go:120-149 | The text holds every value once and in order, with a comma and a space between two values of a line and a comma, a break and the indent between lines, and nothing else. |
| `Wrapping.OneLineExactly` | internal/text/text.go:133-139 | All values share one line exactly when that line fits. |
| `Wrapping.ExtremeLimits` | internal/text/text.go:98-100 | A line length of 0 means no limit; one beyond the signed range wraps to a negative limit and gives a line per value. |
| `Wrapping.OrdinaryLimits` | internal/text/text.go:97-150 | Any other line length is the limit: the values share one line if and only if they fit into it. |
| `SafeUrl.JoinPath` | internal/safeurl/safeurl.go:135-145 | The loop over an array of escaped components gives the joined path. |
| `SafeUrl.PathRoundTrip` | internal/safeurl/safeurl.go:135-145 | For every non-empty list of components, splitting the path on "/" and percent-decoding the parts gives back exactly the components; every character of the path is one RFC 3986 allows in a segment, or the slash. |
| `SafeUrl.EscapesOnlyAtNeed` | internal/safeurl/safeurl.go:135-145 | A component prints as itself if and only if it consists of letters, digits, unreserved marks and harmless sub-delimiters; nothing else is left unescaped, and nothing of that escaped. |
| `SafeUrl.PathIsInjective` | internal/safeurl/safeurl.go:135-145 | Two lists print the same path if and only if they are equal, or both are empty or a single empty component. |
| `SafeUrl.PrefixJoin` | internal/safeurl/safeurl.go:152-164 | A prefix and a path meet in a slash, behind which the path is unchanged; it is a single one exactly when the prefix does not end in two and the first component is not empty; a blank path leaves the prefix as it is. |
| `SafeUrl.PrefixedIsInjective` | internal/safeurl/safeurl.go:152-164 | Behind any one prefix, too, only blank lists print alike. |
| `SafeUrl.NothingTraverses` | internal/safeurl/safeurl.go:71-82 | A part of the path decodes to ".." if and only if a component was ".."; in an accepted path no part is ".." raw or decoded. |
| `SafeUrl.JoinPathWithHostPrefix` | internal/safeurl/safeurl.go:64-69 | Construction fails exactly when a component is "..". |
| `SafeUrl.MutableSafeURL.String` | internal/safeurl/safeurl.go:97-98 | Rendering gives the prefixed path that the lemmas are about. |
| `SelectField.SearchKeepsSelection` | internal/prompter/multi_select_with_search.go:127-204 | Rebuilding the list after a search, whatever was found, leaves the list of selected keys exactly as it was, in order. |
| `SelectField.MultiSelectSearchField.ApplySearchResult` | internal/prompter/multi_select_with_search.go:127-185 | A failed search changes only its query and error; a good one rebuilds the list as selected keys, results and persistent options, each once and with its label, puts the cursor first and keeps the selection. |
| `SelectField.ShownMeans` | internal/prompter/multi_select_with_search.go:127-185 | A result that was not selected is shown with the label it was first found with, any other key with the label known for it, and a key without a label by itself. |
| `SelectField.LearnedMeans` | internal/prompter/multi_select_with_search.go:139-141 | After a search each result's key has the label that came with it last; what was known of other keys stays. |
| `SelectField.MultiSelectSearchField.SelectedKeys` | internal/prompter/multi_select_with_search.go:187-204 | The selected keys, defaults first, each once. |
| `SelectField.MultiSelectSearchField.Press` | internal/prompter/multi_select_with_search.go:219-311 | Every key press keeps options duplicate-free, the cursor in range and the selection within defaults and options; it says what moves, toggles, types, switches or starts a search, that nothing does while loading, and that the answered query and its error stay. |
| `SelectField.MultiSelectSearchField.SearchDone` | internal/prompter/multi_select_with_search.go:224-228 | A finished search keeps all of that and the selected keys, records its query and whether it failed, and moves to the list. |
| `SelectField.MultiSelectSearchField.EnterAgain` | internal/prompter/multi_select_with_search.go:224-270 | After a search, failed or not, going back and entering the same query again asks for no search: it only moves to the list, the failure still on record. |
| `SearchMeanings.AdvancedQueryMeans` | pkg/search/query.go:146-236 | Read in a grammar in which OR binds loosest, the tokens of a query hold of an item if and only if the keywords' tokens do and every qualifier does: one of the values for user and repo, one of each group and all others for in and is, all values otherwise. |
| `SearchMeanings.AdvancedStringMeans` | pkg/search/query.go:146-166 | The string that is sent, cut into tokens and read, holds of an item if and only if its keywords do, on their own, and every qualifier does: for all keywords whose brackets match and all values that are quoted or free of brackets. |
| `SearchMeanings.AdvancedStringLexes` | pkg/search/query.go:146-166 | The string that is sent is cut into the keywords' own tokens, in brackets when there are qualifiers too, and those of all the qualifiers' pieces if and only if every value is quoted or free of brackets. Qualifier names are words without blanks, brackets and quotes, as all names in the source are. |
| `SearchMeanings.MeansWantedIff` | pkg/search/query.go:146-284 | With matching brackets in the keywords, and unless a bracket is in one of several users or repositories to choose from, the string means what is asked for, whatever its words stand for, if and only if every value is quoted or free of brackets. |
| `SearchMeanings.BracketBreaksLabel` | pkg/search/query.go:279-284 | The value that fails: a label "x)" is printed bare and cut into a word and a closing bracket, and the query has no meaning. |
| `SearchMeanings.UnbalancedKeywordsLeak` | pkg/search/query.go:157-160 | Keywords whose brackets do not match get out of the brackets around them: with "a ) OR ( b" the first keyword alone satisfies the whole query. |
| `SearchMeanings.MeaningIffBalanced` | pkg/search/query.go:146-166 | A list of tokens has a meaning if and only if its brackets match, counted from the left. |
| `SearchMeanings.KeywordsMean` | pkg/search/query.go:333-345 | Keywords given one by one, each one token, are all asked for. |
| `SearchMeanings.KeywordIsOneTokenIff` | pkg/search/query.go:333-345 | A keyword without a colon is one token if and only if it is quoted or free of brackets, and neither empty nor OR. |
| `SearchMeanings.KeywordIsWord` | pkg/search/query.go:336-342 | A keyword with a colon is printed like a qualifier's value, quoted behind its first colon. |
| `SearchTokens.WordIsOneTokenIff` | pkg/search/query.go:279-284 | The word printed for a value is one token if and only if the value is put in quotes or has no bracket. |
| `SearchTokens.ListedLex` | pkg/search/query.go:220-236 | The printed pieces of all qualifiers are cut into words, ORs and brackets as written, each word into its own tokens, and that gives back the pieces exactly when every value is quoted or free of brackets. |
| `SearchTokens.LexIsStable` | pkg/search/query.go:279-284 | Every word cut from any text is one token by itself: cutting again changes nothing. |
| `SearchMeanings.BracketsMatter` | pkg/search/query.go:157-160 | Without the brackets around the keywords the meaning can change. |
| `SearchMeanings.PiecesMean` | pkg/search/query.go:168-236 | The pieces of one qualifier mean what that qualifier asks for. |
| `SearchQueries.ValuesOccurOnce` | pkg/search/query.go:181-236 | Every value of a qualifier is in exactly one piece, as often as it was given, and nothing else is. |
| `SearchQueries.AdvancedStringIsOrderFree` | pkg/search/query.go:291-331 | Neither the iteration order of the map nor the order of any qualifier's values shows in the query string. |
| `SearchQueries.QueryStringIsOfPieces` | pkg/search/query.go:146-166 | The query string is the text of the keywords, in brackets when there are qualifiers too, and of a listing of all the qualifiers' pieces by key. |
| `SearchQueries.WordsTellValuesApart` | pkg/search/query.go:279-284 | Two values of a qualifier print as the same word only if they are equal, quoted or not. |
| `SearchQueries.FormatQualifiers` | pkg/search/query.go:291-331 | The loop over the entries sorted by key gives the texts that the lemmas are about, whatever order the map had. |
| `SearchQueries.FormatQualifier` | pkg/search/query.go:168-179 | Each qualifier is formatted as its name calls for: grouped, or-ed or value by value, in ascending order. |
| `SearchQueries.FormattedIsOrderFree` | pkg/search/query.go:181-236 | The texts of one qualifier do not depend on the order of its values. |
| `SearchQueries.FormatSpecialQualifiers` | pkg/search/query.go:181-218 | The loops that sort values into groups, join each group and sort the texts give the texts of the pieces in order. |
| `SearchQueries.GroupWithOR` | pkg/search/query.go:220-236 | A group is its words in order, joined by OR and bracketed unless there is one. |
| `SearchPaging.Search` | pkg/search/searcher.go:66-104 | Against a server that pages one fixed list the loop returns its first `limit` items, or all, with the total; a page that fails ends the search with exactly the items before it. |
| `SearchPaging.FewestPages` | pkg/search/searcher.go:69-101 | No set of pages of that size that holds the wanted items is smaller than the pages asked for. |
| `Credentials.EveryCredentialOpens` | internal/brokeradmin/service.go:51-89 | After any sequence of puts, new keys and issued capabilities every stored credential opens to the token last put under its name and has kept its identifier. |
| `Credentials.CapabilitiesStillDecrypt` | internal/broker/capability.go:92-124 | The credential a capability was issued for stays stored under the identifier the capability is bound to, and opens to the last token put under its name. |
| `Credentials.WrittenOpensIff` | internal/broker/postgres.go:79-104 | What a put writes opens to its token if and only if the row has the identifier the put sealed for; otherwise, after an overlapping first put of the name, it does not open at all. |
| `Credentials.AdminService.PutCredential` | internal/brokeradmin/service.go:51-89 | A put is refused exactly when it is incomplete, finds no randomness or draws a taken identifier, and otherwise writes the sealed credential under the existing or drawn identifier. |
| `Credentials.PutSucceedsIff` | internal/brokeradmin/service.go:51-89 | A put goes through if and only if name, host, token, resolution and URL are proper, a nonce is found, and there is an identifier: the existing row's, or a drawn one that no other credential has. |
| `Credentials.PutWrites` | internal/broker/postgres.go:79-104 | A put writes the settings as given under the kept or drawn identifier, sealed with the active key and the nonce, and changes no other row, key or binding. |

## Left out

- HTTP transport, header copying, response streaming, TLS, URL parsing and the broker path check; upstream is an outcome given from outside.
- SQL text, pgx and JSON encoding. Each transaction is an atomic step, or the steps lock, read the clock and commit; 64-bit overflow of a revision is not modelled.
- AES-GCM, SHA-256, base64 and randomness. The cipher is ideal and associated data are lists of strings; replacement of invalid UTF-8 by the JSON encoder is not modelled. Secret hashes are compared as values.
- The rate limiter's token bucket and the single-flight library: admission by the bucket is a choice from outside, and waiters of a flight receive its completed result.
- The GraphQL parser: selection sets, arguments and directives start as syntax trees. Registered operation families and field tables are those of the source, written out.
- Parsing of the route patterns, which are kept as lists of segments; the 149 routes are written out.
- Rotation of the upstream credential during a request: a session's upstream access comes from its first read.
- Paging of the audit archive, retention, and the fields of audit events other than their phase and mutation flag.
- Temporary file names and their removal in the device-ID directory, and failures to create, write or close the temporary file beyond an error return.
- The go-gh configuration and authentication libraries and the operating system keyring, which are not part of this model: the configuration tree is a map of hosts, the lookup of a plain token and its source is what the authentication code expects of them. Keyring entries of a logged-out user who is not active stay, as in the source.
- Unicode white space around the words of a ref command, multi-byte characters in widths, and the escapes of control and non-printing characters in quoted search values; strings are sequences of bytes.
- The search backend's own reader: how it cuts a query into tokens and what they mean is taken from the syntax the source describes (brackets, OR, words next to each other, quotes with backslashes).
- SearchMeanings.MeansWantedIff: says nothing when a value with a bare bracket is one of several users or repositories. Whether the meaning survives there depends on the other values and on the keywords.
- Overflow of a line's length in `FormatSlice` beyond the largest integer.
- The query part of a safe URL, rendering and styling of the select field, its text input widget and its spinner.
- The API queries and client calls under `api/`, exporters, prompters, colours, pager, codespaces tunnels, mocks, generated code, build scripts and small utilities: plumbing, or easy members only.
- RequestHandling.Handler.ServeHTTP: does not model panics of an operation or the response written; a result is recorded however the operation ends.
- SearchPaging.Search: models a server whose list does not change between two pages.
- GraphQLSelections.CheckerAgreesWithInlining: requires fragment names without a colon, which is the GraphQL grammar for names.
