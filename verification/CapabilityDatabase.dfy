/**
 * The capability tables and their transactions: issue, revoke, the authentication read, the
 * observation update, and the policy replacement that writes permanent history.
 *
 * Each transaction is a function of the tables; the class below runs the same transactions in
 * place and is proved to leave the tables those functions describe.
 */
module CapabilityDatabase {
  import opened Wrappers
  import opened Policies
  import opened PolicyChanges
  import opened PolicyRepresentations
  import opened Repositories

  datatype Capability = Capability(
    selector: string, secretHash: string, credentialId: string, repositoryId: int,
    policy: Policy, revision: int, expiresAt: Option<int>, revokedAt: Option<int>, policyUpdatedAt: int)

  datatype Event = Event(
    occurredAt: int, repositoryId: int, beforeRevision: int, afterRevision: int,
    before: Representation, after: Representation, direction: Direction, reason: string, actor: Option<string>)

  datatype Database = Database(
    capabilities: map<string, Capability>,
    selectors: map<string, string>,
    observations: map<(string, int), Repository>,
    credentials: map<string, string>,
    events: map<string, seq<Event>>)

  datatype Replacement = Replacement(capabilityId: string, policy: Policy, reason: string, actor: string)

  datatype Rejection = Incomplete | Unsupported | NotFound | IsRevoked | IsExpired | ProfileChanged

  datatype Judgement = Reject(rejection: Rejection) | Keep | Change(direction: Direction)

  /** One row of the authentication join. */
  datatype StoredCapability = StoredCapability(id: string, capability: Capability, repository: Repository,
                                               sealed: string)

  function HistoryOf(db: Database, id: string): seq<Event> {
    if id in db.events then db.events[id] else []
  }

  // ---------------------------------------------------------------- transactions on the tables

  function BySelector(db: Database, selector: string): Option<StoredCapability> {
    if selector !in db.selectors || db.selectors[selector] !in db.capabilities then None
    else
      var id := db.selectors[selector];
      var c := db.capabilities[id];
      if (c.credentialId, c.repositoryId) !in db.observations || c.credentialId !in db.credentials then None
      else Some(StoredCapability(id, c, db.observations[(c.credentialId, c.repositoryId)],
                                 db.credentials[c.credentialId]))
  }

  /** An insert that meets the unique and foreign keys; anything else leaves the tables alone. */
  function Issued(db: Database, id: string, selector: string, secretHash: string, credentialId: string,
                  repository: Repository, policy: Policy, expiresAt: Option<int>, at: int): Database {
    if id in db.capabilities || selector in db.selectors || credentialId !in db.credentials then db
    else db.(
      capabilities := db.capabilities[id := Capability(selector, secretHash, credentialId, repository.id, policy, 1,
                                                       expiresAt, None, at)],
      selectors := db.selectors[selector := id],
      observations := db.observations[(credentialId, repository.id) := repository])
  }

  function Revoked(db: Database, id: string, at: int): Database {
    if id !in db.capabilities || db.capabilities[id].revokedAt.Some? then db
    else db.(capabilities := db.capabilities[id := db.capabilities[id].(revokedAt := Some(at))])
  }

  function ObservationRecorded(db: Database, credentialId: string, repository: Repository): Option<Database> {
    if (credentialId, repository.id) !in db.observations then None
    else Some(db.(observations := db.observations[(credentialId, repository.id) := repository]))
  }

  function Complete(request: Replacement): Option<Rejection> {
    if request.capabilityId == "" || request.reason == "" then Some(Incomplete)
    else if !ValidPolicy(request.policy) then Some(Unsupported)
    else None
  }

  /** What the transaction decides from the row it locked and the clock it then read. */
  ghost function Judge(view: Capability, request: Replacement, at: int): Judgement {
    var before := Decoded(Represent(view.policy, view.revision));
    if view.revokedAt.Some? then Reject(IsRevoked)
    else if view.expiresAt.Some? && view.expiresAt.value <= at then Reject(IsExpired)
    else if request.policy.name != view.policy.name || request.policy.version != view.policy.version
    then Reject(ProfileChanged)
    else
      match Classified(before, request.policy)
      case Err(_) => Reject(Unsupported)
      case Ok(direction) => if direction == Unchanged then Keep else Change(direction)
  }

  /** The update writes the customizable columns of the row and appends one event. */
  ghost function Replaced(db: Database, view: Capability, request: Replacement, at: int, direction: Direction): Database
    requires request.capabilityId in db.capabilities
  {
    var row := db.capabilities[request.capabilityId];
    var event := Event(at, view.repositoryId, view.revision, view.revision + 1,
                       Represent(view.policy, view.revision), Represent(request.policy, view.revision + 1),
                       direction, request.reason, if request.actor == "" then None else Some(request.actor));
    db.(
      capabilities := db.capabilities[request.capabilityId := row.(
        policy := row.policy.(grants := request.policy.grants, git := request.policy.git),
        revision := view.revision + 1, policyUpdatedAt := at)],
      events := db.events[request.capabilityId := HistoryOf(db, request.capabilityId) + [event]])
  }

  // ---------------------------------------------------------------- permanent history

  /** A representation that a supported policy produced. */
  ghost predicate Genuine(r: Representation) {
    ValidPolicy(Decoded(r)) && r == Represent(Decoded(r), r.revision)
  }

  /** Each event starts from the revision, the policy and the time at which the one before it ended. */
  ghost predicate Follows(history: seq<Event>, i: int)
    requires 0 <= i < |history|
  {
    var e := history[i];
    && e.beforeRevision == e.before.revision == i + 1
    && e.afterRevision == e.after.revision == i + 2
    && (i > 0 ==> history[i - 1].after == e.before && history[i - 1].occurredAt <= e.occurredAt)
  }

  ghost predicate Lawful(e: Event, c: Capability) {
    && Genuine(e.before) && Genuine(e.after)
    && Classified(Decoded(e.before), Decoded(e.after)) == Ok(e.direction) && e.direction != Unchanged
    && e.reason != "" && e.repositoryId == c.repositoryId
    && (c.expiresAt.Some? ==> e.occurredAt < c.expiresAt.value)
  }

  /** A gap-free chain from revision 1 to the policy now in force. */
  ghost predicate Chain(history: seq<Event>, c: Capability) {
    && c.revision == 1 + |history|
    && (forall i :: 0 <= i < |history| ==> Follows(history, i) && Lawful(history[i], c))
    && (history != [] ==>
          && history[|history| - 1].after == Represent(c.policy, c.revision)
          && history[|history| - 1].occurredAt == c.policyUpdatedAt)
  }

  lemma ValidRepresentsGenuine(policy: Policy, revision: int)
    requires ValidPolicy(policy)
    ensures Genuine(Represent(policy, revision)) && Decoded(Represent(policy, revision)) == policy
  {
    DecodeRepresent(policy, revision);
  }

  /** One more replacement, judged on the row as it stands, extends the chain. */
  lemma ReplacementExtendsChain(db: Database, request: Replacement, at: int, direction: Direction)
    requires request.capabilityId in db.capabilities
    requires var c := db.capabilities[request.capabilityId];
             && ValidPolicy(c.policy) && ValidPolicy(request.policy) && request.reason != ""
             && Chain(HistoryOf(db, request.capabilityId), c)
             && Judge(c, request, at) == Change(direction)
             && (HistoryOf(db, request.capabilityId) != [] ==> c.policyUpdatedAt <= at)
    ensures var c := db.capabilities[request.capabilityId];
            var after := Replaced(db, c, request, at, direction);
            var c' := after.capabilities[request.capabilityId];
            && c'.policy == request.policy
            && Chain(HistoryOf(after, request.capabilityId), c')
  {
    var c := db.capabilities[request.capabilityId];
    var history := HistoryOf(db, request.capabilityId);
    var after := Replaced(db, c, request, at, direction);
    var c' := after.capabilities[request.capabilityId];
    var longer := HistoryOf(after, request.capabilityId);
    ValidRepresentsGenuine(c.policy, c.revision);
    ValidRepresentsGenuine(request.policy, c.revision + 1);
    forall i | 0 <= i < |longer|
      ensures Follows(longer, i) && Lawful(longer[i], c')
    {
      if i < |history| {
        assert Follows(history, i) && Lawful(history[i], c);
        assert longer[i] == history[i] && (i > 0 ==> longer[i - 1] == history[i - 1]);
      }
    }
  }

  // ---------------------------------------------------------------- the store

  class PostgresStore {
    var capabilities: map<string, Capability>
    var selectors: map<string, string>
    var observations: map<(string, int), Repository>
    var credentials: map<string, string>
    var events: map<string, seq<Event>>

    function Tables(): Database
      reads this
    {
      Database(capabilities, selectors, observations, credentials, events)
    }

    ghost predicate Chained(id: string)
      reads this
    {
      id in capabilities ==> Chain(if id in events then events[id] else [], capabilities[id])
    }

    constructor ()
      ensures Tables() == Database(map[], map[], map[], map[], map[])
    {
      capabilities, selectors, observations, credentials, events := map[], map[], map[], map[], map[];
    }

    method CreateCapability(id: string, selector: string, secretHash: string, credentialId: string,
                            repository: Repository,
                            policy: Policy, expiresAt: Option<int>, at: int) returns (ok: bool)
      modifies this
      ensures Tables() ==
              Issued(old(Tables()), id, selector, secretHash, credentialId, repository, policy, expiresAt, at)
      ensures ok <==> id !in old(capabilities) && selector !in old(selectors) && credentialId in old(credentials)
    {
      if id in capabilities || selector in selectors || credentialId !in credentials { return false; }
      observations := observations[(credentialId, repository.id) := repository];
      capabilities := capabilities[
        id := Capability(selector, secretHash, credentialId, repository.id, policy, 1, expiresAt, None, at)];
      selectors := selectors[selector := id];
      return true;
    }

    method RevokeCapability(id: string, at: int) returns (r: Result<(), Rejection>)
      modifies this
      ensures Tables() == Revoked(old(Tables()), id, at)
      ensures r.Ok? <==> id in old(capabilities) && old(capabilities)[id].revokedAt.None?
    {
      if id !in capabilities || capabilities[id].revokedAt.Some? { return Err(NotFound); }
      capabilities := capabilities[id := capabilities[id].(revokedAt := Some(at))];
      return Ok(());
    }

    method UpdateRepositoryObservation(credentialId: string, repository: Repository) returns (ok: bool)
      modifies this
      ensures ok <==> ObservationRecorded(old(Tables()), credentialId, repository).Some?
      ensures ok <==> (credentialId, repository.id) in old(observations)
      ensures ok ==> observations == old(observations)[(credentialId, repository.id) := repository]
      ensures Tables() ==
              if ok then ObservationRecorded(old(Tables()), credentialId, repository).value else old(Tables())
    {
      if (credentialId, repository.id) !in observations { return false; }
      observations := observations[(credentialId, repository.id) := repository];
      return true;
    }

    /** One replacement with no other transaction in between. */
    method ReplaceCapabilityPolicy(request: Replacement, clock: int) returns (r: Result<bool, Rejection>)
      modifies this
      ensures Complete(request).Some? ==> r == Err(Complete(request).value)
      ensures Complete(request).None? && request.capabilityId !in old(capabilities) ==> r == Err(NotFound)
      ensures Complete(request).None? && request.capabilityId in old(capabilities) ==>
        match Judge(old(capabilities)[request.capabilityId], request, clock)
        case Reject(why) => r == Err(why)
        case Keep => r == Ok(false)
        case Change(direction) =>
          && r == Ok(true)
          && Tables() == Replaced(old(Tables()), old(capabilities)[request.capabilityId], request, clock, direction)
      ensures r != Ok(true) ==> Tables() == old(Tables())
    {
      if request.capabilityId == "" || request.reason == "" { return Err(Incomplete); }
      if !ValidPolicy(request.policy) { return Err(Unsupported); }
      if request.capabilityId !in capabilities { return Err(NotFound); }
      var current := capabilities[request.capabilityId];
      var before := NewPolicyRepresentation(current.policy, current.revision);
      if current.revokedAt.Some? { return Err(IsRevoked); }
      if current.expiresAt.Some? && current.expiresAt.value <= clock { return Err(IsExpired); }
      if request.policy.name != current.policy.name || request.policy.version != current.policy.version {
        return Err(ProfileChanged);
      }
      var decoded := DecodePolicy(before);
      var classified := ClassifyPolicyChange(decoded, request.policy);
      if classified.Err? { return Err(Unsupported); }
      if classified.value == Unchanged { return Ok(false); }
      var after := NewPolicyRepresentation(request.policy, current.revision + 1);
      capabilities := capabilities[request.capabilityId := current.(
        policy := current.policy.(grants := request.policy.grants, git := request.policy.git),
        revision := current.revision + 1, policyUpdatedAt := clock)];
      var event := Event(clock, current.repositoryId, current.revision, current.revision + 1, before, after,
                         classified.value, request.reason, if request.actor == "" then None else Some(request.actor));
      var history := if request.capabilityId in events then events[request.capabilityId] else [];
      events := events[request.capabilityId := history + [event]];
      return Ok(true);
    }

    /** Newest first, cut at `since` and at `limit`. */
    method ListCapabilityPolicyEvents(id: string, since: Option<int>, limit: int) returns (r: Option<seq<Event>>)
      requires Chained(id)
      ensures r.None? <==> id == "" || limit <= 0 || limit > 1000 || id !in capabilities
      ensures r.Some? ==> ListedFrom(HistoryOf(Tables(), id), since, limit, r.value)
    {
      if id == "" || limit <= 0 || limit > 1000 || id !in capabilities { return None; }
      ChainIsOrdered(if id in events then events[id] else [], capabilities[id]);
      var listed := NewestFirst(if id in events then events[id] else [], since, limit);
      return Some(listed);
    }
  }

  /** The answer is the reversed tail of the history: newest revision first, nothing older than
      `since`, and short of the limit only when everything left out is older. */
  ghost predicate ListedFrom(history: seq<Event>, since: Option<int>, limit: int, listed: seq<Event>) {
    && |listed| <= |history| && |listed| <= limit
    && (forall k :: 0 <= k < |listed| ==> listed[k] == history[|history| - 1 - k])
    && (forall i, j :: 0 <= i < j < |listed| ==> listed[i].afterRevision > listed[j].afterRevision)
    && (since.Some? ==> forall e :: e in listed ==> e.occurredAt >= since.value)
    && (|listed| < limit ==> forall k :: 0 <= k < |history| - |listed| ==>
          since.Some? && history[k].occurredAt < since.value)
  }

  /** The query sorts by revision and filters by time; along a chain both are the order of commit. */
  method NewestFirst(history: seq<Event>, since: Option<int>, limit: int) returns (listed: seq<Event>)
    requires Ordered(history) && limit > 0
    ensures ListedFrom(history, since, limit, listed)
  {
    listed := [];
    while |listed| < |history| && |listed| < limit &&
          (since.Some? ==> history[|history| - 1 - |listed|].occurredAt >= since.value)
      invariant |listed| <= |history| && |listed| <= limit
      invariant forall k :: 0 <= k < |listed| ==> listed[k] == history[|history| - 1 - k]
      invariant since.Some? ==> forall k :: 0 <= k < |listed| ==> listed[k].occurredAt >= since.value
      decreases |history| - |listed|
    {
      listed := listed + [history[|history| - 1 - |listed|]];
    }
    if |listed| < |history| && |listed| < limit {
      assert history[|history| - 1 - |listed|].occurredAt < since.value;
    }
  }

  /** Along a chain revisions count up one by one and event times never decrease. */
  ghost predicate Ordered(history: seq<Event>) {
    && (forall i :: 0 <= i < |history| ==> history[i].afterRevision == i + 2)
    && (forall i, j :: 0 <= i <= j < |history| ==> history[i].occurredAt <= history[j].occurredAt)
  }

  lemma {:induction false} TimesNeverDecrease(history: seq<Event>, i: int, j: int)
    requires 0 <= i <= j < |history| && forall k :: 0 <= k < |history| ==> Follows(history, k)
    ensures history[i].occurredAt <= history[j].occurredAt
    decreases j
  {
    if i < j {
      TimesNeverDecrease(history, i, j - 1);
      assert Follows(history, j);
    }
  }

  lemma ChainIsOrdered(history: seq<Event>, c: Capability)
    requires Chain(history, c)
    ensures Ordered(history)
  {
    forall i | 0 <= i < |history|
      ensures history[i].afterRevision == i + 2
    {
      assert Follows(history, i);
    }
    forall i, j | 0 <= i <= j < |history|
      ensures history[i].occurredAt <= history[j].occurredAt
    {
      TimesNeverDecrease(history, i, j);
    }
  }
}
